/** What the commands and messages of the portal protocol bring about, stated on the whole state: which connection is
    admitted, which action is dispatched, which session ends. The safety theorems say what never happens besides. */
module PortalEffects {
  import opened Wrappers
  import opened PortalMoves
  import opened PortalProtocol
  import opened PortalSafety
  import opened PortalUi

  // ----- Commands of the user -----

  /** Connecting opens one session with the settings of the node, and starts one task for it, exactly when the active
      workspace has that portal node and it has no session yet. */
  lemma ConnectOpens(w: World, node: NodeId)
    ensures var now := Step(w, UserConnect(node));
            if w.active.Some? && node in w.active.value.portals
               && PortalKey(w.active.value.id, node) !in w.ui.sessions
            then
              var key, config := PortalKey(w.active.value.id, node), w.active.value.portals[node];
              now == w.(ui := w.ui.(sessions := w.ui.sessions[key := LivePortal(config, Connecting, [])]),
                        next := w.next + 1, jobs := w.jobs[w.next := Working(Connect(key, config))])
            else now == w
  {
    if AfterConnect(w.ui, w.active, node).tasks != [] {
      SpawnOne(w.(ui := AfterConnect(w.ui, w.active, node).ui),
               Connect(PortalKey(w.active.value.id, node), w.active.value.portals[node]));
    }
  }

  lemma BeginDisconnectCloses(w: World, key: PortalKey)
    ensures var now := Handled(w, AfterBeginDisconnect(w.ui, key));
            if key in w.ui.sessions && w.ui.sessions[key].phase.Connected? then
              var live := w.ui.sessions[key];
              var closing := live.(phase := Disconnecting(live.phase.id));
              now == w.(ui := w.ui.(sessions := w.ui.sessions[key := closing]), next := w.next + 1,
                        jobs := w.jobs[w.next := Working(Unregister(key, live.phase.id))],
                        released := w.released + multiset{live.phase.id})
            else now == w
  {
    if AfterBeginDisconnect(w.ui, key).tasks != [] {
      SpawnOne(w.(ui := AfterBeginDisconnect(w.ui, key).ui), Unregister(key, w.ui.sessions[key].phase.id));
    }
  }

  /** Disconnecting ends a connected session, busy or not, and schedules one unregister of its id. */
  lemma DisconnectCloses(w: World, node: NodeId)
    ensures var now := Step(w, UserDisconnect(node));
            if w.active.Some? && PortalKey(w.active.value.id, node) in w.ui.sessions
               && w.ui.sessions[PortalKey(w.active.value.id, node)].phase.Connected?
            then
              var key := PortalKey(w.active.value.id, node);
              var live := w.ui.sessions[key];
              var closing := live.(phase := Disconnecting(live.phase.id));
              now == w.(ui := w.ui.(sessions := w.ui.sessions[key := closing]), next := w.next + 1,
                        jobs := w.jobs[w.next := Working(Unregister(key, live.phase.id))],
                        released := w.released + multiset{live.phase.id})
            else now == w
  {
    if w.active.Some? {
      BeginDisconnectCloses(w, PortalKey(w.active.value.id, node));
    }
  }

  lemma ExecuteDispatches(w: World, node: NodeId, action: Action, key: PortalKey, id: PortalId)
    requires w.active.Some? && key == PortalKey(w.active.value.id, node)
    requires key in w.ui.sessions && w.ui.sessions[key].phase == Connected(id, false)
    ensures var busy := w.ui.sessions[key].(phase := Connected(id, true));
            Step(w, UserExecute(node, action))
            == w.(ui := w.ui.(sessions := w.ui.sessions[key := busy]), next := w.next + 1,
                  jobs := w.jobs[w.next := Working(Act(key, id, action))],
                  log := w.log[id := LogOf(w.log, id) + [Accepted(action), Dispatched(action)]])
  {
    SpawnOne(Noted(w, id, Accepted(action)).(ui := AfterExecute(w.ui, w.active, node, action).ui),
             Act(key, id, action));
    assert LogOf(w.log, id) + [Accepted(action)] + [Dispatched(action)]
        == LogOf(w.log, id) + [Accepted(action), Dispatched(action)];
  }

  lemma ExecuteQueues(w: World, node: NodeId, action: Action, key: PortalKey, id: PortalId)
    requires w.active.Some? && key == PortalKey(w.active.value.id, node)
    requires key in w.ui.sessions && w.ui.sessions[key].phase == Connected(id, true)
    ensures var live := w.ui.sessions[key];
            var queued := live.(pending := live.pending + [action]);
            Step(w, UserExecute(node, action))
            == w.(ui := w.ui.(sessions := w.ui.sessions[key := queued]),
                  log := w.log[id := LogOf(w.log, id) + [Accepted(action)]])
  {
  }

  lemma ExecuteRefuses(w: World, node: NodeId, action: Action)
    requires w.active.Some? && PortalKey(w.active.value.id, node) in w.ui.sessions ==>
      !w.ui.sessions[PortalKey(w.active.value.id, node)].phase.Connected?
    ensures Step(w, UserExecute(node, action)) == w
  {
  }

  // ----- Results of the background tasks -----

  /** A session comes to be connected, idle and under the id of the result, if and only if its workspace is active and
      the node there still has the settings the session was opened with. Otherwise the session is gone and the id,
      which nobody had released before, is released once. */
  lemma ConnectionIsAdmittedIffCurrent(w: World, events: seq<Event>, job: nat, key: PortalKey, id: PortalId)
    requires IsStart(w)
    requires job in Run(w, events).jobs && Run(w, events).jobs[job] == ConnectDone(key, Some(id))
    ensures var before := Run(w, events);
            var now := Step(before, DeliverConnected(job));
            && key in before.ui.sessions && before.ui.sessions[key].phase == Connecting && before.released[id] == 0
            && (key in now.ui.sessions && now.ui.sessions[key].phase == Connected(id, false)
                <==> && before.active.Some? && before.active.value.id == key.workspace
                     && key.node in before.active.value.portals
                     && before.active.value.portals[key.node] == before.ui.sessions[key].config)
            && (key in now.ui.sessions ==>
                  && now.ui == before.ui.(sessions := before.ui.sessions[
                       key := before.ui.sessions[key].(phase := Connected(id, false))])
                  && now == before.(ui := now.ui, jobs := before.jobs - {job}))
            && (key !in now.ui.sessions ==>
                  && now.ui == before.ui.(sessions := before.ui.sessions - {key})
                  && now == before.(ui := now.ui, next := before.next + 1,
                                    jobs := (before.jobs - {job})[before.next := Working(Unregister(key, id))],
                                    released := before.released + multiset{id}))
  {
    var before := Run(w, events);
    var r := EveryRunIsSafe(w, events);
    ResultFindsItsSession(before, job, r.connector);
    RegisteredIdsAreOwnedOnce(w, events, id);
    assert TaskHolds(CoreOf(before), job, id);
    DeliveryAdmitsIffCurrent(before, job, key, id);
  }

  lemma DeliveryAdmitsIffCurrent(w: World, job: nat, key: PortalKey, id: PortalId)
    requires job in w.jobs && w.jobs[job] == ConnectDone(key, Some(id))
    requires key in w.ui.sessions && w.ui.sessions[key].phase == Connecting
    ensures Step(w, DeliverConnected(job))
         == if && w.active.Some? && w.active.value.id == key.workspace && key.node in w.active.value.portals
               && w.active.value.portals[key.node] == w.ui.sessions[key].config
            then
              var connected := w.ui.sessions[key].(phase := Connected(id, false));
              w.(ui := w.ui.(sessions := w.ui.sessions[key := connected]), jobs := w.jobs - {job})
            else
              w.(ui := w.ui.(sessions := w.ui.sessions - {key}), next := w.next + 1,
                 jobs := (w.jobs - {job})[w.next := Working(Unregister(key, id))],
                 released := w.released + multiset{id})
  {
    SpawnOne(Finished(w, job).(ui := w.ui.(sessions := w.ui.sessions - {key})), Unregister(key, id));
  }

  /** A connection that failed takes its session away, and starts nothing. */
  lemma FailureIsForgotten(w: World, job: nat, key: PortalKey)
    requires job in w.jobs && w.jobs[job] == ConnectDone(key, None)
    ensures Step(w, DeliverConnected(job))
         == w.(ui := w.ui.(sessions := w.ui.sessions - {key}), jobs := w.jobs - {job})
  {
  }

  /** A session that is done with a capture or an action is idle again if nothing is queued; otherwise the first queued
      action leaves the queue and is dispatched. */
  ghost predicate GoesOn(w: World, now: World, job: nat, key: PortalKey, id: PortalId)
    requires key in w.ui.sessions
  {
    var live := w.ui.sessions[key];
    if live.pending == [] then
      now == w.(ui := now.ui, jobs := w.jobs - {job})
      && now.ui.sessions == w.ui.sessions[key := live.(phase := Connected(id, false))]
    else
      now == w.(ui := now.ui, next := w.next + 1,
                jobs := (w.jobs - {job})[w.next := Working(Act(key, id, live.pending[0]))],
                log := w.log[id := LogOf(w.log, id) + [Dispatched(live.pending[0])]])
      && now.ui.sessions == w.ui.sessions[key := LivePortal(live.config, Connected(id, true), live.pending[1..])]
  }

  lemma IdleGoesOn(w: World, ui: Ui, job: nat, key: PortalKey, id: PortalId)
    requires key in w.ui.sessions && ui.sessions == w.ui.sessions
    ensures var now := Handled(Finished(w, job), AfterIdle(ui, key, id));
            GoesOn(w, now, job, key, id) && now.ui == ui.(sessions := now.ui.sessions)
  {
    var pending := w.ui.sessions[key].pending;
    if pending != [] {
      assert AfterIdle(ui, key, id).ui.sessions
          == w.ui.sessions[key := LivePortal(w.ui.sessions[key].config, Connected(id, true), pending[1..])];
      SpawnOne(Finished(w, job).(ui := AfterIdle(ui, key, id).ui), Act(key, id, pending[0]));
    }
  }

  /** A captured frame of the session connected under its id is shown, and the session goes on. */
  lemma FrameIsShown(w: World, job: nat, key: PortalKey, id: PortalId, frame: Option<Frame>)
    requires job in w.jobs && w.jobs[job] == Working(Capture(key, id))
    requires key in w.ui.sessions && w.ui.sessions[key].phase.Connected? && w.ui.sessions[key].phase.id == id
    requires w.active.Some? && w.active.value.id == key.workspace
    ensures var now := Step(w, DeliverFrame(job, Ok(frame)));
            && GoesOn(w, now, job, key, id)
            && now.ui == w.ui.(sessions := now.ui.sessions,
                               frames := if frame.Some? then w.ui.frames[key.node := frame.value] else w.ui.frames)
  {
    IdleGoesOn(w, if frame.None? then w.ui else w.ui.(frames := w.ui.frames[key.node := frame.value]), job, key, id);
  }

  /** A capture that failed, or came back to a workspace that was left, ends its session. */
  lemma FailedFrameCloses(w: World, job: nat, key: PortalKey, id: PortalId, frame: Result<Option<Frame>, ()>)
    requires job in w.jobs && w.jobs[job] == Working(Capture(key, id))
    requires key in w.ui.sessions && w.ui.sessions[key].phase.Connected? && w.ui.sessions[key].phase.id == id
    requires frame.Err? || w.active.None? || w.active.value.id != key.workspace
    ensures var closing := w.ui.sessions[key].(phase := Disconnecting(id));
            Step(w, DeliverFrame(job, frame))
            == w.(ui := w.ui.(sessions := w.ui.sessions[key := closing]), next := w.next + 1,
                  jobs := (w.jobs - {job})[w.next := Working(Unregister(key, id))],
                  released := w.released + multiset{id})
  {
    BeginDisconnectCloses(Finished(w, job), key);
  }

  /** After an action that succeeded the session goes on, after one that failed it is idle with nothing queued. */
  lemma ActionGoesOn(w: World, job: nat, key: PortalKey, id: PortalId, action: Action, succeeded: bool)
    requires job in w.jobs && w.jobs[job] == Working(Act(key, id, action))
    requires key in w.ui.sessions && w.ui.sessions[key].phase.Connected? && w.ui.sessions[key].phase.id == id
    ensures var now := Step(w, DeliverAction(job, succeeded));
            if succeeded then GoesOn(w, now, job, key, id) && now.ui == w.ui.(sessions := now.ui.sessions)
            else
              var idle := LivePortal(w.ui.sessions[key].config, Connected(id, false), []);
              now == w.(ui := w.ui.(sessions := w.ui.sessions[key := idle]), jobs := w.jobs - {job},
                        log := w.log[id := LogOf(w.log, id) + [Failed]])
  {
    if succeeded {
      IdleGoesOn(w, w.ui, job, key, id);
    }
  }

  /** Once its id is unregistered a session is gone, and its frame and focus with it if its workspace is active. */
  lemma UnregisteredIsGone(w: World, job: nat, key: PortalKey, id: PortalId)
    requires job in w.jobs && w.jobs[job] == Working(Unregister(key, id))
    requires key in w.ui.sessions && w.ui.sessions[key].phase == Disconnecting(id)
    ensures var shown := w.active.Some? && w.active.value.id == key.workspace;
            var now := Step(w, DeliverDisconnected(job));
            && now == w.(ui := now.ui, jobs := w.jobs - {job})
            && now.ui == w.ui.(sessions := w.ui.sessions - {key},
                               frames := if shown then w.ui.frames - {key.node} else w.ui.frames,
                               focused := if shown && w.ui.focused == Some(key.node) then None else w.ui.focused)
  {
  }

  // ----- From a command to its result -----

  /** Connecting a node, registering it and delivering the result leads to a session connected under the id that the
      backend gave out, with the settings of the node, idle, and with the task gone. */
  lemma ConnectingConnects(w: World, node: NodeId, id: PortalId)
    requires w.next !in w.jobs && id !in w.registered
    requires w.active.Some? && node in w.active.value.portals
    requires PortalKey(w.active.value.id, node) !in w.ui.sessions
    ensures var job, key := w.next, PortalKey(w.active.value.id, node);
            var now := Run(w, [UserConnect(node), Register(job, id), Event.Establish(job), DeliverConnected(job)]);
            var live := LivePortal(w.active.value.portals[node], Connected(id, false), []);
            now == w.(ui := w.ui.(sessions := w.ui.sessions[key := live]), next := w.next + 1,
                      registered := w.registered + {id})
  {
    var job, key := w.next, PortalKey(w.active.value.id, node);
    var established := Step(Step(Step(w, UserConnect(node)), Register(job, id)), Event.Establish(job));
    ConnectionIsEstablished(w, node, id);
    DeliveryAdmitsIffCurrent(established, job, key, id);
    assert established.jobs - {job} == w.jobs;
    RunFour(w, UserConnect(node), Register(job, id), Event.Establish(job), DeliverConnected(job));
  }

  lemma ConnectionIsEstablished(w: World, node: NodeId, id: PortalId)
    requires w.next !in w.jobs && id !in w.registered
    requires w.active.Some? && node in w.active.value.portals
    requires PortalKey(w.active.value.id, node) !in w.ui.sessions
    ensures var job, key := w.next, PortalKey(w.active.value.id, node);
            var waiting := LivePortal(w.active.value.portals[node], Connecting, []);
            Step(Step(Step(w, UserConnect(node)), Register(job, id)), Event.Establish(job))
            == w.(ui := w.ui.(sessions := w.ui.sessions[key := waiting]), next := w.next + 1,
                  jobs := w.jobs[job := ConnectDone(key, Some(id))], registered := w.registered + {id})
  {
    var job, key := w.next, PortalKey(w.active.value.id, node);
    ConnectOpens(w, node);
    var registered := Step(Step(w, UserConnect(node)), Register(job, id));
    assert registered.jobs == w.jobs[job := Registered(key, id)];
  }

  lemma RunOn(w: World, e: Event, events: seq<Event>)
    ensures Run(w, [e] + events) == Run(Step(w, e), events)
  {
    assert ([e] + events)[1..] == events;
  }

  lemma RunTwo(w: World, a: Event, b: Event)
    ensures Run(w, [a, b]) == Step(Step(w, a), b)
  {
    RunOn(w, a, [b]);
    RunOn(Step(w, a), b, []);
  }

  lemma RunFour(w: World, a: Event, b: Event, c: Event, d: Event)
    ensures Run(w, [a, b, c, d]) == Step(Step(Step(Step(w, a), b), c), d)
  {
    RunOn(w, a, [b, c, d]);
    RunOn(Step(w, a), b, [c, d]);
    RunTwo(Step(Step(w, a), b), c, d);
    assert [a] + [b, c, d] == [a, b, c, d] && [b] + [c, d] == [b, c, d];
  }

  /** Disconnecting and delivering the result takes the session away, with its frame and focus, and releases its id. */
  lemma DisconnectingRemoves(w: World, node: NodeId)
    requires w.next !in w.jobs && w.active.Some?
    requires PortalKey(w.active.value.id, node) in w.ui.sessions
    requires w.ui.sessions[PortalKey(w.active.value.id, node)].phase.Connected?
    ensures var key := PortalKey(w.active.value.id, node);
            var now := Run(w, [UserDisconnect(node), DeliverDisconnected(w.next)]);
            && now.ui == w.ui.(sessions := w.ui.sessions - {key}, frames := w.ui.frames - {node},
                               focused := if w.ui.focused == Some(node) then None else w.ui.focused)
            && now == w.(ui := now.ui, next := w.next + 1,
                         released := w.released + multiset{w.ui.sessions[key].phase.id})
  {
    var job, key := w.next, PortalKey(w.active.value.id, node);
    var id := w.ui.sessions[key].phase.id;
    var closing := Step(w, UserDisconnect(node));
    DisconnectCloses(w, node);
    UnregisteredIsGone(closing, job, key, id);
    assert closing.ui.sessions - {key} == w.ui.sessions - {key};
    assert closing.jobs - {job} == w.jobs;
    RunTwo(w, UserDisconnect(node), DeliverDisconnected(job));
  }
}
