/** What holds in every run of the portal protocol, from its start and over any interleaving of handlers, ticks,
    workspace changes and background tasks. */
module PortalSafety {
  import opened Wrappers
  import opened PortalMoves
  import opened PortalProtocol
  import opened PortalUi

  predicate IsStart(w: World) {
    && w.ui.sessions == map[] && w.jobs == map[] && w.registered == {} && w.released == multiset{} && w.log == map[]
  }

  lemma StartIsSafe(w: World)
    requires IsStart(w)
    ensures Safe(CoreOf(w), Roles(map[], map[], map[], map[]))
  {
  }

  lemma {:induction false} MovesKeepSafe(c: Core, moves: seq<Made>, now: Core, r: Roles) returns (after: Roles)
    requires Safe(c, r) && Leads(c, moves, now)
    ensures Safe(now, after)
    decreases moves
  {
    after := r;
    if moves != [] {
      var made := moves[0];
      MoveKeepsSafe(c, made.move, made.key, made.id, r);
      after := MovesKeepSafe(Do(c, made.move, made.key, made.id), moves[1..], now,
                             RolesAfter(c, made.move, made.key, made.id, r));
    }
  }

  lemma {:induction false} RunKeepsSafe(w: World, events: seq<Event>, r: Roles) returns (after: Roles)
    requires Safe(CoreOf(w), r)
    ensures Safe(CoreOf(Run(w, events)), after)
    decreases events
  {
    after := r;
    if events != [] {
      var moves := StepIsMoves(w, events[0], r.connector);
      after := MovesKeepSafe(CoreOf(w), moves, CoreOf(Step(w, events[0])), r);
      after := RunKeepsSafe(Step(w, events[0]), events[1..], after);
    }
  }

  lemma EveryRunIsSafe(w: World, events: seq<Event>) returns (r: Roles)
    requires IsStart(w)
    ensures Safe(CoreOf(Run(w, events)), r)
  {
    StartIsSafe(w);
    r := RunKeepsSafe(w, events, Roles(map[], map[], map[], map[]));
  }

  // ----- No id leaks, none is unregistered twice -----

  predicate TaskHolds(c: Core, job: nat, id: PortalId) {
    job in c.jobs && JobId(c.jobs[job]) == Some(id)
  }

  ghost predicate IsHeldByTask(c: Core, id: PortalId) {
    exists job :: TaskHolds(c, job, id)
  }

  ghost predicate IsHeldBySession(c: Core, id: PortalId) {
    exists key :: IsConnectedAs(c, key, id)
  }

  /** Every id that the backend has registered is in the hands of exactly one task that is still connecting, or of
      exactly one connected session, or has exactly one unregister scheduled; no other id has any of these. */
  lemma RegisteredIdsAreOwnedOnce(w: World, events: seq<Event>, id: PortalId)
    requires IsStart(w)
    ensures var c := CoreOf(Run(w, events));
            && c.released[id] <= 1
            && (id in c.registered <==> IsHeldByTask(c, id) || IsHeldBySession(c, id) || c.released[id] == 1)
            && !(IsHeldByTask(c, id) && IsHeldBySession(c, id))
            && (IsHeldByTask(c, id) || IsHeldBySession(c, id) ==> c.released[id] == 0)
            && (forall job, other :: TaskHolds(c, job, id) && TaskHolds(c, other, id) ==> job == other)
            && (forall key, other :: IsConnectedAs(c, key, id) && IsConnectedAs(c, other, id) ==> key == other)
  {
    var r := EveryRunIsSafe(w, events);
    OwnerIsUnique(CoreOf(Run(w, events)), r.owner, id);
  }

  lemma OwnerIsUnique(c: Core, owner: map<PortalId, Owner>, id: PortalId)
    requires Owned(c, owner)
    ensures c.released[id] <= 1
    ensures id in c.registered <==> IsHeldByTask(c, id) || IsHeldBySession(c, id) || c.released[id] == 1
    ensures !(IsHeldByTask(c, id) && IsHeldBySession(c, id))
    ensures IsHeldByTask(c, id) || IsHeldBySession(c, id) ==> c.released[id] == 0
    ensures forall job, other :: TaskHolds(c, job, id) && TaskHolds(c, other, id) ==> job == other
    ensures forall key, other :: IsConnectedAs(c, key, id) && IsConnectedAs(c, other, id) ==> key == other
  {
    forall job | TaskHolds(c, job, id)
      ensures IsOwnedBy(owner, id, ByJob(job))
    {
    }
    forall key | IsConnectedAs(c, key, id)
      ensures IsOwnedBy(owner, id, BySession(key))
    {
    }
    if id in owner {
      assert Holds(c, id, owner[id]);
      match owner[id]
      case ByJob(job) => assert TaskHolds(c, job, id);
      case BySession(key) => assert IsConnectedAs(c, key, id);
      case Retired =>
    } else {
      assert c.released[id] == 0;
    }
  }

  // ----- One operation at a time, actions in order -----

  ghost predicate IsOperating(c: Core, id: PortalId) {
    exists job :: OperatesFor(c, job, id)
  }

  predicate OperatesFor(c: Core, job: nat, id: PortalId) {
    job in c.jobs && OperatesOn(c.jobs[job]) == Some(id)
  }

  /** A connected session has at most one capture or action under way, and it is busy exactly while it has one; what
      it has queued is what is left of the actions accepted for it, in their order, and nothing when it is idle. */
  lemma OperationsAreSerial(w: World, events: seq<Event>, key: PortalKey, id: PortalId)
    requires IsStart(w) && IsConnectedAs(CoreOf(Run(w, events)), key, id)
    ensures var c := CoreOf(Run(w, events));
            && (IsBusy(c, key) <==> IsOperating(c, id))
            && (forall job, other :: OperatesFor(c, job, id) && OperatesFor(c, other, id) ==> job == other)
            && (!IsBusy(c, key) ==> c.sessions[key].pending == [])
            && Replay(LogOf(c.log, id)) == Some(c.sessions[key].pending)
  {
    var r := EveryRunIsSafe(w, events);
    var c := CoreOf(Run(w, events));
    if id in r.worker {
      assert OperatesFor(c, r.worker[id], id);
    }
  }

  /** No action of any portal is ever dispatched out of the order in which it was accepted, and none is passed over
      except those that a failed action swept away. */
  lemma ActionsKeepTheirOrder(w: World, events: seq<Event>, id: PortalId)
    requires IsStart(w)
    ensures Replay(LogOf(Run(w, events).log, id)).Some?
  {
    var r := EveryRunIsSafe(w, events);
    assert id in Run(w, events).log ==> Replay(Run(w, events).log[id]).Some?;
  }

  /** A session that is connecting has exactly one task that will bring its result, and one that is disconnecting has
      a task that will end it. */
  lemma NoSessionIsForgotten(w: World, events: seq<Event>, key: PortalKey)
    requires IsStart(w) && key in Run(w, events).ui.sessions
    ensures var c := CoreOf(Run(w, events));
            var phase := c.sessions[key].phase;
            && (phase.Connecting? ==> exists job :: ConnectsKey(c, job, key))
            && (forall job, other :: ConnectsKey(c, job, key) && ConnectsKey(c, other, key) ==> job == other)
            && (forall job :: ConnectsKey(c, job, key) ==> phase.Connecting?)
            && (phase.Disconnecting? ==> exists job :: Unregisters(c, job, key, phase.id))
  {
    var r := EveryRunIsSafe(w, events);
    var c := CoreOf(Run(w, events));
    if c.sessions[key].phase.Connecting? {
      assert ConnectsKey(c, r.connector[key], key);
    }
    if c.sessions[key].phase.Disconnecting? {
      assert Unregisters(c, r.closer[key], key, c.sessions[key].phase.id);
    }
  }

  predicate ConnectsKey(c: Core, job: nat, key: PortalKey) {
    job in c.jobs && ConnectKey(c.jobs[job]) == Some(key)
  }

  predicate Unregisters(c: Core, job: nat, key: PortalKey, id: PortalId) {
    job in c.jobs && c.jobs[job] == Working(Unregister(key, id))
  }

  // ----- Late messages -----

  /** The delivery of a capture, an action or an unregister. */
  predicate Delivers(w: World, e: Event, key: PortalKey, id: PortalId) {
    match e
    case DeliverFrame(job, _) => HasTask(w, job) && w.jobs[job].task == Capture(key, id)
    case DeliverAction(job, _) => HasTask(w, job) && w.jobs[job].task.Act? && IsOperation(w.jobs[job].task, key, id)
    case DeliverDisconnected(job) => HasTask(w, job) && w.jobs[job].task == Unregister(key, id)
    case _ => false
  }

  /** What a message about an old id finds: no session, or one that is connecting or under another id. */
  predicate IsLate(w: World, key: PortalKey, id: PortalId) {
    key in w.ui.sessions ==> w.ui.sessions[key].phase.Connecting? || w.ui.sessions[key].phase.id != id
  }

  /** A message about an old id changes no session, no frame and no focus, and starts nothing. */
  lemma LateMessagesChangeNothing(w: World, e: Event, key: PortalKey, id: PortalId)
    requires Delivers(w, e, key, id) && IsLate(w, key, id)
    ensures Step(w, e).ui == w.ui
    ensures Step(w, e) == w.(jobs := Step(w, e).jobs) && Step(w, e).jobs.Keys < w.jobs.Keys
  {
    assert Step(w, e).jobs.Keys == w.jobs.Keys - {e.job};
    assert e.job in w.jobs.Keys;
  }

  /** A message keeps all sessions but the one of its own key and id. */
  predicate KeepsSession(w: World, e: Event, key: PortalKey) {
    && key in w.ui.sessions && key in Step(w, e).ui.sessions
    && Step(w, e).ui.sessions[key] == w.ui.sessions[key]
  }

  lemma DisconnectedReachesItsOwn(w: World, e: Event, key: PortalKey, id: PortalId, other: PortalKey)
    requires Delivers(w, e, key, id) && e.DeliverDisconnected?
    requires other in w.ui.sessions && !KeepsSession(w, e, other)
    ensures other == key && w.ui.sessions[key].phase == Disconnecting(id)
  {
  }

  lemma OperationReachesItsOwn(w: World, e: Event, key: PortalKey, id: PortalId, other: PortalKey)
    requires Delivers(w, e, key, id) && !e.DeliverDisconnected?
    requires other in w.ui.sessions && !KeepsSession(w, e, other)
    ensures other == key && IsConnected(w.ui, key, id)
  {
    var outcome := if e.DeliverFrame? then AfterFrame(w.ui, w.active, key, id, e.frame)
                   else AfterAction(w.ui, key, id, e.succeeded);
    SpawnKeepsUi(Finished(w, e.job).(ui := outcome.ui), outcome.tasks, outcome.ui);
    var noted := Noted(w, id, Failed);
    SpawnKeepsUi(Finished(noted, e.job).(ui := outcome.ui), outcome.tasks, outcome.ui);
    assert Step(w, e).ui == outcome.ui;
  }

  /** In every run: the message that an id was unregistered changes no session but the one that was disconnecting
      under that id, and a message about a capture or an action none but the one that was connected under its id and
      busy with it. In particular a newer session at the same key is never touched. */
  lemma MessagesReachTheirOwnSession(w: World, events: seq<Event>, e: Event, key: PortalKey, id: PortalId,
                                     other: PortalKey)
    requires IsStart(w) && Delivers(Run(w, events), e, key, id)
    requires other in Run(w, events).ui.sessions && !KeepsSession(Run(w, events), e, other)
    ensures other == key
    ensures Run(w, events).ui.sessions[key].phase
         == if e.DeliverDisconnected? then Disconnecting(id) else Connected(id, true)
    ensures e.DeliverDisconnected? ==> Run(w, events).released[id] == 1
  {
    var now := Run(w, events);
    if e.DeliverDisconnected? {
      DisconnectedReachesItsOwn(now, e, key, id, other);
      var r := EveryRunIsSafe(w, events);
      assert IsOwnedBy(r.owner, id, Retired);
    } else {
      OperationReachesItsOwn(now, e, key, id, other);
      OperationsAreSerial(w, events, key, id);
      assert OperatesFor(CoreOf(now), e.job, id);
    }
  }

  // ----- Stale sessions -----

  /** The session is connected although its node has gone or changed. */
  predicate IsStray(ui: Ui, active: Active, key: PortalKey) {
    key in ui.sessions && ui.sessions[key].phase.Connected? && IsStale(ui, active, key)
  }

  lemma {:induction false} TickLeavesNoStray(ui: Ui, active: Active, keys: seq<PortalKey>, key: PortalKey)
    ensures IsStray(AfterTickOfAll(ui, active, keys).ui, active, key) ==> IsStray(ui, active, key) && key !in keys
    decreases keys
  {
    if keys != [] {
      TickLeavesNoStray(AfterTickOf(ui, active, keys[0]).ui, active, keys[1..], key);
    }
  }

  /** After a tick every connected session belongs to a visible portal node with the settings it was connected with. */
  lemma TickDisconnectsStrays(w: World, key: PortalKey)
    ensures !IsStray(Step(w, TickAll).ui, w.active, key)
  {
    var started := w.ui.(tick := WrappingIncrement(w.ui.tick));
    TickLeavesNoStray(started, w.active, KeysInOrder(w.ui.sessions.Keys), key);
    var outcome := AfterTick(w.ui, w.active);
    SpawnKeepsUi(w.(ui := outcome.ui), outcome.tasks, outcome.ui);
  }
}
