/** Runs of the portal protocol: user commands, ticks and changes of the workspace interleave with the background
    tasks that register, capture, act and unregister, each delivered back at any later time. */
module PortalProtocol {
  import opened Wrappers
  import opened PortalMoves
  import opened PortalUi

  /** The user interface, the active workspace, and what the interface shares with the tasks. */
  datatype World = World(ui: Ui, active: Active, next: nat, jobs: map<nat, Job>, registered: set<PortalId>,
                         released: multiset<PortalId>, log: map<PortalId, seq<Entry>>)

  function CoreOf(w: World): Core {
    Core(w.ui.sessions, w.next, w.jobs, w.registered, w.released, w.log)
  }

  datatype Event =
    | Environment(active: Active)
    | UserConnect(node: NodeId)
    | UserDisconnect(node: NodeId)
    | UserExecute(node: NodeId, action: Action)
    | TickAll
    | Register(job: nat, id: PortalId)
    | Establish(job: nat)
    | Abort(job: nat)
    | DeliverConnected(job: nat)
    | DeliverFrame(job: nat, frame: Result<Option<Frame>, ()>)
    | DeliverAction(job: nat, succeeded: bool)
    | DeliverDisconnected(job: nat)

  // ----- Steps -----

  function Noted(w: World, id: PortalId, entry: Entry): World {
    w.(log := Note(w.log, id, [entry]))
  }

  /** Starting a task; an unregister counts from here, and an action leaves the queue here. */
  function Spawn(w: World, task: Task): World {
    var started := w.(next := w.next + 1, jobs := w.jobs[w.next := Working(task)]);
    match task
    case Unregister(_, id) => started.(released := started.released + multiset{id})
    case Act(_, id, action) => Noted(started, id, Dispatched(action))
    case _ => started
  }

  function SpawnAll(w: World, tasks: seq<Task>): World
    decreases tasks
  {
    if tasks == [] then w else SpawnAll(Spawn(w, tasks[0]), tasks[1..])
  }

  /** A handler ran. */
  function Handled(w: World, outcome: Outcome): World {
    SpawnAll(w.(ui := outcome.ui), outcome.tasks)
  }

  predicate HasTask(w: World, job: nat) {
    job in w.jobs && w.jobs[job].Working?
  }

  function Finished(w: World, job: nat): World {
    w.(jobs := w.jobs - {job})
  }

  /** Whether `execute` takes the action: the session has to be connected. */
  predicate Accepts(w: World, node: NodeId) {
    && w.active.Some?
    && var key := PortalKey(w.active.value.id, node);
       key in w.ui.sessions && w.ui.sessions[key].phase.Connected?
  }

  function Step(w: World, e: Event): World {
    match e
    case Environment(active) => w.(active := active)
    case UserConnect(node) => Handled(w, AfterConnect(w.ui, w.active, node))
    case UserDisconnect(node) => Handled(w, AfterDisconnect(w.ui, w.active, node))
    case UserExecute(node, action) =>
      if !Accepts(w, node) then w
      else
        var id := w.ui.sessions[PortalKey(w.active.value.id, node)].phase.id;
        Handled(Noted(w, id, Accepted(action)), AfterExecute(w.ui, w.active, node, action))
    case TickAll => Handled(w, AfterTick(w.ui, w.active))
    case Register(job, id) =>
      if !HasTask(w, job) || !w.jobs[job].task.Connect? || id in w.registered then w
      else w.(registered := w.registered + {id}, jobs := w.jobs[job := Registered(w.jobs[job].task.key, id)])
    case Establish(job) =>
      if job !in w.jobs || !w.jobs[job].Registered? then w
      else w.(jobs := w.jobs[job := ConnectDone(w.jobs[job].key, Some(w.jobs[job].id))])
    case Abort(job) =>
      if HasTask(w, job) && w.jobs[job].task.Connect? then
        w.(jobs := w.jobs[job := ConnectDone(w.jobs[job].task.key, None)])
      else if job in w.jobs && w.jobs[job].Registered? then
        w.(jobs := w.jobs[job := ConnectDone(w.jobs[job].key, None)], released := w.released + multiset{w.jobs[job].id})
      else w
    case DeliverConnected(job) =>
      if job !in w.jobs || !w.jobs[job].ConnectDone? then w
      else Handled(Finished(w, job), AfterConnected(w.ui, w.active, w.jobs[job].key, w.jobs[job].result))
    case DeliverFrame(job, frame) =>
      if !HasTask(w, job) || !w.jobs[job].task.Capture? then w
      else Handled(Finished(w, job), AfterFrame(w.ui, w.active, w.jobs[job].task.key, w.jobs[job].task.id, frame))
    case DeliverAction(job, succeeded) =>
      if !HasTask(w, job) || !w.jobs[job].task.Act? then w
      else
        var task := w.jobs[job].task;
        var noted := if IsConnected(w.ui, task.key, task.id) && !succeeded then Noted(w, task.id, Failed) else w;
        Handled(Finished(noted, job), AfterAction(w.ui, task.key, task.id, succeeded))
    case DeliverDisconnected(job) =>
      if !HasTask(w, job) || !w.jobs[job].task.Unregister? then w
      else Handled(Finished(w, job), AfterDisconnected(w.ui, w.active, w.jobs[job].task.key, w.jobs[job].task.id))
  }

  function Run(w: World, events: seq<Event>): World
    decreases events
  {
    if events == [] then w else Run(Step(w, events[0]), events[1..])
  }

  // ----- Every step is made of moves -----

  datatype Made = Made(move: Move, key: PortalKey, id: PortalId)

  /** The moves can be made one after the other, and lead from one state to the other. */
  ghost predicate Leads(c: Core, moves: seq<Made>, now: Core)
    decreases moves
  {
    if moves == [] then c == now
    else
      && Enabled(c, moves[0].move, moves[0].key, moves[0].id)
      && Leads(Do(c, moves[0].move, moves[0].key, moves[0].id), moves[1..], now)
  }

  lemma {:induction false} LeadsOn(c: Core, moves: seq<Made>, middle: Core, more: seq<Made>, now: Core)
    requires Leads(c, moves, middle) && Leads(middle, more, now)
    ensures Leads(c, moves + more, now)
    decreases moves
  {
    if moves == [] {
      assert moves + more == more;
    } else {
      var made := moves[0];
      LeadsOn(Do(c, made.move, made.key, made.id), moves[1..], middle, more, now);
      assert (moves + more)[1..] == moves[1..] + more;
    }
  }

  lemma LeadsByOne(c: Core, move: Move, key: PortalKey, id: PortalId) returns (moves: seq<Made>)
    requires Enabled(c, move, key, id)
    ensures Leads(c, moves, Do(c, move, key, id))
  {
    moves := [Made(move, key, id)];
    assert moves[1..] == [];
  }

  lemma LeadsByTwo(c: Core, first: Move, second: Move, key: PortalKey, id: PortalId) returns (moves: seq<Made>)
    requires Enabled(c, first, key, id) && Enabled(Do(c, first, key, id), second, key, id)
    ensures Leads(c, moves, Do(Do(c, first, key, id), second, key, id))
  {
    var middle := Do(c, first, key, id);
    var more := LeadsByOne(middle, second, key, id);
    moves := LeadsByOne(c, first, key, id);
    LeadsOn(c, moves, middle, more, Do(middle, second, key, id));
    moves := moves + more;
  }

  lemma SpawnOne(w: World, task: Task)
    ensures SpawnAll(w, [task]) == Spawn(w, task)
  {
    assert [task][1..] == [];
  }

  lemma {:induction false} SpawnMore(w: World, tasks: seq<Task>, more: seq<Task>)
    ensures SpawnAll(w, tasks + more) == SpawnAll(SpawnAll(w, tasks), more)
    decreases tasks
  {
    if tasks == [] {
      assert tasks + more == more;
    } else {
      SpawnMore(Spawn(w, tasks[0]), tasks[1..], more);
      assert (tasks + more)[1..] == tasks[1..] + more;
    }
  }

  lemma ConnectIsMove(w: World, node: NodeId) returns (moves: seq<Made>)
    ensures Leads(CoreOf(w), moves, CoreOf(Step(w, UserConnect(node))))
  {
    moves := [];
    if AfterConnect(w.ui, w.active, node).tasks != [] {
      var key, config := PortalKey(w.active.value.id, node), w.active.value.portals[node];
      SpawnOne(w.(ui := AfterConnect(w.ui, w.active, node).ui), Connect(key, config));
      moves := LeadsByOne(CoreOf(w), Open(config), key, 0);
    }
  }

  lemma BeginDisconnectIsMove(w: World, key: PortalKey) returns (moves: seq<Made>)
    ensures Leads(CoreOf(w), moves, CoreOf(Handled(w, AfterBeginDisconnect(w.ui, key))))
  {
    moves := [];
    if key in w.ui.sessions && w.ui.sessions[key].phase.Connected? {
      var id := w.ui.sessions[key].phase.id;
      SpawnOne(w.(ui := AfterBeginDisconnect(w.ui, key).ui), Unregister(key, id));
      moves := LeadsByOne(CoreOf(w), Close, key, id);
    }
  }

  lemma ExecuteIsMove(w: World, node: NodeId, action: Action) returns (moves: seq<Made>)
    ensures Leads(CoreOf(w), moves, CoreOf(Step(w, UserExecute(node, action))))
  {
    moves := [];
    if Accepts(w, node) {
      var key := PortalKey(w.active.value.id, node);
      var id := w.ui.sessions[key].phase.id;
      var move := if w.ui.sessions[key].phase.busy then Enqueue(action) else Begin(Act(key, id, action));
      if move.Begin? {
        SpawnOne(Noted(w, id, Accepted(action)).(ui := AfterExecute(w.ui, w.active, node, action).ui),
                 Act(key, id, action));
        assert LogOf(w.log, id) + [Accepted(action)] + [Dispatched(action)]
            == LogOf(w.log, id) + [Accepted(action), Dispatched(action)];
        assert Step(w, UserExecute(node, action)).log == Note(w.log, id, [Accepted(action), Dispatched(action)]);
      }
      moves := LeadsByOne(CoreOf(w), move, key, id);
    }
  }

  lemma TickOfIsMove(w: World, key: PortalKey) returns (moves: seq<Made>)
    ensures Leads(CoreOf(w), moves, CoreOf(Handled(w, AfterTickOf(w.ui, w.active, key))))
  {
    moves := [];
    if key in w.ui.sessions && IsStale(w.ui, w.active, key) {
      moves := BeginDisconnectIsMove(w, key);
    } else if AfterTickOf(w.ui, w.active, key).tasks != [] {
      var id := w.ui.sessions[key].phase.id;
      SpawnOne(w.(ui := AfterTickOf(w.ui, w.active, key).ui), Capture(key, id));
      moves := LeadsByOne(CoreOf(w), Begin(Capture(key, id)), key, id);
    }
  }

  lemma {:induction false} TickIsMoves(w: World, keys: seq<PortalKey>) returns (moves: seq<Made>)
    ensures Leads(CoreOf(w), moves, CoreOf(Handled(w, AfterTickOfAll(w.ui, w.active, keys))))
    decreases keys
  {
    moves := [];
    if keys != [] {
      var first := AfterTickOf(w.ui, w.active, keys[0]);
      var middle := Handled(w, first);
      moves := TickOfIsMove(w, keys[0]);
      var more := TickIsMoves(middle, keys[1..]);
      TickGoesOn(w, keys);
      LeadsOn(CoreOf(w), moves, CoreOf(middle), more, CoreOf(Handled(w, AfterTickOfAll(w.ui, w.active, keys))));
      moves := moves + more;
    }
  }

  lemma {:induction false} SpawnKeepsUi(w: World, tasks: seq<Task>, ui: Ui)
    ensures SpawnAll(w, tasks).ui == w.ui && SpawnAll(w, tasks).active == w.active
    ensures SpawnAll(w.(ui := ui), tasks) == SpawnAll(w, tasks).(ui := ui)
    decreases tasks
  {
    if tasks != [] {
      SpawnKeepsUi(Spawn(w, tasks[0]), tasks[1..], ui);
    }
  }

  /** A tick can be handled one session at a time. */
  lemma TickGoesOn(w: World, keys: seq<PortalKey>)
    requires keys != []
    ensures var middle := Handled(w, AfterTickOf(w.ui, w.active, keys[0]));
            Handled(w, AfterTickOfAll(w.ui, w.active, keys))
            == Handled(middle, AfterTickOfAll(middle.ui, middle.active, keys[1..]))
  {
    var first := AfterTickOf(w.ui, w.active, keys[0]);
    var rest := AfterTickOfAll(first.ui, w.active, keys[1..]);
    SpawnMore(w.(ui := rest.ui), first.tasks, rest.tasks);
    SpawnKeepsUi(w.(ui := first.ui), first.tasks, rest.ui);
  }

  lemma RegisterIsMove(w: World, job: nat, id: PortalId) returns (moves: seq<Made>)
    ensures Leads(CoreOf(w), moves, CoreOf(Step(w, Register(job, id))))
  {
    moves := [];
    if HasTask(w, job) && w.jobs[job].task.Connect? && id !in w.registered {
      moves := LeadsByOne(CoreOf(w), Enlist(job), w.jobs[job].task.key, id);
    }
  }

  lemma EstablishIsMove(w: World, job: nat) returns (moves: seq<Made>)
    ensures Leads(CoreOf(w), moves, CoreOf(Step(w, Event.Establish(job))))
  {
    moves := [];
    if job in w.jobs && w.jobs[job].Registered? {
      moves := LeadsByOne(CoreOf(w), Move.Establish(job), w.jobs[job].key, w.jobs[job].id);
    }
  }

  lemma AbortIsMove(w: World, job: nat) returns (moves: seq<Made>)
    ensures Leads(CoreOf(w), moves, CoreOf(Step(w, Event.Abort(job))))
  {
    moves := [];
    if HasTask(w, job) && w.jobs[job].task.Connect? {
      moves := LeadsByOne(CoreOf(w), Move.Abort(job), w.jobs[job].task.key, 0);
    } else if job in w.jobs && w.jobs[job].Registered? {
      moves := LeadsByOne(CoreOf(w), AbortLate(job), w.jobs[job].key, w.jobs[job].id);
    }
  }

  /** A result of connecting always finds its session waiting for it. */
  lemma ResultFindsItsSession(w: World, job: nat, connector: map<PortalKey, nat>)
    requires Pairs(CoreOf(w), connector) && job in w.jobs && w.jobs[job].ConnectDone?
    ensures w.jobs[job].key in w.ui.sessions && w.ui.sessions[w.jobs[job].key].phase.Connecting?
  {
    assert ConnectKey(w.jobs[job]) == Some(w.jobs[job].key);
  }

  lemma FailureIsMove(w: World, job: nat, key: PortalKey) returns (moves: seq<Made>)
    requires job in w.jobs && w.jobs[job] == ConnectDone(key, None)
    requires key in w.ui.sessions && w.ui.sessions[key].phase.Connecting?
    ensures Leads(CoreOf(w), moves, CoreOf(Step(w, DeliverConnected(job))))
  {
    moves := LeadsByOne(CoreOf(w), Forget(job), key, 0);
  }

  lemma AdmissionIsMove(w: World, job: nat, key: PortalKey, id: PortalId) returns (moves: seq<Made>)
    requires job in w.jobs && w.jobs[job] == ConnectDone(key, Some(id))
    requires key in w.ui.sessions && w.ui.sessions[key].phase.Connecting? && ConfigIsActive(w.ui, w.active, key)
    ensures Leads(CoreOf(w), moves, CoreOf(Step(w, DeliverConnected(job))))
  {
    moves := LeadsByOne(CoreOf(w), Admit(job), key, id);
  }

  /** Turning a connection away removes its session and its task, and starts one unregister. */
  lemma TurnAwayIsSpawn(w: World, job: nat, key: PortalKey, id: PortalId)
    requires Enabled(CoreOf(w), TurnAway(job), key, id)
    ensures var removed := Finished(w, job).(ui := w.ui.(sessions := w.ui.sessions - {key}));
            CoreOf(Spawn(removed, Unregister(key, id))) == Do(CoreOf(w), TurnAway(job), key, id)
  {
  }

  lemma TurningAwayIsMove(w: World, job: nat, key: PortalKey, id: PortalId) returns (moves: seq<Made>)
    requires job in w.jobs && w.jobs[job] == ConnectDone(key, Some(id))
    requires key in w.ui.sessions && w.ui.sessions[key].phase.Connecting? && !ConfigIsActive(w.ui, w.active, key)
    ensures Leads(CoreOf(w), moves, CoreOf(Step(w, DeliverConnected(job))))
  {
    var removed := Finished(w, job).(ui := w.ui.(sessions := w.ui.sessions - {key}));
    SpawnOne(removed, Unregister(key, id));
    assert Step(w, DeliverConnected(job)) == Spawn(removed, Unregister(key, id));
    TurnAwayIsSpawn(w, job, key, id);
    moves := LeadsByOne(CoreOf(w), TurnAway(job), key, id);
  }

  lemma ConnectedIsMove(w: World, job: nat, key: PortalKey, result: Option<PortalId>) returns (moves: seq<Made>)
    requires job in w.jobs && w.jobs[job] == ConnectDone(key, result)
    requires key in w.ui.sessions && w.ui.sessions[key].phase.Connecting?
    ensures Leads(CoreOf(w), moves, CoreOf(Step(w, DeliverConnected(job))))
  {
    if result.None? {
      moves := FailureIsMove(w, job, key);
    } else if ConfigIsActive(w.ui, w.active, key) {
      moves := AdmissionIsMove(w, job, key, result.value);
    } else {
      moves := TurningAwayIsMove(w, job, key, result.value);
    }
  }

  lemma DisconnectedIsMove(w: World, job: nat) returns (moves: seq<Made>)
    ensures Leads(CoreOf(w), moves, CoreOf(Step(w, DeliverDisconnected(job))))
  {
    moves := [];
    if HasTask(w, job) && w.jobs[job].task.Unregister? {
      var key, id := w.jobs[job].task.key, w.jobs[job].task.id;
      var move := if key in w.ui.sessions && w.ui.sessions[key].phase == Disconnecting(id) then Gone(job) else Discard(job);
      moves := LeadsByOne(CoreOf(w), move, key, id);
    }
  }

  /** The session goes on after its own operation. */
  lemma IdleIsMove(w: World, ui: Ui, job: nat, key: PortalKey, id: PortalId) returns (moves: seq<Made>)
    requires IsOwnOperation(CoreOf(w), job, key, id) && ui.sessions == w.ui.sessions
    ensures Leads(CoreOf(w), moves, CoreOf(Handled(Finished(w, job), AfterIdle(ui, key, id))))
  {
    var pending := w.ui.sessions[key].pending;
    if pending == [] {
      moves := LeadsByOne(CoreOf(w), Idle(job), key, id);
    } else {
      assert AfterIdle(ui, key, id).ui.sessions
          == w.ui.sessions[key := LivePortal(w.ui.sessions[key].config, Connected(id, true), pending[1..])];
      SpawnOne(Finished(w, job).(ui := AfterIdle(ui, key, id).ui), Act(key, id, pending[0]));
      moves := LeadsByOne(CoreOf(w), Next(job), key, id);
    }
  }

  lemma FrameIsMove(w: World, job: nat, frame: Result<Option<Frame>, ()>, connector: map<PortalKey, nat>)
    returns (moves: seq<Made>)
    requires Pairs(CoreOf(w), connector)
    ensures Leads(CoreOf(w), moves, CoreOf(Step(w, DeliverFrame(job, frame))))
  {
    moves := [];
    if HasTask(w, job) && w.jobs[job].task.Capture? {
      var key, id := w.jobs[job].task.key, w.jobs[job].task.id;
      if !IsConnected(w.ui, key, id) {
        moves := LeadsByOne(CoreOf(w), Discard(job), key, id);
      } else if !IsActive(w.active, key) || frame.Err? {
        moves := CloseThenDiscard(w, job, key, id, connector);
      } else {
        var ui := if frame.value.None? then w.ui else w.ui.(frames := w.ui.frames[key.node := frame.value.value]);
        moves := IdleIsMove(w, ui, job, key, id);
      }
    }
  }

  /** Disconnecting on the delivery of an operation is closing the session and then discarding the operation. */
  lemma DisconnectIsCloseAndDiscard(w: World, job: nat, key: PortalKey, id: PortalId)
    requires IsOwnOperation(CoreOf(w), job, key, id) && job < w.next
    ensures var closed := Do(CoreOf(w), Close, key, id);
            && Enabled(closed, Discard(job), key, id)
            && Do(closed, Discard(job), key, id)
               == CoreOf(Handled(Finished(w, job), AfterBeginDisconnect(w.ui, key)))
  {
    var ui := AfterBeginDisconnect(w.ui, key).ui;
    SpawnOne(Finished(w, job).(ui := ui), Unregister(key, id));
    assert (w.jobs - {job})[w.next := Working(Unregister(key, id))]
        == w.jobs[w.next := Working(Unregister(key, id))] - {job};
  }

  lemma CloseThenDiscard(w: World, job: nat, key: PortalKey, id: PortalId, connector: map<PortalKey, nat>)
    returns (moves: seq<Made>)
    requires Pairs(CoreOf(w), connector) && IsOwnOperation(CoreOf(w), job, key, id)
    ensures Leads(CoreOf(w), moves, CoreOf(Handled(Finished(w, job), AfterBeginDisconnect(w.ui, key))))
  {
    DisconnectIsCloseAndDiscard(w, job, key, id);
    moves := LeadsByTwo(CoreOf(w), Close, Discard(job), key, id);
  }

  lemma ActionIsMove(w: World, job: nat, succeeded: bool) returns (moves: seq<Made>)
    ensures Leads(CoreOf(w), moves, CoreOf(Step(w, DeliverAction(job, succeeded))))
  {
    moves := [];
    if HasTask(w, job) && w.jobs[job].task.Act? {
      var key, id := w.jobs[job].task.key, w.jobs[job].task.id;
      if !IsConnected(w.ui, key, id) {
        moves := LeadsByOne(CoreOf(w), Discard(job), key, id);
      } else if !succeeded {
        moves := LeadsByOne(CoreOf(w), Fail(job), key, id);
      } else {
        moves := IdleIsMove(w, w.ui, job, key, id);
      }
    }
  }

  /** The handlers refine the moves: every step, whatever it interrupts, is some moves one after the other. */
  lemma StepIsMoves(w: World, e: Event, connector: map<PortalKey, nat>) returns (moves: seq<Made>)
    requires Pairs(CoreOf(w), connector)
    ensures Leads(CoreOf(w), moves, CoreOf(Step(w, e)))
  {
    match e
    case Environment(_) => moves := [];
    case UserConnect(node) => moves := ConnectIsMove(w, node);
    case UserDisconnect(node) =>
      moves := [];
      if w.active.Some? {
        moves := BeginDisconnectIsMove(w, PortalKey(w.active.value.id, node));
      }
    case UserExecute(node, action) => moves := ExecuteIsMove(w, node, action);
    case TickAll =>
      var started := w.(ui := w.ui.(tick := WrappingIncrement(w.ui.tick)));
      moves := TickIsMoves(started, KeysInOrder(w.ui.sessions.Keys));
    case Register(job, id) => moves := RegisterIsMove(w, job, id);
    case Establish(job) => moves := EstablishIsMove(w, job);
    case Abort(job) => moves := AbortIsMove(w, job);
    case DeliverConnected(job) =>
      moves := [];
      if job in w.jobs && w.jobs[job].ConnectDone? {
        ResultFindsItsSession(w, job, connector);
        moves := ConnectedIsMove(w, job, w.jobs[job].key, w.jobs[job].result);
      }
    case DeliverFrame(job, frame) => moves := FrameIsMove(w, job, frame, connector);
    case DeliverAction(job, succeeded) => moves := ActionIsMove(w, job, succeeded);
    case DeliverDisconnected(job) => moves := DisconnectedIsMove(w, job);
  }
}
