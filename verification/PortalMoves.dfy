/** The portal protocol as moves on its shared state: the sessions, the tasks under way, and what the backend has
    registered. Its safety is proved of the moves; `PortalProtocol` shows that every handler is made of them. */
module PortalMoves {
  import opened Wrappers
  import opened PortalUi

  /** A task under way. The one that connects registers an id with the backend, and may fail before or after. */
  datatype Job =
    | Working(task: Task)
    | Registered(key: PortalKey, id: PortalId)
    | ConnectDone(key: PortalKey, result: Option<PortalId>)

  /** The actions of one portal id: accepted from the user, handed to the backend, or given up by a failure. */
  datatype Entry = Accepted(action: Action) | Dispatched(action: Action) | Failed

  /** `registered` are the ids that the backend has given out, `released` those that an unregister was scheduled for,
      `log` what happened to the actions of each id. */
  datatype Core = Core(sessions: map<PortalKey, LivePortal>, next: nat, jobs: map<nat, Job>,
                       registered: set<PortalId>, released: multiset<PortalId>, log: map<PortalId, seq<Entry>>)

  datatype Move =
    | Open(config: PortalConfig)
    | Enlist(job: nat)
    | Establish(job: nat)
    | Abort(job: nat)
    | AbortLate(job: nat)
    | Admit(job: nat)
    | Forget(job: nat)
    | TurnAway(job: nat)
    | Close
    | Gone(job: nat)
    | Discard(job: nat)
    | Idle(job: nat)
    | Next(job: nat)
    | Fail(job: nat)
    | Begin(task: Task)
    | Enqueue(action: Action)

  // ----- Jobs and sessions -----

  /** The id that a connecting task has in hand. */
  function JobId(job: Job): Option<PortalId> {
    match job
    case Working(_) => None
    case Registered(_, id) => Some(id)
    case ConnectDone(_, result) => result
  }

  /** The key that a task is connecting. */
  function ConnectKey(job: Job): Option<PortalKey> {
    match job
    case Working(task) => if task.Connect? then Some(task.key) else None
    case Registered(key, _) => Some(key)
    case ConnectDone(key, _) => Some(key)
  }

  predicate IsOperation(task: Task, key: PortalKey, id: PortalId) {
    (task.Capture? || task.Act?) && task.key == key && task.id == id
  }

  /** The id that a capture or an action is under way for. */
  function OperatesOn(job: Job): Option<PortalId> {
    if job.Working? && (job.task.Capture? || job.task.Act?) then Some(job.task.id) else None
  }

  predicate IsConnectedAs(c: Core, key: PortalKey, id: PortalId) {
    key in c.sessions && c.sessions[key].phase.Connected? && c.sessions[key].phase.id == id
  }

  predicate IsBusy(c: Core, key: PortalKey)
    requires key in c.sessions
  {
    c.sessions[key].phase.Connected? && c.sessions[key].phase.busy
  }

  function LogOf(log: map<PortalId, seq<Entry>>, id: PortalId): seq<Entry> {
    if id in log then log[id] else []
  }

  function Note(log: map<PortalId, seq<Entry>>, id: PortalId, entries: seq<Entry>): map<PortalId, seq<Entry>> {
    log[id := LogOf(log, id) + entries]
  }

  // ----- The queue of a portal -----

  /** A queue that drops everything on a failure. None: something was dispatched out of turn. */
  function Queued(queue: Option<seq<Action>>, entry: Entry): Option<seq<Action>> {
    if queue.None? then None
    else
      match entry
      case Accepted(action) => Some(queue.value + [action])
      case Dispatched(action) =>
        if queue.value != [] && queue.value[0] == action then Some(queue.value[1..]) else None
      case Failed => Some([])
  }

  function Replay(log: seq<Entry>): Option<seq<Action>> {
    if log == [] then Some([]) else Queued(Replay(log[..|log| - 1]), log[|log| - 1])
  }

  lemma ReplayNoted(log: seq<Entry>, entry: Entry)
    ensures Replay(log + [entry]) == Queued(Replay(log), entry)
  {
    assert (log + [entry])[..|log|] == log;
  }

  // ----- The moves -----

  /** When a move on a key and an id can be made. */
  predicate Enabled(c: Core, move: Move, key: PortalKey, id: PortalId) {
    match move
    case Open(_) => key !in c.sessions
    case Enlist(job) =>
      && job in c.jobs && c.jobs[job].Working? && c.jobs[job].task.Connect? && c.jobs[job].task.key == key
      && id !in c.registered
    case Establish(job) => job in c.jobs && c.jobs[job] == Registered(key, id)
    case Abort(job) => job in c.jobs && c.jobs[job].Working? && c.jobs[job].task.Connect? && c.jobs[job].task.key == key
    case AbortLate(job) => job in c.jobs && c.jobs[job] == Registered(key, id)
    case Admit(job) =>
      && job in c.jobs && c.jobs[job] == ConnectDone(key, Some(id))
      && key in c.sessions && c.sessions[key].phase.Connecting?
    case Forget(job) =>
      && job in c.jobs && c.jobs[job] == ConnectDone(key, None)
      && key in c.sessions && c.sessions[key].phase.Connecting?
    case TurnAway(job) =>
      && job in c.jobs && c.jobs[job] == ConnectDone(key, Some(id))
      && key in c.sessions && c.sessions[key].phase.Connecting?
    case Close => IsConnectedAs(c, key, id)
    case Gone(job) =>
      && job in c.jobs && c.jobs[job] == Working(Unregister(key, id))
      && key in c.sessions && c.sessions[key].phase == Disconnecting(id)
    case Discard(job) =>
      && job in c.jobs && c.jobs[job].Working?
      && if IsOperation(c.jobs[job].task, key, id) then !IsConnectedAs(c, key, id)
         else c.jobs[job].task == Unregister(key, id)
              && !(key in c.sessions && c.sessions[key].phase == Disconnecting(id))
    case Idle(job) => IsOwnOperation(c, job, key, id) && c.sessions[key].pending == []
    case Next(job) => IsOwnOperation(c, job, key, id) && c.sessions[key].pending != []
    case Fail(job) => IsOwnOperation(c, job, key, id)
    case Begin(task) => IsConnectedAs(c, key, id) && !IsBusy(c, key) && IsOperation(task, key, id)
    case Enqueue(_) => IsConnectedAs(c, key, id) && IsBusy(c, key)
  }

  /** A capture or an action of the session that is connected now. */
  predicate IsOwnOperation(c: Core, job: nat, key: PortalKey, id: PortalId) {
    && job in c.jobs && c.jobs[job].Working? && IsOperation(c.jobs[job].task, key, id)
    && IsConnectedAs(c, key, id)
  }

  function WithPhase(c: Core, key: PortalKey, phase: Phase): Core
    requires key in c.sessions
  {
    c.(sessions := c.sessions[key := c.sessions[key].(phase := phase)])
  }

  function WithTask(c: Core, task: Task): Core {
    c.(next := c.next + 1, jobs := c.jobs[c.next := Working(task)])
  }

  function WithoutJob(c: Core, job: nat): Core {
    c.(jobs := c.jobs - {job})
  }

  function Released(c: Core, id: PortalId): Core {
    c.(released := c.released + multiset{id})
  }

  function Do(c: Core, move: Move, key: PortalKey, id: PortalId): Core
    requires Enabled(c, move, key, id)
  {
    match move
    case Open(config) =>
      WithTask(c.(sessions := c.sessions[key := LivePortal(config, Connecting, [])]), Connect(key, config))
    case Enlist(job) => c.(registered := c.registered + {id}, jobs := c.jobs[job := Registered(key, id)])
    case Establish(job) => c.(jobs := c.jobs[job := ConnectDone(key, Some(id))])
    case Abort(job) => c.(jobs := c.jobs[job := ConnectDone(key, None)])
    case AbortLate(job) => Released(c.(jobs := c.jobs[job := ConnectDone(key, None)]), id)
    case Admit(job) => WithPhase(WithoutJob(c, job), key, Connected(id, false))
    case Forget(job) => WithoutJob(c.(sessions := c.sessions - {key}), job)
    case TurnAway(job) =>
      Released(WithTask(WithoutJob(c.(sessions := c.sessions - {key}), job), Unregister(key, id)), id)
    case Close => Released(WithTask(WithPhase(c, key, Disconnecting(id)), Unregister(key, id)), id)
    case Gone(job) => WithoutJob(c.(sessions := c.sessions - {key}), job)
    case Discard(job) => WithoutJob(c, job)
    case Idle(job) => WithPhase(WithoutJob(c, job), key, Connected(id, false))
    case Next(job) =>
      var live := c.sessions[key];
      var first := live.pending[0];
      var advanced := c.(sessions := c.sessions[key := LivePortal(live.config, Connected(id, true), live.pending[1..])],
                         log := Note(c.log, id, [Dispatched(first)]));
      WithTask(WithoutJob(advanced, job), Act(key, id, first))
    case Fail(job) =>
      var live := c.sessions[key];
      WithoutJob(c.(sessions := c.sessions[key := LivePortal(live.config, Connected(id, false), [])],
                    log := Note(c.log, id, [Failed])), job)
    case Begin(task) =>
      var begun := WithTask(WithPhase(c, key, Connected(id, true)), task);
      if task.Act? then begun.(log := Note(c.log, id, [Accepted(task.action), Dispatched(task.action)])) else begun
    case Enqueue(action) =>
      var live := c.sessions[key];
      c.(sessions := c.sessions[key := live.(pending := live.pending + [action])],
         log := Note(c.log, id, [Accepted(action)]))
  }

  /** The moves of a connecting task. */
  predicate Connects(move: Move) {
    move.Open? || move.Enlist? || move.Establish? || move.Abort? || move.AbortLate?
    || move.Admit? || move.Forget? || move.TurnAway?
  }

  // ----- One connecting task for each connecting session -----

  ghost predicate JobsAreNumbered(c: Core) {
    forall j <- c.jobs :: j < c.next
  }

  ghost predicate TasksArePaired(c: Core, connector: map<PortalKey, nat>) {
    forall j <- c.jobs :: ConnectKey(c.jobs[j]).Some? ==>
      ConnectKey(c.jobs[j]).value in connector && connector[ConnectKey(c.jobs[j]).value] == j
  }

  ghost predicate ConnectorsConnect(c: Core, connector: map<PortalKey, nat>) {
    forall key <- connector ::
      && connector[key] in c.jobs && ConnectKey(c.jobs[connector[key]]) == Some(key)
      && key in c.sessions && c.sessions[key].phase.Connecting?
  }

  ghost predicate ConnectingIsPaired(c: Core, connector: map<PortalKey, nat>) {
    forall key <- c.sessions :: c.sessions[key].phase.Connecting? ==> key in connector
  }

  /** `connector` names the task of each connecting session. */
  ghost predicate Pairs(c: Core, connector: map<PortalKey, nat>) {
    && JobsAreNumbered(c)
    && TasksArePaired(c, connector) && ConnectorsConnect(c, connector) && ConnectingIsPaired(c, connector)
  }

  function ConnectorAfter(c: Core, move: Move, key: PortalKey, connector: map<PortalKey, nat>): map<PortalKey, nat> {
    if move.Open? then connector[key := c.next]
    else if move.Admit? || move.Forget? || move.TurnAway? then connector - {key}
    else connector
  }

  lemma MoveKeepsNumbers(c: Core, move: Move, key: PortalKey, id: PortalId)
    requires JobsAreNumbered(c) && Enabled(c, move, key, id)
    ensures JobsAreNumbered(Do(c, move, key, id))
  {
  }

  lemma ConnectingKeepsTasksPaired(c: Core, move: Move, key: PortalKey, id: PortalId, connector: map<PortalKey, nat>)
    requires Connects(move)
    requires Pairs(c, connector) && Enabled(c, move, key, id)
    ensures TasksArePaired(Do(c, move, key, id), ConnectorAfter(c, move, key, connector))
  {
  }

  lemma OtherKeepsTasksPaired(c: Core, move: Move, key: PortalKey, id: PortalId, connector: map<PortalKey, nat>)
    requires !Connects(move)
    requires Pairs(c, connector) && Enabled(c, move, key, id)
    ensures TasksArePaired(Do(c, move, key, id), ConnectorAfter(c, move, key, connector))
  {
  }

  lemma MoveKeepsTasksPaired(c: Core, move: Move, key: PortalKey, id: PortalId, connector: map<PortalKey, nat>)
    requires Pairs(c, connector) && Enabled(c, move, key, id)
    ensures TasksArePaired(Do(c, move, key, id), ConnectorAfter(c, move, key, connector))
  {
    if Connects(move) {
      ConnectingKeepsTasksPaired(c, move, key, id, connector);
    } else {
      OtherKeepsTasksPaired(c, move, key, id, connector);
    }
  }

  lemma ConnectingKeepsConnectors(c: Core, move: Move, key: PortalKey, id: PortalId,
                                  connector: map<PortalKey, nat>)
    requires Connects(move)
    requires Pairs(c, connector) && Enabled(c, move, key, id)
    ensures ConnectorsConnect(Do(c, move, key, id), ConnectorAfter(c, move, key, connector))
  {
  }

  lemma OtherKeepsConnectors(c: Core, move: Move, key: PortalKey, id: PortalId,
                             connector: map<PortalKey, nat>)
    requires !Connects(move)
    requires Pairs(c, connector) && Enabled(c, move, key, id)
    ensures ConnectorsConnect(Do(c, move, key, id), ConnectorAfter(c, move, key, connector))
  {
  }

  lemma MoveKeepsConnectorsConnect(c: Core, move: Move, key: PortalKey, id: PortalId, connector: map<PortalKey, nat>)
    requires Pairs(c, connector) && Enabled(c, move, key, id)
    ensures ConnectorsConnect(Do(c, move, key, id), ConnectorAfter(c, move, key, connector))
  {
    if Connects(move) {
      ConnectingKeepsConnectors(c, move, key, id, connector);
    } else {
      OtherKeepsConnectors(c, move, key, id, connector);
    }
  }

  lemma ConnectingKeepsConnectingPaired(c: Core, move: Move, key: PortalKey, id: PortalId,
                                        connector: map<PortalKey, nat>)
    requires Connects(move)
    requires Pairs(c, connector) && Enabled(c, move, key, id)
    ensures ConnectingIsPaired(Do(c, move, key, id), ConnectorAfter(c, move, key, connector))
  {
  }

  lemma OtherKeepsConnectingPaired(c: Core, move: Move, key: PortalKey, id: PortalId, connector: map<PortalKey, nat>)
    requires !Connects(move)
    requires Pairs(c, connector) && Enabled(c, move, key, id)
    ensures ConnectingIsPaired(Do(c, move, key, id), ConnectorAfter(c, move, key, connector))
  {
  }

  lemma MoveKeepsConnectingPaired(c: Core, move: Move, key: PortalKey, id: PortalId, connector: map<PortalKey, nat>)
    requires Pairs(c, connector) && Enabled(c, move, key, id)
    ensures ConnectingIsPaired(Do(c, move, key, id), ConnectorAfter(c, move, key, connector))
  {
    if Connects(move) {
      ConnectingKeepsConnectingPaired(c, move, key, id, connector);
    } else {
      OtherKeepsConnectingPaired(c, move, key, id, connector);
    }
  }

  lemma MoveKeepsPairs(c: Core, move: Move, key: PortalKey, id: PortalId, connector: map<PortalKey, nat>)
    requires Pairs(c, connector) && Enabled(c, move, key, id)
    ensures Pairs(Do(c, move, key, id), ConnectorAfter(c, move, key, connector))
  {
    MoveKeepsNumbers(c, move, key, id);
    MoveKeepsTasksPaired(c, move, key, id, connector);
    MoveKeepsConnectorsConnect(c, move, key, id, connector);
    MoveKeepsConnectingPaired(c, move, key, id, connector);
  }

  // ----- One owner for each registered id -----

  datatype Owner = ByJob(job: nat) | BySession(key: PortalKey) | Retired

  predicate IsOwnedBy(owner: map<PortalId, Owner>, id: PortalId, who: Owner) {
    id in owner && owner[id] == who
  }

  predicate Holds(c: Core, id: PortalId, owner: Owner) {
    match owner
    case ByJob(job) => job in c.jobs && JobId(c.jobs[job]) == Some(id)
    case BySession(key) => IsConnectedAs(c, key, id)
    case Retired => true
  }

  ghost predicate ReleasedOnce(c: Core, owner: map<PortalId, Owner>) {
    && owner.Keys == c.registered
    && (forall id <- c.released :: id in c.registered)
    && (forall id <- owner :: c.released[id] == (if owner[id].Retired? then 1 else 0))
  }

  ghost predicate OwnersHold(c: Core, owner: map<PortalId, Owner>) {
    forall id <- owner :: Holds(c, id, owner[id])
  }

  ghost predicate JobsAreOwned(c: Core, owner: map<PortalId, Owner>) {
    forall j <- c.jobs :: JobId(c.jobs[j]).Some? ==> IsOwnedBy(owner, JobId(c.jobs[j]).value, ByJob(j))
  }

  ghost predicate UnregisterIsRetired(c: Core, owner: map<PortalId, Owner>) {
    forall j <- c.jobs :: c.jobs[j].Working? && c.jobs[j].task.Unregister? ==>
      IsOwnedBy(owner, c.jobs[j].task.id, Retired)
  }

  ghost predicate SessionsAreOwned(c: Core, owner: map<PortalId, Owner>) {
    forall key <- c.sessions :: c.sessions[key].phase.Connected? ==>
      IsOwnedBy(owner, c.sessions[key].phase.id, BySession(key))
  }

  ghost predicate ClosingIsRetired(c: Core, owner: map<PortalId, Owner>) {
    forall key <- c.sessions :: c.sessions[key].phase.Disconnecting? ==>
      IsOwnedBy(owner, c.sessions[key].phase.id, Retired)
  }

  /** `owner` says who answers for an id: the task that connects it, the session that is connected under it, or
      nobody any more, since the one unregister for it was scheduled. */
  ghost predicate Owned(c: Core, owner: map<PortalId, Owner>) {
    ReleasedOnce(c, owner) && OwnersHold(c, owner) && JobsAreOwned(c, owner) && UnregisterIsRetired(c, owner)
    && SessionsAreOwned(c, owner) && ClosingIsRetired(c, owner)
  }

  /** Who answers for the id that a move is about. */
  predicate IsAbout(owner: map<PortalId, Owner>, move: Move, key: PortalKey, id: PortalId) {
    match move
    case Enlist(_) => id !in owner
    case AbortLate(job) => IsOwnedBy(owner, id, ByJob(job))
    case Admit(job) => IsOwnedBy(owner, id, ByJob(job))
    case TurnAway(job) => IsOwnedBy(owner, id, ByJob(job))
    case Close => IsOwnedBy(owner, id, BySession(key))
    case Idle(_) => IsOwnedBy(owner, id, BySession(key))
    case Next(_) => IsOwnedBy(owner, id, BySession(key))
    case Fail(_) => IsOwnedBy(owner, id, BySession(key))
    case Begin(_) => IsOwnedBy(owner, id, BySession(key))
    case Enqueue(_) => IsOwnedBy(owner, id, BySession(key))
    case _ => true
  }

  lemma MoveIsAbout(c: Core, owner: map<PortalId, Owner>, move: Move, key: PortalKey, id: PortalId)
    requires Owned(c, owner) && Enabled(c, move, key, id)
    ensures IsAbout(owner, move, key, id)
  {
  }

  function OwnerAfter(move: Move, key: PortalKey, id: PortalId, owner: map<PortalId, Owner>): map<PortalId, Owner> {
    if move.Enlist? then owner[id := ByJob(move.job)]
    else if move.Admit? then owner[id := BySession(key)]
    else if move.AbortLate? || move.TurnAway? || move.Close? then owner[id := Retired]
    else owner
  }

  lemma ConnectingKeepsReleasedOnce(c: Core, move: Move, key: PortalKey, id: PortalId, owner: map<PortalId, Owner>)
    requires Connects(move)
    requires ReleasedOnce(c, owner)
    requires Enabled(c, move, key, id) && IsAbout(owner, move, key, id)
    ensures ReleasedOnce(Do(c, move, key, id), OwnerAfter(move, key, id, owner))
  {
  }

  lemma OtherKeepsReleasedOnce(c: Core, move: Move, key: PortalKey, id: PortalId, owner: map<PortalId, Owner>)
    requires !Connects(move)
    requires ReleasedOnce(c, owner)
    requires Enabled(c, move, key, id) && IsAbout(owner, move, key, id)
    ensures ReleasedOnce(Do(c, move, key, id), OwnerAfter(move, key, id, owner))
  {
  }

  lemma MoveKeepsReleasedOnce(c: Core, move: Move, key: PortalKey, id: PortalId, owner: map<PortalId, Owner>)
    requires ReleasedOnce(c, owner)
    requires Enabled(c, move, key, id) && IsAbout(owner, move, key, id)
    ensures ReleasedOnce(Do(c, move, key, id), OwnerAfter(move, key, id, owner))
  {
    if Connects(move) {
      ConnectingKeepsReleasedOnce(c, move, key, id, owner);
    } else {
      OtherKeepsReleasedOnce(c, move, key, id, owner);
    }
  }

  lemma MoveKeepsOwners(c: Core, move: Move, key: PortalKey, id: PortalId, owner: map<PortalId, Owner>)
    requires c.next !in c.jobs && OwnersHold(c, owner)
    requires Enabled(c, move, key, id) && IsAbout(owner, move, key, id)
    ensures OwnersHold(Do(c, move, key, id), OwnerAfter(move, key, id, owner))
  {
  }

  lemma ConnectingKeepsJobs(c: Core, move: Move, key: PortalKey, id: PortalId, owner: map<PortalId, Owner>)
    requires Connects(move)
    requires c.next !in c.jobs && owner.Keys == c.registered && JobsAreOwned(c, owner)
    requires Enabled(c, move, key, id) && IsAbout(owner, move, key, id)
    ensures JobsAreOwned(Do(c, move, key, id), OwnerAfter(move, key, id, owner))
  {
  }

  lemma OtherKeepsJobs(c: Core, move: Move, key: PortalKey, id: PortalId, owner: map<PortalId, Owner>)
    requires !Connects(move)
    requires c.next !in c.jobs && owner.Keys == c.registered && JobsAreOwned(c, owner)
    requires Enabled(c, move, key, id) && IsAbout(owner, move, key, id)
    ensures JobsAreOwned(Do(c, move, key, id), OwnerAfter(move, key, id, owner))
  {
  }

  lemma MoveKeepsJobs(c: Core, move: Move, key: PortalKey, id: PortalId, owner: map<PortalId, Owner>)
    requires c.next !in c.jobs && owner.Keys == c.registered && JobsAreOwned(c, owner)
    requires Enabled(c, move, key, id) && IsAbout(owner, move, key, id)
    ensures JobsAreOwned(Do(c, move, key, id), OwnerAfter(move, key, id, owner))
  {
    if Connects(move) {
      ConnectingKeepsJobs(c, move, key, id, owner);
    } else {
      OtherKeepsJobs(c, move, key, id, owner);
    }
  }

  lemma MoveKeepsUnregisters(c: Core, move: Move, key: PortalKey, id: PortalId, owner: map<PortalId, Owner>)
    requires c.next !in c.jobs && owner.Keys == c.registered && UnregisterIsRetired(c, owner)
    requires Enabled(c, move, key, id) && IsAbout(owner, move, key, id)
    ensures UnregisterIsRetired(Do(c, move, key, id), OwnerAfter(move, key, id, owner))
  {
  }

  lemma ConnectingKeepsSessions(c: Core, move: Move, key: PortalKey, id: PortalId, owner: map<PortalId, Owner>)
    requires Connects(move)
    requires c.next !in c.jobs && owner.Keys == c.registered && SessionsAreOwned(c, owner)
    requires Enabled(c, move, key, id) && IsAbout(owner, move, key, id)
    ensures SessionsAreOwned(Do(c, move, key, id), OwnerAfter(move, key, id, owner))
  {
  }

  lemma OtherKeepsSessions(c: Core, move: Move, key: PortalKey, id: PortalId, owner: map<PortalId, Owner>)
    requires !Connects(move)
    requires c.next !in c.jobs && owner.Keys == c.registered && SessionsAreOwned(c, owner)
    requires Enabled(c, move, key, id) && IsAbout(owner, move, key, id)
    ensures SessionsAreOwned(Do(c, move, key, id), OwnerAfter(move, key, id, owner))
  {
  }

  lemma MoveKeepsSessions(c: Core, move: Move, key: PortalKey, id: PortalId, owner: map<PortalId, Owner>)
    requires c.next !in c.jobs && owner.Keys == c.registered && SessionsAreOwned(c, owner)
    requires Enabled(c, move, key, id) && IsAbout(owner, move, key, id)
    ensures SessionsAreOwned(Do(c, move, key, id), OwnerAfter(move, key, id, owner))
  {
    if Connects(move) {
      ConnectingKeepsSessions(c, move, key, id, owner);
    } else {
      OtherKeepsSessions(c, move, key, id, owner);
    }
  }

  lemma MoveKeepsClosing(c: Core, move: Move, key: PortalKey, id: PortalId, owner: map<PortalId, Owner>)
    requires c.next !in c.jobs && owner.Keys == c.registered && ClosingIsRetired(c, owner)
    requires Enabled(c, move, key, id) && IsAbout(owner, move, key, id)
    ensures ClosingIsRetired(Do(c, move, key, id), OwnerAfter(move, key, id, owner))
  {
  }

  lemma MoveKeepsOwned(c: Core, move: Move, key: PortalKey, id: PortalId, owner: map<PortalId, Owner>)
    requires c.next !in c.jobs && Owned(c, owner) && Enabled(c, move, key, id)
    ensures Owned(Do(c, move, key, id), OwnerAfter(move, key, id, owner))
  {
    MoveIsAbout(c, owner, move, key, id);
    MoveKeepsReleasedOnce(c, move, key, id, owner);
    MoveKeepsOwners(c, move, key, id, owner);
    MoveKeepsJobs(c, move, key, id, owner);
    MoveKeepsUnregisters(c, move, key, id, owner);
    MoveKeepsSessions(c, move, key, id, owner);
    MoveKeepsClosing(c, move, key, id, owner);
  }

  // ----- One operation at a time -----

  ghost predicate OperationsAreKnown(c: Core, worker: map<PortalId, nat>) {
    forall j <- c.jobs :: OperatesOn(c.jobs[j]).Some? ==>
      OperatesOn(c.jobs[j]).value in worker && worker[OperatesOn(c.jobs[j]).value] == j
  }

  ghost predicate WorkersOperate(c: Core, owner: map<PortalId, Owner>, worker: map<PortalId, nat>) {
    forall id <- worker ::
      && worker[id] in c.jobs && OperatesOn(c.jobs[worker[id]]) == Some(id)
      && id in owner && (owner[id].Retired? || owner[id] == BySession(c.jobs[worker[id]].task.key))
  }

  ghost predicate BusyIsOperating(c: Core, worker: map<PortalId, nat>) {
    forall key <- c.sessions :: c.sessions[key].phase.Connected? ==>
      (c.sessions[key].phase.busy <==> c.sessions[key].phase.id in worker)
  }

  /** `worker` names the one capture or action under way for an id; a session is busy exactly while there is one. */
  ghost predicate OneAtATime(c: Core, owner: map<PortalId, Owner>, worker: map<PortalId, nat>) {
    OperationsAreKnown(c, worker) && WorkersOperate(c, owner, worker) && BusyIsOperating(c, worker)
  }

  function WorkerAfter(c: Core, move: Move, id: PortalId, worker: map<PortalId, nat>): map<PortalId, nat> {
    if move.Begin? || move.Next? then worker[id := c.next]
    else if move.Idle? || move.Fail? then worker - {id}
    else if move.Discard? && move.job in c.jobs && OperatesOn(c.jobs[move.job]) == Some(id) then worker - {id}
    else worker
  }

  lemma ConnectingKeepsOperationsKnown(c: Core, move: Move, key: PortalKey, id: PortalId,
                                       owner: map<PortalId, Owner>, worker: map<PortalId, nat>)
    requires Connects(move)
    requires c.next !in c.jobs && SessionsAreOwned(c, owner) && OneAtATime(c, owner, worker)
    requires Enabled(c, move, key, id) && IsAbout(owner, move, key, id)
    ensures OperationsAreKnown(Do(c, move, key, id), WorkerAfter(c, move, id, worker))
  {
  }

  lemma OtherKeepsOperationsKnown(c: Core, move: Move, key: PortalKey, id: PortalId,
                                  owner: map<PortalId, Owner>, worker: map<PortalId, nat>)
    requires !Connects(move)
    requires c.next !in c.jobs && SessionsAreOwned(c, owner) && OneAtATime(c, owner, worker)
    requires Enabled(c, move, key, id) && IsAbout(owner, move, key, id)
    ensures OperationsAreKnown(Do(c, move, key, id), WorkerAfter(c, move, id, worker))
  {
  }

  lemma MoveKeepsOperationsKnown(c: Core, move: Move, key: PortalKey, id: PortalId,
                                 owner: map<PortalId, Owner>, worker: map<PortalId, nat>)
    requires c.next !in c.jobs && SessionsAreOwned(c, owner) && OneAtATime(c, owner, worker)
    requires Enabled(c, move, key, id) && IsAbout(owner, move, key, id)
    ensures OperationsAreKnown(Do(c, move, key, id), WorkerAfter(c, move, id, worker))
  {
    if Connects(move) {
      ConnectingKeepsOperationsKnown(c, move, key, id, owner, worker);
    } else {
      OtherKeepsOperationsKnown(c, move, key, id, owner, worker);
    }
  }

  predicate EndsOperation(move: Move) {
    move.Idle? || move.Next? || move.Fail? || move.Discard?
  }

  lemma EndKeepsWorkersOperate(c: Core, move: Move, key: PortalKey, id: PortalId,
                               owner: map<PortalId, Owner>, worker: map<PortalId, nat>)
    requires EndsOperation(move)
    requires c.next !in c.jobs && WorkersOperate(c, owner, worker)
    requires Enabled(c, move, key, id) && IsAbout(owner, move, key, id)
    ensures WorkersOperate(Do(c, move, key, id), OwnerAfter(move, key, id, owner), WorkerAfter(c, move, id, worker))
  {
  }

  lemma OtherKeepsWorkersOperate(c: Core, move: Move, key: PortalKey, id: PortalId,
                                 owner: map<PortalId, Owner>, worker: map<PortalId, nat>)
    requires !EndsOperation(move)
    requires c.next !in c.jobs && WorkersOperate(c, owner, worker)
    requires Enabled(c, move, key, id) && IsAbout(owner, move, key, id)
    ensures WorkersOperate(Do(c, move, key, id), OwnerAfter(move, key, id, owner), WorkerAfter(c, move, id, worker))
  {
  }

  lemma MoveKeepsWorkersOperate(c: Core, move: Move, key: PortalKey, id: PortalId,
                                owner: map<PortalId, Owner>, worker: map<PortalId, nat>)
    requires c.next !in c.jobs && WorkersOperate(c, owner, worker)
    requires Enabled(c, move, key, id) && IsAbout(owner, move, key, id)
    ensures WorkersOperate(Do(c, move, key, id), OwnerAfter(move, key, id, owner), WorkerAfter(c, move, id, worker))
  {
    if EndsOperation(move) {
      EndKeepsWorkersOperate(c, move, key, id, owner, worker);
    } else {
      OtherKeepsWorkersOperate(c, move, key, id, owner, worker);
    }
  }

  lemma ConnectingKeepsBusyOperating(c: Core, move: Move, key: PortalKey, id: PortalId,
                                     owner: map<PortalId, Owner>, worker: map<PortalId, nat>)
    requires Connects(move)
    requires c.next !in c.jobs && SessionsAreOwned(c, owner) && OneAtATime(c, owner, worker)
    requires Enabled(c, move, key, id) && IsAbout(owner, move, key, id)
    ensures BusyIsOperating(Do(c, move, key, id), WorkerAfter(c, move, id, worker))
  {
  }

  lemma OtherKeepsBusyOperating(c: Core, move: Move, key: PortalKey, id: PortalId,
                                owner: map<PortalId, Owner>, worker: map<PortalId, nat>)
    requires !Connects(move)
    requires c.next !in c.jobs && SessionsAreOwned(c, owner) && OneAtATime(c, owner, worker)
    requires Enabled(c, move, key, id) && IsAbout(owner, move, key, id)
    ensures BusyIsOperating(Do(c, move, key, id), WorkerAfter(c, move, id, worker))
  {
  }

  lemma MoveKeepsBusyOperating(c: Core, move: Move, key: PortalKey, id: PortalId,
                               owner: map<PortalId, Owner>, worker: map<PortalId, nat>)
    requires c.next !in c.jobs && SessionsAreOwned(c, owner) && OneAtATime(c, owner, worker)
    requires Enabled(c, move, key, id) && IsAbout(owner, move, key, id)
    ensures BusyIsOperating(Do(c, move, key, id), WorkerAfter(c, move, id, worker))
  {
    if Connects(move) {
      ConnectingKeepsBusyOperating(c, move, key, id, owner, worker);
    } else {
      OtherKeepsBusyOperating(c, move, key, id, owner, worker);
    }
  }

  lemma MoveKeepsOneAtATime(c: Core, move: Move, key: PortalKey, id: PortalId,
                            owner: map<PortalId, Owner>, worker: map<PortalId, nat>)
    requires c.next !in c.jobs && Owned(c, owner) && OneAtATime(c, owner, worker) && Enabled(c, move, key, id)
    ensures OneAtATime(Do(c, move, key, id), OwnerAfter(move, key, id, owner), WorkerAfter(c, move, id, worker))
  {
    MoveIsAbout(c, owner, move, key, id);
    MoveKeepsOperationsKnown(c, move, key, id, owner, worker);
    MoveKeepsWorkersOperate(c, move, key, id, owner, worker);
    MoveKeepsBusyOperating(c, move, key, id, owner, worker);
  }

  // ----- Queues in order -----

  ghost predicate LogsReplay(c: Core, owner: map<PortalId, Owner>) {
    forall id <- c.log :: id in owner && !owner[id].ByJob? && Replay(c.log[id]).Some?
  }

  ghost predicate QueuesReplay(c: Core) {
    forall key <- c.sessions ::
      match c.sessions[key].phase
      case Connecting => c.sessions[key].pending == []
      case Connected(id, busy) =>
        (busy || c.sessions[key].pending == []) && Replay(LogOf(c.log, id)) == Some(c.sessions[key].pending)
      case Disconnecting(_) => true
  }

  /** What a connected session has queued is what its log leaves of the accepted actions; an idle one has nothing
      queued; and no action was ever dispatched out of turn. */
  ghost predicate InOrder(c: Core, owner: map<PortalId, Owner>) {
    LogsReplay(c, owner) && QueuesReplay(c)
  }

  /** A queue after several entries. */
  function QueuedAll(queue: Option<seq<Action>>, entries: seq<Entry>): Option<seq<Action>>
    decreases entries
  {
    if entries == [] then queue else QueuedAll(Queued(queue, entries[0]), entries[1..])
  }

  lemma {:induction false} ReplayMore(log: seq<Entry>, entries: seq<Entry>)
    ensures Replay(log + entries) == QueuedAll(Replay(log), entries)
    decreases entries
  {
    if entries == [] {
      assert log + entries == log;
    } else {
      ReplayNoted(log, entries[0]);
      ReplayMore(log + [entries[0]], entries[1..]);
      assert log + entries == (log + [entries[0]]) + entries[1..];
    }
  }

  /** What a logged move notes. */
  function Entries(c: Core, move: Move, key: PortalKey): seq<Entry>
    requires move.Next? ==> key in c.sessions && c.sessions[key].pending != []
  {
    match move
    case Next(_) => [Dispatched(c.sessions[key].pending[0])]
    case Fail(_) => [Failed]
    case Enqueue(action) => [Accepted(action)]
    case Begin(task) => if task.Act? then [Accepted(task.action), Dispatched(task.action)] else []
    case _ => []
  }

  predicate IsLogged(move: Move) {
    move.Next? || move.Fail? || move.Begin? || move.Enqueue?
  }

  lemma MoveNotes(c: Core, move: Move, key: PortalKey, id: PortalId)
    requires Enabled(c, move, key, id) && IsLogged(move)
    ensures LogOf(Do(c, move, key, id).log, id) == LogOf(c.log, id) + Entries(c, move, key)
  {
  }

  /** The queue of the session follows what is noted. */
  lemma QueueFollows(c: Core, move: Move, key: PortalKey, id: PortalId)
    requires Enabled(c, move, key, id) && IsLogged(move)
    requires move.Begin? ==> c.sessions[key].pending == []
    ensures key in Do(c, move, key, id).sessions
    ensures QueuedAll(Some(c.sessions[key].pending), Entries(c, move, key))
         == Some(Do(c, move, key, id).sessions[key].pending)
  {
    var pending, entries := c.sessions[key].pending, Entries(c, move, key);
    if entries != [] {
      QueueOne(Some(pending), entries[0]);
      if |entries| == 2 {
        QueueTwo(Some(pending), entries[0], entries[1]);
        assert (pending + [move.task.action])[1..] == [];
        assert entries == [entries[0], entries[1]];
      } else {
        assert entries == [entries[0]];
      }
    }
  }

  lemma QueueOne(queue: Option<seq<Action>>, entry: Entry)
    ensures QueuedAll(queue, [entry]) == Queued(queue, entry)
  {
    assert [entry][1..] == [];
  }

  lemma QueueTwo(queue: Option<seq<Action>>, first: Entry, second: Entry)
    ensures QueuedAll(queue, [first, second]) == Queued(Queued(queue, first), second)
  {
    assert [first, second][1..] == [second];
    QueueOne(Queued(queue, first), second);
  }

  /** What a move leaves of the log and the queue of its session. */
  lemma MoveReplays(c: Core, move: Move, key: PortalKey, id: PortalId)
    requires Enabled(c, move, key, id) && IsLogged(move)
    requires move.Begin? ==> c.sessions[key].pending == []
    requires Replay(LogOf(c.log, id)) == Some(c.sessions[key].pending)
    ensures var now := Do(c, move, key, id);
            key in now.sessions && Replay(LogOf(now.log, id)) == Some(now.sessions[key].pending)
  {
    MoveNotes(c, move, key, id);
    QueueFollows(c, move, key, id);
    ReplayMore(LogOf(c.log, id), Entries(c, move, key));
  }

  lemma UnloggedKeepsInOrder(c: Core, move: Move, key: PortalKey, id: PortalId, owner: map<PortalId, Owner>)
    requires !IsLogged(move) && InOrder(c, owner) && owner.Keys == c.registered
    requires Enabled(c, move, key, id) && IsAbout(owner, move, key, id)
    ensures InOrder(Do(c, move, key, id), OwnerAfter(move, key, id, owner))
  {
    if move.Admit? {
      assert id !in c.log;
    }
  }

  /** Only the session and the log of one id change, and the session keeps the id and is idle only without a queue. */
  predicate ChangesOne(c: Core, now: Core, key: PortalKey, id: PortalId) {
    && IsConnectedAs(c, key, id) && IsConnectedAs(now, key, id)
    && (IsBusy(now, key) || now.sessions[key].pending == [])
    && now.sessions == c.sessions[key := now.sessions[key]]
    && (now.log == c.log || now.log == c.log[id := LogOf(now.log, id)])
  }

  lemma LoggedChangesOne(c: Core, move: Move, key: PortalKey, id: PortalId)
    requires Enabled(c, move, key, id) && IsLogged(move)
    requires move.Begin? ==> c.sessions[key].pending == []
    ensures ChangesOne(c, Do(c, move, key, id), key, id)
  {
  }

  lemma LoggedKeepsInOrder(c: Core, now: Core, key: PortalKey, id: PortalId, owner: map<PortalId, Owner>)
    requires SessionsAreOwned(c, owner) && InOrder(c, owner)
    requires ChangesOne(c, now, key, id)
    requires Replay(LogOf(now.log, id)) == Some(now.sessions[key].pending)
    ensures InOrder(now, owner)
  {
    forall other | other in now.sessions && other != key && now.sessions[other].phase.Connected?
      ensures LogOf(now.log, now.sessions[other].phase.id) == LogOf(c.log, now.sessions[other].phase.id)
    {
      assert now.sessions[other] == c.sessions[other];
    }
  }

  lemma SessionReplays(c: Core, key: PortalKey, id: PortalId)
    requires QueuesReplay(c) && IsConnectedAs(c, key, id)
    ensures Replay(LogOf(c.log, id)) == Some(c.sessions[key].pending)
    ensures !IsBusy(c, key) ==> c.sessions[key].pending == []
  {
  }

  lemma LoggedMoveReplays(c: Core, move: Move, key: PortalKey, id: PortalId)
    requires QueuesReplay(c) && Enabled(c, move, key, id) && IsLogged(move)
    ensures var now := Do(c, move, key, id);
            && ChangesOne(c, now, key, id)
            && Replay(LogOf(now.log, id)) == Some(now.sessions[key].pending)
  {
    SessionReplays(c, key, id);
    LoggedChangesOne(c, move, key, id);
    MoveReplays(c, move, key, id);
  }

  // ----- An unregister task for each disconnecting session -----

  /** `closer` names the task that unregisters the id of a disconnecting session. */
  ghost predicate Closes(c: Core, closer: map<PortalKey, nat>) {
    forall key <- c.sessions :: c.sessions[key].phase.Disconnecting? ==>
      && key in closer && closer[key] in c.jobs
      && c.jobs[closer[key]] == Working(Unregister(key, c.sessions[key].phase.id))
  }

  function CloserAfter(c: Core, move: Move, key: PortalKey, closer: map<PortalKey, nat>): map<PortalKey, nat> {
    if move.Close? then closer[key := c.next] else closer
  }

  lemma ConnectingKeepsCloses(c: Core, move: Move, key: PortalKey, id: PortalId, closer: map<PortalKey, nat>)
    requires Connects(move)
    requires c.next !in c.jobs && Closes(c, closer) && Enabled(c, move, key, id)
    ensures Closes(Do(c, move, key, id), CloserAfter(c, move, key, closer))
  {
  }

  lemma OtherKeepsCloses(c: Core, move: Move, key: PortalKey, id: PortalId, closer: map<PortalKey, nat>)
    requires !Connects(move)
    requires c.next !in c.jobs && Closes(c, closer) && Enabled(c, move, key, id)
    ensures Closes(Do(c, move, key, id), CloserAfter(c, move, key, closer))
  {
  }

  lemma MoveKeepsCloses(c: Core, move: Move, key: PortalKey, id: PortalId, closer: map<PortalKey, nat>)
    requires c.next !in c.jobs && Closes(c, closer) && Enabled(c, move, key, id)
    ensures Closes(Do(c, move, key, id), CloserAfter(c, move, key, closer))
  {
    if Connects(move) {
      ConnectingKeepsCloses(c, move, key, id, closer);
    } else {
      OtherKeepsCloses(c, move, key, id, closer);
    }
  }

  // ----- All of it -----

  datatype Roles = Roles(connector: map<PortalKey, nat>, owner: map<PortalId, Owner>, worker: map<PortalId, nat>,
                         closer: map<PortalKey, nat>)

  ghost predicate Safe(c: Core, r: Roles) {
    && Pairs(c, r.connector) && Owned(c, r.owner) && OneAtATime(c, r.owner, r.worker)
    && InOrder(c, r.owner) && Closes(c, r.closer)
  }

  function RolesAfter(c: Core, move: Move, key: PortalKey, id: PortalId, r: Roles): Roles {
    Roles(ConnectorAfter(c, move, key, r.connector), OwnerAfter(move, key, id, r.owner),
          WorkerAfter(c, move, id, r.worker), CloserAfter(c, move, key, r.closer))
  }

  lemma MoveKeepsSafe(c: Core, move: Move, key: PortalKey, id: PortalId, r: Roles)
    requires Safe(c, r) && Enabled(c, move, key, id)
    ensures Safe(Do(c, move, key, id), RolesAfter(c, move, key, id, r))
  {
    MoveIsAbout(c, r.owner, move, key, id);
    MoveKeepsPairs(c, move, key, id, r.connector);
    MoveKeepsOwned(c, move, key, id, r.owner);
    MoveKeepsOneAtATime(c, move, key, id, r.owner, r.worker);
    if IsLogged(move) {
      LoggedMoveReplays(c, move, key, id);
      LoggedKeepsInOrder(c, Do(c, move, key, id), key, id, r.owner);
    } else {
      UnloggedKeepsInOrder(c, move, key, id, r.owner);
    }
    MoveKeepsCloses(c, move, key, id, r.closer);
  }
}
