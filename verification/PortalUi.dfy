/** The portal sessions of the canvas: every handler changes the session of one key and starts at most one
    background task, which reports back in a later message. */
module PortalUi {
  import opened Wrappers

  type PortalId = nat
  type Action = string
  type Frame = string
  type FrameRate = rate: nat | 0 < rate <= 65535 witness 30

  datatype PortalKey = PortalKey(workspace: WorkspaceId, node: NodeId)

  datatype PortalConfig = PortalConfig(target: string, frameRate: FrameRate)

  datatype Phase = Connecting | Connected(id: PortalId, busy: bool) | Disconnecting(id: PortalId)

  datatype LivePortal = LivePortal(config: PortalConfig, phase: Phase, pending: seq<Action>)

  /** The active workspace: its portal nodes, and those of them that are on the visible floor. */
  datatype Workspace = Workspace(id: WorkspaceId, portals: map<NodeId, PortalConfig>, visible: map<NodeId, PortalConfig>)

  type Active = Option<Workspace>

  datatype Task =
    | Connect(key: PortalKey, config: PortalConfig)
    | Capture(key: PortalKey, id: PortalId)
    | Act(key: PortalKey, id: PortalId, action: Action)
    | Unregister(key: PortalKey, id: PortalId)

  datatype Ui = Ui(sessions: map<PortalKey, LivePortal>, tick: nat, frames: map<NodeId, Frame>, focused: Option<NodeId>)

  /** What a handler leaves and what it starts. */
  datatype Outcome = Outcome(ui: Ui, tasks: seq<Task>)

  function SetPhase(ui: Ui, key: PortalKey, phase: Phase): Ui
    requires key in ui.sessions
  {
    ui.(sessions := ui.sessions[key := ui.sessions[key].(phase := phase)])
  }

  predicate IsActive(active: Active, key: PortalKey) {
    active.Some? && active.value.id == key.workspace
  }

  /** The session is connected under this id. */
  predicate IsConnected(ui: Ui, key: PortalKey, id: PortalId) {
    key in ui.sessions && ui.sessions[key].phase.Connected? && ui.sessions[key].phase.id == id
  }

  predicate ConfigIsActive(ui: Ui, active: Active, key: PortalKey) {
    && key in ui.sessions && IsActive(active, key)
    && key.node in active.value.portals && active.value.portals[key.node] == ui.sessions[key].config
  }

  /** The node has left the visible floor, or its settings have changed. */
  predicate IsStale(ui: Ui, active: Active, key: PortalKey)
    requires key in ui.sessions
  {
    || !IsActive(active, key)
    || !(key.node in active.value.visible && active.value.visible[key.node] == ui.sessions[key].config)
  }

  /** How many ticks lie between two captures: ten ticks shared out over the frame rate, rounded up. */
  function CaptureInterval(rate: FrameRate): (ticks: nat)
    ensures ticks > 0
  {
    var ticks := (10 + rate - 1) / rate;
    if ticks < 1 then 1 else ticks
  }

  /** Ten ticks make a second: the interval is the least number of ticks, at least one, in which a frame is due. */
  lemma CaptureIntervalIsLeast(rate: FrameRate)
    ensures CaptureInterval(rate) * rate >= 10
    ensures forall fewer :: 1 <= fewer < CaptureInterval(rate) ==> fewer * rate < 10
  {
    var ticks := CaptureInterval(rate);
    assert ticks * rate + (10 + rate - 1) % rate == 10 + rate - 1;
    forall fewer | 1 <= fewer < ticks
      ensures fewer * rate < 10
    {
      assert fewer * rate <= (ticks - 1) * rate;
    }
  }

  // ----- What the handlers do -----

  function AfterConnect(ui: Ui, active: Active, node: NodeId): Outcome {
    if active.None? || node !in active.value.portals then Outcome(ui, [])
    else
      var key := PortalKey(active.value.id, node);
      var config := active.value.portals[node];
      if key in ui.sessions then Outcome(ui, [])
      else Outcome(ui.(sessions := ui.sessions[key := LivePortal(config, Connecting, [])]), [Connect(key, config)])
  }

  function AfterConnected(ui: Ui, active: Active, key: PortalKey, result: Option<PortalId>): Outcome {
    match result
    case None => Outcome(ui.(sessions := ui.sessions - {key}), [])
    case Some(id) =>
      if !ConfigIsActive(ui, active, key) then
        Outcome(ui.(sessions := ui.sessions - {key}), [Unregister(key, id)])
      else if !ui.sessions[key].phase.Connecting? then Outcome(ui, [Unregister(key, id)])
      else Outcome(SetPhase(ui, key, Connected(id, false)), [])
  }

  function AfterBeginDisconnect(ui: Ui, key: PortalKey): Outcome {
    if key !in ui.sessions || !ui.sessions[key].phase.Connected? then Outcome(ui, [])
    else
      var id := ui.sessions[key].phase.id;
      Outcome(SetPhase(ui, key, Disconnecting(id)), [Unregister(key, id)])
  }

  function AfterDisconnect(ui: Ui, active: Active, node: NodeId): Outcome {
    if active.None? then Outcome(ui, []) else AfterBeginDisconnect(ui, PortalKey(active.value.id, node))
  }

  function AfterDisconnected(ui: Ui, active: Active, key: PortalKey, id: PortalId): Outcome {
    if key !in ui.sessions || ui.sessions[key].phase != Disconnecting(id) then Outcome(ui, [])
    else
      var removed := ui.(sessions := ui.sessions - {key});
      if !IsActive(active, key) then Outcome(removed, [])
      else Outcome(removed.(frames := ui.frames - {key.node},
                            focused := if ui.focused == Some(key.node) then None else ui.focused), [])
  }

  function AfterStartAction(ui: Ui, key: PortalKey, id: PortalId, action: Action): Outcome {
    if key !in ui.sessions then Outcome(ui, [])
    else Outcome(SetPhase(ui, key, Connected(id, true)), [Act(key, id, action)])
  }

  /** The session becomes idle, and starts the next action that is waiting. */
  function AfterIdle(ui: Ui, key: PortalKey, id: PortalId): Outcome
    requires key in ui.sessions
  {
    var pending := ui.sessions[key].pending;
    var idle := SetPhase(ui, key, Connected(id, false));
    if pending == [] then Outcome(idle, [])
    else
      AfterStartAction(idle.(sessions := idle.sessions[key := idle.sessions[key].(pending := pending[1..])]),
                       key, id, pending[0])
  }

  function AfterFrame(ui: Ui, active: Active, key: PortalKey, id: PortalId, result: Result<Option<Frame>, ()>): Outcome {
    if !IsConnected(ui, key, id) then Outcome(ui, [])
    else if !IsActive(active, key) || result.Err? then AfterBeginDisconnect(ui, key)
    else
      AfterIdle(if result.value.None? then ui else ui.(frames := ui.frames[key.node := result.value.value]), key, id)
  }

  function AfterAction(ui: Ui, key: PortalKey, id: PortalId, succeeded: bool): Outcome {
    if !IsConnected(ui, key, id) then Outcome(ui, [])
    else if !succeeded then
      Outcome(ui.(sessions := ui.sessions[key := ui.sessions[key].(phase := Connected(id, false), pending := [])]), [])
    else AfterIdle(ui, key, id)
  }

  function AfterExecute(ui: Ui, active: Active, node: NodeId, action: Action): Outcome {
    if active.None? then Outcome(ui, [])
    else
      var key := PortalKey(active.value.id, node);
      if key !in ui.sessions || !ui.sessions[key].phase.Connected? then Outcome(ui, [])
      else if ui.sessions[key].phase.busy then
        Outcome(ui.(sessions := ui.sessions[key := ui.sessions[key].(pending := ui.sessions[key].pending + [action])]), [])
      else AfterStartAction(ui, key, ui.sessions[key].phase.id, action)
  }

  function AfterTickOf(ui: Ui, active: Active, key: PortalKey): Outcome {
    if key !in ui.sessions then Outcome(ui, [])
    else if IsStale(ui, active, key) then AfterBeginDisconnect(ui, key)
    else
      var live := ui.sessions[key];
      if !live.phase.Connected? || live.phase.busy || ui.tick % CaptureInterval(live.config.frameRate) != 0
      then Outcome(ui, [])
      else Outcome(SetPhase(ui, key, Connected(live.phase.id, true)), [Capture(key, live.phase.id)])
  }

  function AfterTickOfAll(ui: Ui, active: Active, keys: seq<PortalKey>): Outcome
    decreases keys
  {
    if keys == [] then Outcome(ui, [])
    else
      var first := AfterTickOf(ui, active, keys[0]);
      var rest := AfterTickOfAll(first.ui, active, keys[1..]);
      Outcome(rest.ui, first.tasks + rest.tasks)
  }

  function AfterTick(ui: Ui, active: Active): Outcome {
    AfterTickOfAll(ui.(tick := WrappingIncrement(ui.tick)), active, KeysInOrder(ui.sessions.Keys))
  }

  // ----- The sessions in the order of their keys -----

  predicate KeyOrder(a: PortalKey, b: PortalKey) {
    a.workspace < b.workspace || (a.workspace == b.workspace && a.node <= b.node)
  }

  predicate IsFirst(key: PortalKey, keys: set<PortalKey>) {
    key in keys && forall other <- keys :: KeyOrder(key, other)
  }

  lemma {:induction false} FirstExists(keys: set<PortalKey>) returns (first: PortalKey)
    requires keys != {}
    ensures IsFirst(first, keys)
    decreases |keys|
  {
    var some :| some in keys;
    var others := keys - {some};
    first := some;
    if others != {} {
      var next := FirstExists(others);
      first := if KeyOrder(some, next) then some else next;
    }
    forall key <- keys
      ensures KeyOrder(first, key)
    {
      assert key == some || key in others;
    }
  }

  lemma FirstExistsFor(keys: set<PortalKey>)
    requires keys != {}
    ensures exists first :: IsFirst(first, keys)
  {
    var first := FirstExists(keys);
  }

  function First(keys: set<PortalKey>): (first: PortalKey)
    requires keys != {}
    ensures IsFirst(first, keys)
  {
    FirstExistsFor(keys);
    var first :| IsFirst(first, keys);
    first
  }

  function KeysInOrder(keys: set<PortalKey>): (list: seq<PortalKey>)
    ensures forall key :: key in list <==> key in keys
  {
    if keys == {} then [] else [First(keys)] + KeysInOrder(keys - {First(keys)})
  }

  /** Each key is listed once, by workspace and then by node. */
  lemma {:induction false} KeysAreInOrder(keys: set<PortalKey>)
    ensures forall i, j :: 0 <= i < j < |KeysInOrder(keys)| ==>
      KeysInOrder(keys)[i] != KeysInOrder(keys)[j] && KeyOrder(KeysInOrder(keys)[i], KeysInOrder(keys)[j])
    decreases |keys|
  {
    if keys != {} {
      var rest := KeysInOrder(keys - {First(keys)});
      KeysAreInOrder(keys - {First(keys)});
      forall j | 0 <= j < |rest|
        ensures rest[j] != First(keys) && KeyOrder(First(keys), rest[j])
      {
        assert rest[j] in rest;
      }
    }
  }

  /** These tasks were started first. */
  function Before(tasks: seq<Task>, outcome: Outcome): Outcome {
    Outcome(outcome.ui, tasks + outcome.tasks)
  }

  lemma BeforeMore(tasks: seq<Task>, more: seq<Task>, outcome: Outcome)
    ensures Before(tasks, Before(more, outcome)) == Before(tasks + more, outcome)
  {
    assert tasks + (more + outcome.tasks) == tasks + more + outcome.tasks;
  }

  lemma TickOfFirst(ui: Ui, active: Active, keys: seq<PortalKey>, i: nat)
    requires i < |keys|
    ensures var first := AfterTickOf(ui, active, keys[i]);
            AfterTickOfAll(ui, active, keys[i..])
            == Before(first.tasks, AfterTickOfAll(first.ui, active, keys[i + 1..]))
  {
    assert keys[i..][1..] == keys[i + 1..];
  }

  class PortalUi {
    var sessions: map<PortalKey, LivePortal>
    var tick: nat
    var portalFrames: map<NodeId, Frame>
    var focusedPortal: Option<NodeId>

    function View(): Ui
      reads this
    {
      Ui(sessions, tick, portalFrames, focusedPortal)
    }

    method Connect(active: Active, node: NodeId) returns (tasks: seq<Task>)
      modifies this
      ensures Outcome(View(), tasks) == AfterConnect(old(View()), active, node)
    {
      if active.None? || node !in active.value.portals {
        return [];
      }
      var key := PortalKey(active.value.id, node);
      var config := active.value.portals[node];
      if key in sessions {
        return [];
      }
      sessions := sessions[key := LivePortal(config, Connecting, [])];
      return [Task.Connect(key, config)];
    }

    method Connected(active: Active, key: PortalKey, result: Option<PortalId>) returns (tasks: seq<Task>)
      modifies this
      ensures Outcome(View(), tasks) == AfterConnected(old(View()), active, key, result)
    {
      if result.None? {
        sessions := sessions - {key};
        return [];
      }
      if !ConfigIsActive(View(), active, key) {
        sessions := sessions - {key};
        return [Unregister(key, result.value)];
      }
      if !sessions[key].phase.Connecting? {
        return [Unregister(key, result.value)];
      }
      sessions := sessions[key := sessions[key].(phase := Phase.Connected(result.value, false))];
      return [];
    }

    method BeginDisconnect(key: PortalKey) returns (tasks: seq<Task>)
      modifies this
      ensures Outcome(View(), tasks) == AfterBeginDisconnect(old(View()), key)
    {
      if key !in sessions || !sessions[key].phase.Connected? {
        return [];
      }
      var id := sessions[key].phase.id;
      sessions := sessions[key := sessions[key].(phase := Disconnecting(id))];
      return [Unregister(key, id)];
    }

    method Disconnect(active: Active, node: NodeId) returns (tasks: seq<Task>)
      modifies this
      ensures Outcome(View(), tasks) == AfterDisconnect(old(View()), active, node)
    {
      if active.None? {
        return [];
      }
      tasks := BeginDisconnect(PortalKey(active.value.id, node));
    }

    method Disconnected(active: Active, key: PortalKey, id: PortalId)
      modifies this
      ensures Outcome(View(), []) == AfterDisconnected(old(View()), active, key, id)
    {
      if key in sessions && sessions[key].phase == Disconnecting(id) {
        sessions := sessions - {key};
        if IsActive(active, key) {
          portalFrames := portalFrames - {key.node};
          if focusedPortal == Some(key.node) {
            focusedPortal := None;
          }
        }
      }
    }

    method StartAction(key: PortalKey, id: PortalId, action: Action) returns (tasks: seq<Task>)
      modifies this
      ensures Outcome(View(), tasks) == AfterStartAction(old(View()), key, id, action)
    {
      if key !in sessions {
        return [];
      }
      sessions := sessions[key := sessions[key].(phase := Phase.Connected(id, true))];
      return [Act(key, id, action)];
    }

    method FrameCaptured(active: Active, key: PortalKey, id: PortalId, result: Result<Option<Frame>, ()>)
      returns (tasks: seq<Task>)
      modifies this
      ensures Outcome(View(), tasks) == AfterFrame(old(View()), active, key, id, result)
    {
      if !IsConnected(View(), key, id) {
        return [];
      }
      if !IsActive(active, key) {
        tasks := BeginDisconnect(key);
        return;
      }
      if result.Err? {
        tasks := BeginDisconnect(key);
        return;
      }
      sessions := sessions[key := sessions[key].(phase := Phase.Connected(id, false))];
      if result.value.Some? {
        portalFrames := portalFrames[key.node := result.value.value];
      }
      tasks := StartNext(key, id);
    }

    method StartNext(key: PortalKey, id: PortalId) returns (tasks: seq<Task>)
      requires key in sessions && sessions[key].phase == Phase.Connected(id, false)
      modifies this
      ensures Outcome(View(), tasks) == AfterIdle(old(View()), key, id)
    {
      var pending := sessions[key].pending;
      assert SetPhase(View(), key, Phase.Connected(id, false)) == View();
      if pending == [] {
        return [];
      }
      sessions := sessions[key := sessions[key].(pending := pending[1..])];
      tasks := StartAction(key, id, pending[0]);
    }

    method ActionCompleted(key: PortalKey, id: PortalId, succeeded: bool) returns (tasks: seq<Task>)
      modifies this
      ensures Outcome(View(), tasks) == AfterAction(old(View()), key, id, succeeded)
    {
      if !IsConnected(View(), key, id) {
        return [];
      }
      sessions := sessions[key := sessions[key].(phase := Phase.Connected(id, false))];
      if !succeeded {
        sessions := sessions[key := sessions[key].(pending := [])];
        return [];
      }
      tasks := StartNext(key, id);
    }

    method Execute(active: Active, node: NodeId, action: Action) returns (tasks: seq<Task>)
      modifies this
      ensures Outcome(View(), tasks) == AfterExecute(old(View()), active, node, action)
    {
      if active.None? {
        return [];
      }
      var key := PortalKey(active.value.id, node);
      if key !in sessions || !sessions[key].phase.Connected? {
        return [];
      }
      if sessions[key].phase.busy {
        sessions := sessions[key := sessions[key].(pending := sessions[key].pending + [action])];
        return [];
      }
      tasks := StartAction(key, sessions[key].phase.id, action);
    }

    /** What a tick does for one session. */
    method TickOf(active: Active, key: PortalKey) returns (tasks: seq<Task>)
      modifies this
      ensures Outcome(View(), tasks) == AfterTickOf(old(View()), active, key)
    {
      if key !in sessions {
        return [];
      }
      if IsStale(View(), active, key) {
        tasks := BeginDisconnect(key);
        return;
      }
      var live := sessions[key];
      if !live.phase.Connected? || live.phase.busy || tick % CaptureInterval(live.config.frameRate) != 0 {
        return [];
      }
      sessions := sessions[key := live.(phase := Phase.Connected(live.phase.id, true))];
      return [Capture(key, live.phase.id)];
    }

    method TickOfAll(active: Active, keys: seq<PortalKey>) returns (tasks: seq<Task>)
      modifies this
      ensures Outcome(View(), tasks) == AfterTickOfAll(old(View()), active, keys)
    {
      tasks := [];
      for i := 0 to |keys|
        invariant AfterTickOfAll(old(View()), active, keys)
               == Before(tasks, AfterTickOfAll(View(), active, keys[i..]))
      {
        TickOfFirst(View(), active, keys, i);
        var rest := AfterTickOfAll(AfterTickOf(View(), active, keys[i]).ui, active, keys[i + 1..]);
        var more := TickOf(active, keys[i]);
        BeforeMore(tasks, more, rest);
        tasks := tasks + more;
      }
    }

    method Tick(active: Active) returns (tasks: seq<Task>)
      modifies this
      ensures Outcome(View(), tasks) == AfterTick(old(View()), active)
    {
      tick := WrappingIncrement(tick);
      tasks := TickOfAll(active, KeysInOrder(sessions.Keys));
    }
  }
}
