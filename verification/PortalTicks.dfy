/** What a tick of the portal protocol brings about: for each session whether it is captured, ended or left alone, and
    which tasks start in which order. */
module PortalTicks {
  import opened Wrappers
  import opened PortalMoves
  import opened PortalProtocol
  import opened PortalUi

  /** The list has this one task for the key, and no other. */
  ghost predicate HasOnly(tasks: seq<Task>, key: PortalKey, task: Task) {
    exists i :: 0 <= i < |tasks| && tasks[i] == task && forall j :: 0 <= j < |tasks| && j != i ==> tasks[j].key != key
  }

  predicate HasNone(tasks: seq<Task>, key: PortalKey) {
    forall i :: 0 <= i < |tasks| ==> tasks[i].key != key
  }

  predicate IsDistinct(keys: seq<PortalKey>) {
    forall i, j :: 0 <= i < j < |keys| ==> keys[i] != keys[j]
  }

  /** What a tick does for one session depends on this session, the workspace and the clock alone. */
  lemma TickOfIsLocal(ui: Ui, other: Ui, active: Active, key: PortalKey)
    requires key in ui.sessions && key in other.sessions && ui.sessions[key] == other.sessions[key]
    requires ui.tick == other.tick
    ensures AfterTickOf(ui, active, key).tasks == AfterTickOf(other, active, key).tasks
    ensures key in AfterTickOf(ui, active, key).ui.sessions && key in AfterTickOf(other, active, key).ui.sessions
    ensures AfterTickOf(ui, active, key).ui.sessions[key] == AfterTickOf(other, active, key).ui.sessions[key]
  {
  }

  lemma TickOfKeepsRest(ui: Ui, active: Active, key: PortalKey)
    ensures var outcome := AfterTickOf(ui, active, key);
            && outcome.ui == ui.(sessions := outcome.ui.sessions)
            && outcome.ui.sessions.Keys == ui.sessions.Keys
            && (forall other <- ui.sessions :: other != key ==> outcome.ui.sessions[other] == ui.sessions[other])
            && |outcome.tasks| <= 1 && (forall task <- outcome.tasks :: task.key == key)
  {
  }

  lemma {:induction false} TickKeepsRest(ui: Ui, active: Active, keys: seq<PortalKey>)
    ensures var outcome := AfterTickOfAll(ui, active, keys);
            && outcome.ui == ui.(sessions := outcome.ui.sessions)
            && outcome.ui.sessions.Keys == ui.sessions.Keys
    decreases keys
  {
    if keys != [] {
      TickOfKeepsRest(ui, active, keys[0]);
      TickKeepsRest(AfterTickOf(ui, active, keys[0]).ui, active, keys[1..]);
    }
  }

  lemma {:induction false} TickSkips(ui: Ui, active: Active, keys: seq<PortalKey>, key: PortalKey)
    requires key in ui.sessions && key !in keys
    ensures var outcome := AfterTickOfAll(ui, active, keys);
            && key in outcome.ui.sessions && outcome.ui.sessions[key] == ui.sessions[key]
            && HasNone(outcome.tasks, key)
    decreases keys
  {
    if keys != [] {
      TickOfKeepsRest(ui, active, keys[0]);
      var first := AfterTickOf(ui, active, keys[0]);
      TickSkips(first.ui, active, keys[1..], key);
      assert |first.tasks| == 1 ==> first.tasks[0] in first.tasks;
    }
  }

  lemma {:induction false} TickTreats(ui: Ui, active: Active, keys: seq<PortalKey>, key: PortalKey)
    requires key in ui.sessions && key in keys && IsDistinct(keys)
    ensures var one, outcome := AfterTickOf(ui, active, key), AfterTickOfAll(ui, active, keys);
            && key in one.ui.sessions && key in outcome.ui.sessions
            && outcome.ui.sessions[key] == one.ui.sessions[key]
            && if one.tasks == [] then HasNone(outcome.tasks, key) else HasOnly(outcome.tasks, key, one.tasks[0])
    decreases keys
  {
    var first := AfterTickOf(ui, active, keys[0]);
    var rest := AfterTickOfAll(first.ui, active, keys[1..]);
    var tasks := AfterTickOfAll(ui, active, keys).tasks;
    TickOfKeepsRest(ui, active, keys[0]);
    assert |first.tasks| == 1 ==> first.tasks[0] in first.tasks;
    if key == keys[0] {
      TickSkips(first.ui, active, keys[1..], key);
      if first.tasks != [] {
        assert tasks[0] == first.tasks[0];
        assert forall j :: 0 < j < |tasks| ==> tasks[j] == rest.tasks[j - 1];
      }
    } else {
      TickTreats(first.ui, active, keys[1..], key);
      TickOfIsLocal(ui, first.ui, active, key);
      PutBehind(first.tasks, rest.tasks, key);
    }
  }

  lemma PutBehind(front: seq<Task>, rest: seq<Task>, key: PortalKey)
    requires HasNone(front, key)
    ensures HasNone(rest, key) ==> HasNone(front + rest, key)
    ensures forall task :: HasOnly(rest, key, task) ==> HasOnly(front + rest, key, task)
  {
    forall task | HasOnly(rest, key, task)
      ensures HasOnly(front + rest, key, task)
    {
      var i :| 0 <= i < |rest| && rest[i] == task && forall j :: 0 <= j < |rest| && j != i ==> rest[j].key != key;
      assert (front + rest)[|front| + i] == task;
    }
  }

  lemma {:induction false} SpawnedNumbers(w: World, tasks: seq<Task>)
    ensures var now := SpawnAll(w, tasks);
            && now.next == w.next + |tasks| && now.registered == w.registered
            && (forall job :: job in now.jobs <==> job in w.jobs || w.next <= job < now.next)
    decreases tasks
  {
    if tasks != [] {
      SpawnedNumbers(Spawn(w, tasks[0]), tasks[1..]);
    }
  }

  lemma {:induction false} SpawnedKeepsJob(w: World, tasks: seq<Task>, job: nat)
    requires job in w.jobs && (job < w.next || w.next + |tasks| <= job)
    ensures job in SpawnAll(w, tasks).jobs && SpawnAll(w, tasks).jobs[job] == w.jobs[job]
    decreases tasks
  {
    if tasks != [] {
      SpawnedKeepsJob(Spawn(w, tasks[0]), tasks[1..], job);
    }
  }

  lemma {:induction false} SpawnedAt(w: World, tasks: seq<Task>, i: nat)
    requires i < |tasks|
    ensures w.next + i in SpawnAll(w, tasks).jobs && SpawnAll(w, tasks).jobs[w.next + i] == Working(tasks[i])
    decreases tasks
  {
    if i == 0 {
      SpawnedKeepsJob(Spawn(w, tasks[0]), tasks[1..], w.next);
    } else {
      SpawnedAt(Spawn(w, tasks[0]), tasks[1..], i - 1);
    }
  }

  /** The tasks started from here on, in their order. */
  lemma SpawnedInOrder(w: World, tasks: seq<Task>)
    ensures var now := SpawnAll(w, tasks);
            && now.next == w.next + |tasks| && now.registered == w.registered
            && (forall job :: job in now.jobs <==> job in w.jobs || w.next <= job < now.next)
            && (forall job <- w.jobs :: job < w.next || now.next <= job ==> now.jobs[job] == w.jobs[job])
            && (forall job :: w.next <= job < now.next ==> now.jobs[job] == Working(tasks[job - w.next]))
  {
    var now := SpawnAll(w, tasks);
    SpawnedNumbers(w, tasks);
    forall job <- w.jobs | job < w.next || now.next <= job
      ensures now.jobs[job] == w.jobs[job]
    {
      SpawnedKeepsJob(w, tasks, job);
    }
    forall job | w.next <= job < now.next
      ensures now.jobs[job] == Working(tasks[job - w.next])
    {
      SpawnedAt(w, tasks, job - w.next);
    }
  }

  /** Of the tasks started from a number on, this one alone is for the key. */
  ghost predicate StartsOnly(next: nat, now: World, key: PortalKey, task: Task) {
    exists job :: next <= job < now.next && Starts(now, job, task)
                  && forall other :: next <= other < now.next && other != job ==> !StartsFor(now, other, key)
  }

  predicate StartsNone(next: nat, now: World, key: PortalKey) {
    forall job :: next <= job < now.next ==> !StartsFor(now, job, key)
  }

  predicate Starts(now: World, job: nat, task: Task) {
    job in now.jobs && now.jobs[job] == Working(task)
  }

  predicate StartsFor(now: World, job: nat, key: PortalKey) {
    job in now.jobs && now.jobs[job].Working? && now.jobs[job].task.key == key
  }

  lemma SpawnedFor(w: World, tasks: seq<Task>, key: PortalKey)
    ensures var now := SpawnAll(w, tasks);
            && (HasNone(tasks, key) ==> StartsNone(w.next, now, key))
            && (forall task :: HasOnly(tasks, key, task) ==> StartsOnly(w.next, now, key, task))
  {
    var now := SpawnAll(w, tasks);
    SpawnedInOrder(w, tasks);
    forall task | HasOnly(tasks, key, task)
      ensures StartsOnly(w.next, now, key, task)
    {
      var i :| 0 <= i < |tasks| && tasks[i] == task && forall j :: 0 <= j < |tasks| && j != i ==> tasks[j].key != key;
      assert Starts(now, w.next + i, task);
    }
  }

  /** A tick advances the clock, keeps all keys, frames and the focus, and loses no task. */
  lemma TickKeepsState(w: World)
    ensures var now := Step(w, TickAll);
            && now.ui == w.ui.(tick := (w.ui.tick + 1) % 0x1_0000_0000_0000_0000, sessions := now.ui.sessions)
            && now.ui.sessions.Keys == w.ui.sessions.Keys
            && now.active == w.active && now.registered == w.registered
            && (forall job <- w.jobs :: job < w.next ==> job in now.jobs && now.jobs[job] == w.jobs[job])
  {
    var started, keys := w.ui.(tick := WrappingIncrement(w.ui.tick)), KeysInOrder(w.ui.sessions.Keys);
    var outcome := AfterTickOfAll(started, w.active, keys);
    TickKeepsRest(started, w.active, keys);
    SpawnKeepsUi(w.(ui := outcome.ui), outcome.tasks, outcome.ui);
    SpawnedInOrder(w.(ui := outcome.ui), outcome.tasks);
  }

  /** What a tick does for each session. One that is connected although its node has gone or changed starts to
      disconnect; one that is connected and idle is captured exactly when the clock is a multiple of the interval, the
      least number of ticks, at least one, in which the frame rate asks for a frame; all others stay as they are. */
  lemma TickTreatsSession(w: World, key: PortalKey, interval: nat)
    requires key in w.ui.sessions
    requires interval >= 1
    requires (interval - 1) * w.ui.sessions[key].config.frameRate < 10
             <= interval * w.ui.sessions[key].config.frameRate
    ensures var live, now := w.ui.sessions[key], Step(w, TickAll);
            var isCurrent := && w.active.Some? && w.active.value.id == key.workspace
                             && key.node in w.active.value.visible
                             && w.active.value.visible[key.node] == live.config;
            && key in now.ui.sessions
            && if live.phase.Connected? && !isCurrent then
                 && now.ui.sessions[key] == live.(phase := Disconnecting(live.phase.id))
                 && StartsOnly(w.next, now, key, Unregister(key, live.phase.id))
               else if live.phase.Connected? && !live.phase.busy
                       && ((w.ui.tick + 1) % 0x1_0000_0000_0000_0000) % interval == 0 then
                 && now.ui.sessions[key] == live.(phase := Connected(live.phase.id, true))
                 && StartsOnly(w.next, now, key, Capture(key, live.phase.id))
               else
                 now.ui.sessions[key] == live && StartsNone(w.next, now, key)
  {
    IntervalIsCaptureInterval(w.ui.sessions[key].config.frameRate, interval);
    TickDoesOne(w, key);
    TickOfCases(w.ui.(tick := WrappingIncrement(w.ui.tick)), w.active, key);
  }

  /** A tick leaves the sessions as its handler does, and starts the tasks that it returns. */
  lemma TickIsSpawn(w: World)
    ensures var outcome := AfterTick(w.ui, w.active);
            && Step(w, TickAll) == SpawnAll(w.(ui := outcome.ui), outcome.tasks)
            && Step(w, TickAll).ui == outcome.ui
  {
    var outcome := AfterTick(w.ui, w.active);
    SpawnKeepsUi(w.(ui := outcome.ui), outcome.tasks, outcome.ui);
  }

  /** Among all sessions the handler of a tick does for each what it would do for this one alone. */
  lemma HandlerDoesOne(ui: Ui, active: Active, key: PortalKey)
    requires key in ui.sessions
    ensures var one, outcome := AfterTickOf(ui.(tick := WrappingIncrement(ui.tick)), active, key), AfterTick(ui, active);
            && key in one.ui.sessions && key in outcome.ui.sessions
            && outcome.ui.sessions[key] == one.ui.sessions[key]
            && (one.tasks == [] ==> HasNone(outcome.tasks, key))
            && (one.tasks != [] ==> HasOnly(outcome.tasks, key, one.tasks[0]))
  {
    KeysAreInOrder(ui.sessions.Keys);
    TickTreats(ui.(tick := WrappingIncrement(ui.tick)), active, KeysInOrder(ui.sessions.Keys), key);
  }

  /** A tick does for each session what it would do for this one alone. */
  lemma TickDoesOne(w: World, key: PortalKey)
    requires key in w.ui.sessions
    ensures var one := AfterTickOf(w.ui.(tick := WrappingIncrement(w.ui.tick)), w.active, key);
            var now := Step(w, TickAll);
            && key in now.ui.sessions && key in one.ui.sessions && now.ui.sessions[key] == one.ui.sessions[key]
            && (one.tasks == [] ==> StartsNone(w.next, now, key))
            && (one.tasks != [] ==> StartsOnly(w.next, now, key, one.tasks[0]))
  {
    var outcome := AfterTick(w.ui, w.active);
    HandlerDoesOne(w.ui, w.active, key);
    TickIsSpawn(w);
    SpawnedFor(w.(ui := outcome.ui), outcome.tasks, key);
  }

  /** What a tick does for one session alone. */
  lemma TickOfCases(ui: Ui, active: Active, key: PortalKey)
    requires key in ui.sessions
    ensures var live, outcome := ui.sessions[key], AfterTickOf(ui, active, key);
            var isCurrent := && active.Some? && active.value.id == key.workspace && key.node in active.value.visible
                             && active.value.visible[key.node] == live.config;
            && key in outcome.ui.sessions
            && if live.phase.Connected? && !isCurrent then
                 && outcome.ui.sessions[key] == live.(phase := Disconnecting(live.phase.id))
                 && outcome.tasks == [Unregister(key, live.phase.id)]
               else if live.phase.Connected? && !live.phase.busy
                       && ui.tick % CaptureInterval(live.config.frameRate) == 0 then
                 && outcome.ui.sessions[key] == live.(phase := Connected(live.phase.id, true))
                 && outcome.tasks == [Capture(key, live.phase.id)]
               else outcome.ui.sessions[key] == live && outcome.tasks == []
  {
  }

  lemma IntervalIsCaptureInterval(rate: FrameRate, interval: nat)
    requires interval >= 1 && (interval - 1) * rate < 10 <= interval * rate
    ensures interval == CaptureInterval(rate)
  {
    CaptureIntervalIsLeast(rate);
    var least := CaptureInterval(rate);
    assert least > 1 ==> (least - 1) * rate < 10;
    IntervalIsUnique(rate, interval, least);
  }

  predicate AreInOrder(keys: seq<PortalKey>) {
    forall i, j :: 0 <= i < j < |keys| ==> KeyOrder(keys[i], keys[j])
  }

  lemma {:induction false} TasksAreForKeys(ui: Ui, active: Active, keys: seq<PortalKey>)
    ensures forall task <- AfterTickOfAll(ui, active, keys).tasks :: task.key in keys
    decreases keys
  {
    if keys != [] {
      TickOfKeepsRest(ui, active, keys[0]);
      TasksAreForKeys(AfterTickOf(ui, active, keys[0]).ui, active, keys[1..]);
    }
  }

  predicate AreTasksInOrder(tasks: seq<Task>) {
    forall i, j :: 0 <= i < j < |tasks| ==> KeyOrder(tasks[i].key, tasks[j].key)
  }

  lemma {:induction false} TasksFollowKeys(ui: Ui, active: Active, keys: seq<PortalKey>)
    requires AreInOrder(keys)
    ensures AreTasksInOrder(AfterTickOfAll(ui, active, keys).tasks)
    decreases keys
  {
    if keys != [] {
      var first := AfterTickOf(ui, active, keys[0]);
      var rest := AfterTickOfAll(first.ui, active, keys[1..]).tasks;
      TickOfKeepsRest(ui, active, keys[0]);
      TasksFollowKeys(first.ui, active, keys[1..]);
      TasksAreForKeys(first.ui, active, keys[1..]);
      if first.tasks != [] {
        assert first.tasks[0] in first.tasks;
        PutFirstKeepsOrder(first.tasks[0], rest, keys);
        assert first.tasks == [first.tasks[0]];
      } else {
        assert first.tasks + rest == rest;
      }
    }
  }

  lemma PutFirstKeepsOrder(task: Task, rest: seq<Task>, keys: seq<PortalKey>)
    requires keys != [] && AreInOrder(keys) && task.key == keys[0]
    requires AreTasksInOrder(rest) && forall other <- rest :: other.key in keys[1..]
    ensures AreTasksInOrder([task] + rest)
  {
    forall j | 0 <= j < |rest|
      ensures KeyOrder(task.key, rest[j].key)
    {
      assert rest[j] in rest;
    }
  }

  /** The tasks that a tick starts are numbered by workspace and then by node. */
  lemma TickStartsInOrder(w: World, i: nat, j: nat)
    requires w.next <= i < j < Step(w, TickAll).next
    ensures var jobs := Step(w, TickAll).jobs;
            && i in jobs && jobs[i].Working? && j in jobs && jobs[j].Working?
            && var one, other := jobs[i].task.key, jobs[j].task.key;
               one.workspace < other.workspace || (one.workspace == other.workspace && one.node <= other.node)
  {
    var started, keys := w.ui.(tick := WrappingIncrement(w.ui.tick)), KeysInOrder(w.ui.sessions.Keys);
    var outcome := AfterTickOfAll(started, w.active, keys);
    KeysAreInOrder(w.ui.sessions.Keys);
    TasksFollowKeys(started, w.active, keys);
    SpawnedTasksInOrder(w.(ui := outcome.ui), outcome.tasks, i, j);
  }

  lemma SpawnedTasksInOrder(w: World, tasks: seq<Task>, i: nat, j: nat)
    requires AreTasksInOrder(tasks) && w.next <= i < j < SpawnAll(w, tasks).next
    ensures var jobs := SpawnAll(w, tasks).jobs;
            && i in jobs && jobs[i].Working? && j in jobs && jobs[j].Working?
            && KeyOrder(jobs[i].task.key, jobs[j].task.key)
  {
    SpawnedInOrder(w, tasks);
    var jobs := SpawnAll(w, tasks).jobs;
    assert jobs[i] == Working(tasks[i - w.next]) && jobs[j] == Working(tasks[j - w.next]);
  }

  lemma MoreTicksMoreFrames(rate: nat, fewer: nat, more: nat)
    requires fewer <= more
    ensures fewer * rate <= more * rate
  {
  }

  lemma IntervalIsUnique(rate: nat, one: nat, other: nat)
    requires one >= 1 && (one - 1) * rate < 10 <= one * rate
    requires other >= 1 && (other - 1) * rate < 10 <= other * rate
    ensures one == other
  {
    if one < other {
      MoreTicksMoreFrames(rate, one, other - 1);
    } else if other < one {
      MoreTicksMoreFrames(rate, other, one - 1);
    }
  }
}
