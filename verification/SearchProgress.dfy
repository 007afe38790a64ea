/** What the search index brings about, stated on its fields: which workspace is built next, what a delivered build
    leaves, and how rounds of ticks and deliveries bring every workspace up to date. */
module SearchProgress {
  import opened StableSort
  import opened Wrappers
  import opened SearchIndex

  /** A build that comes back with documents for a loaded workspace is installed and recorded at its revision, and the
      workspace is marked again exactly when its timeline has moved on from there. */
  lemma BuildIsInstalled(w: World, build: nat)
    requires build < |w.builds| && w.builds[build].workspace in w.store.loaded
    ensures var done, now := w.builds[build], Step(w, Deliver(build, true));
            var id := done.workspace;
            var watermark := if id in w.store.watermarks then Some(w.store.watermarks[id]) else None;
            && id in now.ui.index && now.ui.index[id] == done.documents
            && id in now.ui.indexed && now.ui.indexed[id] == done.revision
            && now.ui.stale == (if watermark == done.revision then w.ui.stale else w.ui.stale + {id})
            && now.ui.busy == None && now.ui.ticks == w.ui.ticks
            && now.ui.index == w.ui.index[id := done.documents]
            && now.ui.indexed == w.ui.indexed[id := done.revision]
            && now == w.(ui := now.ui, builds := w.builds[..build] + w.builds[build + 1..])
  {
  }

  /** A build that failed leaves index, record and marks as they were; one of a workspace that is no longer loaded takes
      its documents away. */
  lemma OtherBuildsAreDropped(w: World, build: nat, built: bool)
    requires build < |w.builds| && (!built || w.builds[build].workspace !in w.store.loaded)
    ensures var id := w.builds[build].workspace;
            Step(w, Deliver(build, built))
            == w.(ui := w.ui.(busy := None, index := if id in w.store.loaded then w.ui.index else w.ui.index - {id}),
                  builds := w.builds[..build] + w.builds[build + 1..])
  {
  }

  /** What has to be built: what is marked, and what is not recorded at the newest event read of its timeline. */
  function Pending(w: World): set<WorkspaceId> {
    w.ui.stale + set id | id in w.store.watermarks
                          && !(id in w.ui.indexed && w.ui.indexed[id] == Some(w.store.watermarks[id]))
  }

  /** The next tick is one of those that mark the active workspace. */
  predicate IsDue(w: World) {
    (w.ui.ticks + 1) % 65536 % 50 == 0 && w.store.active.Some?
  }

  /** While nothing is being built, a tick starts to build the smallest workspace that is pending, from the version that
      is loaded and to be recorded at its watermark; an unloaded one is dropped from the index instead. */
  lemma TickStartsSmallest(w: World, id: WorkspaceId)
    requires w.ui.busy == None
    requires var pending := Pending(w) + if IsDue(w) then {w.store.active.value} else {};
             id in pending && forall other <- pending :: id <= other
    ensures var pending, now := Pending(w) + (if IsDue(w) then {w.store.active.value} else {}), Step(w, Tick);
            var watermark := if id in w.store.watermarks then Some(w.store.watermarks[id]) else None;
            && now.ui.stale == pending - {id} && now.ui.ticks == (w.ui.ticks + 1) % 65536
            && now.ui.indexed == w.ui.indexed && now.store == w.store && now.journal == w.journal
            && if id in w.store.loaded then
                 && now.ui.busy == Some(id) && now.ui.index == w.ui.index
                 && now.builds == w.builds + [Build(id, watermark, Documents(id, w.store.loaded[id]))]
               else now.ui.busy == None && now.ui.index == w.ui.index - {id} && now.builds == w.builds
  {
    var marked := Marked(w.ui, w.store);
    assert marked.stale == Pending(w) + if IsDue(w) then {w.store.active.value} else {};
    assert Smallest(marked.stale) == id;
  }

  /** While a build is under way, or nothing is pending, a tick only marks. */
  lemma TickOnlyMarks(w: World)
    requires w.ui.busy.Some? || Pending(w) + (if IsDue(w) then {w.store.active.value} else {}) == {}
    ensures Step(w, Tick)
         == w.(ui := w.ui.(ticks := (w.ui.ticks + 1) % 65536,
                           stale := Pending(w) + if IsDue(w) then {w.store.active.value} else {}))
  {
    assert Marked(w.ui, w.store).stale == Pending(w) + if IsDue(w) then {w.store.active.value} else {};
  }

  // ----- Rounds -----

  /** A tick and the successful delivery of the build that it starts. */
  function Round(w: World): World {
    Step(Step(w, Tick), Deliver(0, true))
  }

  function Rounds(w: World, n: nat): World
    decreases n
  {
    if n == 0 then w else Rounds(Round(w), n - 1)
  }

  /** Recording a workspace at its watermark takes it from what is pending, and nothing else. */
  lemma RecordedIsNotPending(w: World, now: World, id: WorkspaceId)
    requires now.store == w.store
    requires now.ui.stale == Pending(w) - {id}
    requires now.ui.indexed == w.ui.indexed[
               id := if id in w.store.watermarks then Some(w.store.watermarks[id]) else None]
    ensures Pending(now) == Pending(w) - {id}
  {
  }

  /** A round without a periodic mark brings one pending workspace up to date, and makes no other pending. */
  lemma RoundIndexesOne(w: World) returns (id: WorkspaceId)
    requires Inv(w) && w.ui.busy == None && Pending(w) != {} && !IsDue(w)
    ensures id in Pending(w) && id in w.store.loaded
    ensures var now := Round(w);
            && Inv(now) && now.ui.busy == None && now.store == w.store
            && now.ui.ticks == (w.ui.ticks + 1) % 65536
            && Pending(now) == Pending(w) - {id}
            && now.ui.index == w.ui.index[id := Documents(id, w.store.loaded[id])]
            && now.ui.indexed == w.ui.indexed[
                 id := if id in w.store.watermarks then Some(w.store.watermarks[id]) else None]
  {
    id := Smallest(Pending(w));
    TickStartsSmallest(w, id);
    StepKeepsInvariant(w, Tick);
    var ticked := Step(w, Tick);
    assert w.builds == [];
    BuildIsInstalled(ticked, 0);
    StepKeepsInvariant(ticked, Deliver(0, true));
    RecordedIsNotPending(w, Round(w), id);
  }

  /** When one workspace alone is pending, a tick and its successful delivery leave it indexed at the newest event read
      of its timeline, with the documents of its loaded version, and nothing marked or being built, unless the periodic
      mark comes between. */
  lemma OnePendingIsIndexed(w: World, id: WorkspaceId)
    requires Inv(w) && w.ui.busy == None && Pending(w) == {id} && !IsDue(w)
    ensures var now := Run(w, [Tick, Deliver(0, true)]);
            && id in w.store.loaded
            && id in now.ui.index && now.ui.index[id] == Documents(id, w.store.loaded[id])
            && id in now.ui.indexed
            && now.ui.indexed[id] == (if id in w.store.watermarks then Some(w.store.watermarks[id]) else None)
            && now.ui.stale == {} && now.ui.busy == None && now.builds == []
  {
    var one := RoundIndexesOne(w);
    RunTwo(w, Tick, Deliver(0, true));
    assert Round(w).ui.stale <= Pending(Round(w));
  }

  lemma RunTwo(w: World, first: Event, second: Event)
    ensures Run(w, [first, second]) == Step(Step(w, first), second)
  {
    var rest := [second];
    assert rest[1..] == [] && ([first] + rest)[1..] == rest && [first] + rest == [first, second];
    assert Run(Step(w, first), rest) == Run(Step(Step(w, first), second), []);
  }

  /** No tick of the next n marks the active workspace. */
  predicate NeverDue(ticks: nat, n: nat)
    decreases n
  {
    n == 0 || ((ticks + 1) % 65536 % 50 != 0 && NeverDue((ticks + 1) % 65536, n - 1))
  }

  /** The workspace is recorded at the newest event read of its timeline, and has documents that reflect it. */
  predicate IsUpToDate(w: World, id: WorkspaceId) {
    id in w.store.watermarks ==>
      && id in w.ui.indexed && w.ui.indexed[id] == Some(w.store.watermarks[id])
      && id in w.ui.index && w.ui.index[id].workspace == id
      && w.ui.index[id].version >= w.store.watermarks[id]
  }

  lemma NonePendingIsUpToDate(w: World, id: WorkspaceId)
    requires Inv(w) && Pending(w) == {}
    ensures IsUpToDate(w, id) && w.ui.stale == {}
  {
    assert w.ui.stale <= Pending(w);
    if id in w.store.watermarks {
      assert id !in Pending(w);
      assert id in w.ui.index && IsInstalledSound(w, id);
    }
  }

  /** Nothing is being built, n workspaces are pending, and no tick of the next n marks another. */
  ghost predicate IsQuiet(w: World, n: nat) {
    Inv(w) && w.ui.busy == None && |Pending(w)| == n && (w.store.active.Some? ==> NeverDue(w.ui.ticks, n))
  }

  lemma RoundStaysQuiet(w: World, n: nat)
    requires IsQuiet(w, n) && n > 0
    ensures IsQuiet(Round(w), n - 1) && Round(w).store == w.store
  {
    var id := RoundIndexesOne(w);
    assert |Pending(w) - {id}| == |Pending(w)| - 1;
  }

  lemma {:induction false} RoundsStayQuiet(w: World, n: nat)
    requires IsQuiet(w, n)
    ensures IsQuiet(Rounds(w, n), 0) && Rounds(w, n).store == w.store
    decreases n
  {
    if n > 0 {
      RoundStaysQuiet(w, n);
      RoundsStayQuiet(Round(w), n - 1);
    }
  }

  /** As many rounds as there are pending workspaces bring all of them up to date: then nothing is marked or being
      built, and every workspace whose timeline was read is indexed at the newest event. */
  lemma RoundsIndexAll(w: World, n: nat, id: WorkspaceId)
    requires IsQuiet(w, n)
    ensures var now := Rounds(w, n);
            && now.store == w.store && now.ui.stale == {} && now.ui.busy == None && now.builds == []
            && IsUpToDate(now, id)
  {
    RoundsStayQuiet(w, n);
    NonePendingIsUpToDate(Rounds(w, n), id);
  }

  // ----- The other events -----

  /** Removing a workspace takes its documents, its record, its mark and its timeline away, and touches no other. */
  lemma RemovalIsExact(w: World, id: WorkspaceId, next: Option<WorkspaceId>)
    requires id in w.store.loaded && (next.Some? ==> next.value in w.store.loaded && next.value != id)
    ensures Step(w, Remove(id, next))
         == w.(store := Store(w.store.loaded - {id}, w.store.watermarks - {id}, next),
               ui := w.ui.(index := w.ui.index - {id}, indexed := w.ui.indexed - {id}, stale := w.ui.stale - {id}))
  {
  }

  /** A workspace that is loaded, new or again, is at the version of its journal, active, and marked. */
  lemma LoadedIsMarked(w: World, id: WorkspaceId)
    requires id !in w.store.loaded
    ensures var now := Step(w, Create(id));
            && now.store.loaded == w.store.loaded[id := if id in w.journal then w.journal[id] else 1]
            && now.store.active == Some(id) && now.store.watermarks == w.store.watermarks
            && now.ui == w.ui.(stale := w.ui.stale + {id})
  {
  }
}
