/** Keeping the search index of the loaded workspaces up to date: workspaces are marked stale when their timeline
    moves on, rebuilt one at a time in the background, and dropped when they are removed. */
module SearchIndex {
  import opened StableSort
  import opened Wrappers

  /** How many journal events a workspace, or what was derived from it, reflects. */
  type Version = nat

  /** The documents that indexing a workspace at some version gives. */
  datatype Documents = Documents(workspace: WorkspaceId, version: Version)

  datatype Ui = Ui(index: map<WorkspaceId, Documents>, stale: set<WorkspaceId>, busy: Option<WorkspaceId>,
                   indexed: map<WorkspaceId, Option<Version>>, ticks: nat)

  /** A build under way: the revision it will be recorded at, and the documents of the snapshot it works on. */
  datatype Build = Build(workspace: WorkspaceId, revision: Option<Version>, documents: Documents)

  /** The loaded workspaces at their versions, and the newest timeline event read of each. */
  datatype Store = Store(loaded: map<WorkspaceId, Version>, watermarks: map<WorkspaceId, Version>,
                         active: Option<WorkspaceId>)

  function Watermark(store: Store, id: WorkspaceId): Option<Version> {
    if id in store.watermarks then Some(store.watermarks[id]) else None
  }

  /** The index is recorded at exactly this revision. */
  predicate IsIndexedAt(ui: Ui, id: WorkspaceId, revision: Version) {
    id in ui.indexed && ui.indexed[id] == Some(revision)
  }

  function Outdated(ui: Ui, store: Store): set<WorkspaceId> {
    set id | id in store.watermarks && !IsIndexedAt(ui, id, store.watermarks[id])
  }

  // ----- What the handlers do -----

  function Marked(ui: Ui, store: Store): Ui {
    var ticks := (ui.ticks + 1) % 65536;
    var due := if ticks % 50 == 0 && store.active.Some? then {store.active.value} else {};
    ui.(ticks := ticks, stale := ui.stale + Outdated(ui, store) + due)
  }

  function AfterTick(ui: Ui, store: Store): (Ui, Option<Build>) {
    var marked := Marked(ui, store);
    if marked.busy.Some? || marked.stale == {} then (marked, None)
    else
      var id := Smallest(marked.stale);
      var popped := marked.(stale := marked.stale - {id});
      if id !in store.loaded then (popped.(index := popped.index - {id}), None)
      else (popped.(busy := Some(id)),
            Some(Build(id, Watermark(store, id), Documents(id, store.loaded[id]))))
  }

  /** `built` says whether the worker returned documents. */
  function AfterBuilt(ui: Ui, build: Build, built: bool, store: Store): Ui {
    var idle := ui.(busy := None);
    if build.workspace !in store.loaded then idle.(index := ui.index - {build.workspace})
    else if !built then idle
    else idle.(index := ui.index[build.workspace := build.documents],
               indexed := ui.indexed[build.workspace := build.revision],
               stale := if Watermark(store, build.workspace) == build.revision then ui.stale
                        else ui.stale + {build.workspace})
  }

  function AfterRemoval(ui: Ui, id: WorkspaceId): Ui {
    ui.(index := ui.index - {id}, indexed := ui.indexed - {id}, stale := ui.stale - {id})
  }

  class NavigationUi {
    var index: map<WorkspaceId, Documents>
    var stale: set<WorkspaceId>
    var busy: Option<WorkspaceId>
    var indexedRevisions: map<WorkspaceId, Option<Version>>
    var refreshTicks: nat

    function View(): Ui
      reads this
    {
      Ui(index, stale, busy, indexedRevisions, refreshTicks)
    }

    method MarkStale(id: WorkspaceId)
      modifies this
      ensures View() == old(View()).(stale := old(stale) + {id})
    {
      stale := stale + {id};
    }

    method MarkOutdated(store: Store)
      modifies this
      ensures View() == old(View()).(stale := old(stale) + Outdated(old(View()), store))
    {
      ghost var before := View();
      var rest := store.watermarks.Keys;
      while rest != {}
        invariant rest <= store.watermarks.Keys
        invariant View() == before.(stale := before.stale + (Outdated(before, store) - rest))
        decreases |rest|
      {
        var id :| id in rest;
        var revision := store.watermarks[id];
        if !(id in indexedRevisions && indexedRevisions[id] == Some(revision)) {
          MarkStale(id);
        }
        rest := rest - {id};
      }
    }

    method Tick(store: Store) returns (build: Option<Build>)
      modifies this
      ensures (View(), build) == AfterTick(old(View()), store)
    {
      refreshTicks := (refreshTicks + 1) % 65536;
      MarkOutdated(store);
      if refreshTicks % 50 == 0 && store.active.Some? {
        MarkStale(store.active.value);
      }
      assert View() == Marked(old(View()), store);
      if busy.Some? || stale == {} {
        return None;
      }
      var id := Smallest(stale);
      stale := stale - {id};
      if id !in store.loaded {
        index := index - {id};
        return None;
      }
      busy := Some(id);
      return Some(Build(id, Watermark(store, id), Documents(id, store.loaded[id])));
    }

    method IndexBuilt(build: Build, built: bool, store: Store)
      modifies this
      ensures View() == AfterBuilt(old(View()), build, built, store)
    {
      busy := None;
      if build.workspace !in store.loaded {
        index := index - {build.workspace};
        return;
      }
      if !built {
        return;
      }
      index := index[build.workspace := build.documents];
      indexedRevisions := indexedRevisions[build.workspace := build.revision];
      if Watermark(store, build.workspace) != build.revision {
        MarkStale(build.workspace);
      }
    }

    method RemoveWorkspace(id: WorkspaceId)
      modifies this
      ensures View() == AfterRemoval(old(View()), id)
    {
      index := index - {id};
      indexedRevisions := indexedRevisions - {id};
      stale := stale - {id};
    }
  }

  // ----- Runs -----

  /** The journal keeps the versions of removed workspaces, which can be loaded again as they were. */
  datatype World = World(ui: Ui, store: Store, journal: map<WorkspaceId, Version>, builds: seq<Build>)

  datatype Event =
    | Command(id: WorkspaceId)
    | ReadTimeline(id: WorkspaceId, newest: Version)
    | Create(id: WorkspaceId)
    | Remove(id: WorkspaceId, next: Option<WorkspaceId>)
    | Select(id: WorkspaceId)
    | Mark(id: WorkspaceId)
    | Tick
    | Deliver(build: nat, built: bool)

  function JournalVersion(w: World, id: WorkspaceId): Version {
    if id in w.journal then w.journal[id] else 0
  }

  function Step(w: World, e: Event): World {
    match e
    case Command(id) =>
      if id !in w.store.loaded then w
      else
        var version := w.store.loaded[id] + 1;
        w.(store := w.store.(loaded := w.store.loaded[id := version]), journal := w.journal[id := version])
    case ReadTimeline(id, newest) =>
      if id !in w.store.loaded || newest > w.store.loaded[id] then w
      else w.(store := w.store.(watermarks := w.store.watermarks[id := newest]))
    case Create(id) =>
      if id in w.store.loaded then w
      else
        var version := if id in w.journal then w.journal[id] else 1;
        w.(store := w.store.(loaded := w.store.loaded[id := version], active := Some(id)),
           journal := w.journal[id := version],
           ui := w.ui.(stale := w.ui.stale + {id}))
    case Remove(id, next) =>
      if id !in w.store.loaded || (next.Some? && (next.value !in w.store.loaded || next.value == id)) then w
      else w.(store := Store(w.store.loaded - {id}, w.store.watermarks - {id}, next), ui := AfterRemoval(w.ui, id))
    case Select(id) =>
      if id !in w.store.loaded then w else w.(store := w.store.(active := Some(id)))
    case Mark(id) =>
      if id !in w.store.loaded then w else w.(ui := w.ui.(stale := w.ui.stale + {id}))
    case Tick =>
      var (ui, build) := AfterTick(w.ui, w.store);
      w.(ui := ui, builds := if build.None? then w.builds else w.builds + [build.value])
    case Deliver(build, built) =>
      if build >= |w.builds| then w
      else w.(ui := AfterBuilt(w.ui, w.builds[build], built, w.store),
              builds := w.builds[..build] + w.builds[build + 1..])
  }

  function Run(w: World, events: seq<Event>): World
    decreases events
  {
    if events == [] then w else Run(Step(w, events[0]), events[1..])
  }

  /** The build under way reflects all that it will be recorded at, and is no older than what it will replace. */
  ghost predicate IsSound(w: World, build: Build) {
    && build.documents.workspace == build.workspace
    && build.documents.version <= JournalVersion(w, build.workspace)
    && (build.revision.Some? ==> build.revision.value <= build.documents.version)
    && (build.workspace in w.ui.index ==> w.ui.index[build.workspace].version <= build.documents.version)
  }

  ghost predicate IsInstalledSound(w: World, id: WorkspaceId) {
    && id in w.ui.index && id in w.store.loaded
    && w.ui.index[id].workspace == id
    && w.ui.index[id].version <= w.store.loaded[id]
    && (id in w.ui.indexed && w.ui.indexed[id].Some? ==> w.ui.indexed[id].value <= w.ui.index[id].version)
  }

  ghost predicate StoreIsSound(w: World) {
    && (forall id <- w.store.loaded :: w.store.loaded[id] == JournalVersion(w, id))
    && (forall id <- w.store.watermarks :: id in w.store.loaded && w.store.watermarks[id] <= w.store.loaded[id])
    && (w.store.active.Some? ==> w.store.active.value in w.store.loaded)
  }

  /** Everything about the index that holds at all times. */
  ghost predicate Inv(w: World) {
    && StoreIsSound(w)
    && w.ui.index.Keys == w.ui.indexed.Keys
    && (forall id <- w.ui.index :: IsInstalledSound(w, id))
    && (forall id <- w.ui.stale :: id in w.store.loaded)
    && (match w.ui.busy
        case None => w.builds == []
        case Some(id) => |w.builds| == 1 && w.builds[0].workspace == id && IsSound(w, w.builds[0]))
  }

  ghost predicate IsInitial(w: World) {
    && StoreIsSound(w)
    && w.ui.index == map[] && w.ui.indexed == map[] && w.ui.stale == {} && w.ui.busy == None && w.builds == []
  }

  lemma InitialIsSound(w: World)
    requires IsInitial(w)
    ensures Inv(w)
  {
  }

  lemma StoreStepKeepsInvariant(w: World, e: Event)
    requires Inv(w) && !e.Tick? && !e.Deliver?
    ensures Inv(Step(w, e))
  {
  }

  lemma TickKeepsInvariant(w: World)
    requires Inv(w)
    ensures Inv(Step(w, Tick))
  {
  }

  lemma DeliveryKeepsInvariant(w: World, build: nat, built: bool)
    requires Inv(w) && build < |w.builds|
    ensures Inv(Step(w, Deliver(build, built)))
  {
  }

  lemma StepKeepsInvariant(w: World, e: Event)
    requires Inv(w)
    ensures Inv(Step(w, e))
  {
    if e.Tick? {
      TickKeepsInvariant(w);
    } else if !e.Deliver? {
      StoreStepKeepsInvariant(w, e);
    } else if e.build < |w.builds| {
      DeliveryKeepsInvariant(w, e.build, e.built);
    }
  }

  /** In every run: a build is under way exactly while the index is busy, never two, and for the workspace that the
      busy flag names; an installed index reflects at least what it is recorded at; and only loaded workspaces are
      indexed, recorded or stale. */
  lemma {:induction false} RunKeepsInvariant(w: World, events: seq<Event>)
    requires Inv(w)
    ensures Inv(Run(w, events))
    decreases events
  {
    if events != [] {
      StepKeepsInvariant(w, events[0]);
      RunKeepsInvariant(Step(w, events[0]), events[1..]);
    }
  }

  lemma EveryRunIsSound(w: World, events: seq<Event>)
    requires IsInitial(w)
    ensures Inv(Run(w, events))
  {
    InitialIsSound(w);
    RunKeepsInvariant(w, events);
  }

  // ----- No timeline event is forgotten -----

  /** A workspace whose timeline was read is indexed at what was read, or is marked for it, or is being built. */
  predicate IsCovered(w: World, id: WorkspaceId) {
    id in w.store.watermarks ==>
      IsIndexedAt(w.ui, id, w.store.watermarks[id]) || id in w.ui.stale || w.ui.busy == Some(id)
  }

  /** A later timeline read is covered by the next tick only; so is a build that fails. */
  predicate MayUncover(w: World, e: Event, id: WorkspaceId) {
    || (e.ReadTimeline? && e.id == id)
    || (e.Deliver? && !e.built && w.ui.busy == Some(id))
  }

  lemma TickCovers(w: World, id: WorkspaceId)
    requires Inv(w)
    ensures IsCovered(Step(w, Tick), id)
  {
    assert id in w.store.watermarks ==> IsIndexedAt(w.ui, id, w.store.watermarks[id]) || id in Marked(w.ui, w.store).stale;
  }

  lemma StepKeepsCovered(w: World, e: Event, id: WorkspaceId)
    requires Inv(w) && IsCovered(w, id) && !MayUncover(w, e, id)
    ensures IsCovered(Step(w, e), id)
  {
    if e.Tick? {
      TickCovers(w, id);
    }
  }

  predicate NeverUncovers(w: World, events: seq<Event>, id: WorkspaceId)
    decreases events
  {
    events == [] || (!MayUncover(w, events[0], id) && NeverUncovers(Step(w, events[0]), events[1..], id))
  }

  /** From a tick on, a workspace stays covered through any run without a failed build or another timeline read of it;
      and once it is neither marked nor being built, its documents reflect all that was read of its timeline. */
  lemma {:induction false} RunKeepsCovered(w: World, events: seq<Event>, id: WorkspaceId)
    requires Inv(w) && IsCovered(w, id) && NeverUncovers(w, events, id)
    ensures IsCovered(Run(w, events), id)
    ensures var now := Run(w, events);
            id in now.store.watermarks && id !in now.ui.stale && now.ui.busy != Some(id) ==>
              id in now.ui.index && now.ui.index[id].version >= now.store.watermarks[id]
    decreases events
  {
    if events != [] {
      StepKeepsCovered(w, events[0], id);
      StepKeepsInvariant(w, events[0]);
      RunKeepsCovered(Step(w, events[0]), events[1..], id);
    } else {
      assert id in w.ui.index ==> IsInstalledSound(w, id);
    }
  }

  lemma TickThenRunKeepsCovered(w: World, events: seq<Event>, id: WorkspaceId)
    requires Inv(w) && NeverUncovers(Step(w, Tick), events, id)
    ensures var now := Run(w, [Tick] + events);
            id in now.store.watermarks && id !in now.ui.stale && now.ui.busy != Some(id) ==>
              id in now.ui.index && now.ui.index[id].version >= now.store.watermarks[id]
  {
    TickCovers(w, id);
    StepKeepsInvariant(w, Tick);
    RunKeepsCovered(Step(w, Tick), events, id);
    assert ([Tick] + events)[1..] == events;
  }

  // ----- Late builds -----

  /** Nothing of a removed workspace comes back until it is loaded again, whatever builds are still under way. */
  lemma {:induction false} RemovedStaysRemoved(w: World, events: seq<Event>, id: WorkspaceId)
    requires Inv(w) && id !in w.store.loaded
    requires forall e <- events :: e != Create(id)
    ensures var now := Run(w, events);
            id !in now.store.loaded && id !in now.ui.index && id !in now.ui.indexed && id !in now.ui.stale
            && id !in now.store.watermarks
    decreases events
  {
    if events == [] {
      assert id in w.ui.index ==> IsInstalledSound(w, id);
    } else {
      assert events[0] in events;
      assert forall e <- events[1..] :: e in events;
      assert id !in Step(w, events[0]).store.loaded;
      StepKeepsInvariant(w, events[0]);
      RemovedStaysRemoved(Step(w, events[0]), events[1..], id);
    }
  }

  /** All that there is, or will be, of a workspace's documents is at least of this version. */
  ghost predicate IsNoOlder(w: World, id: WorkspaceId, version: Version) {
    && version <= JournalVersion(w, id)
    && (id in w.ui.index ==> version <= w.ui.index[id].version)
    && (forall build <- w.builds :: build.workspace == id ==> version <= build.documents.version)
  }

  lemma StepKeepsNoOlder(w: World, e: Event, id: WorkspaceId, version: Version)
    requires Inv(w) && IsNoOlder(w, id, version)
    ensures IsNoOlder(Step(w, e), id, version)
  {
    if e.Deliver? && e.build < |w.builds| {
      assert w.builds[e.build] in w.builds;
    }
  }

  lemma {:induction false} RunKeepsNoOlder(w: World, events: seq<Event>, id: WorkspaceId, version: Version)
    requires Inv(w) && IsNoOlder(w, id, version)
    ensures IsNoOlder(Run(w, events), id, version)
    decreases events
  {
    if events != [] {
      StepKeepsNoOlder(w, events[0], id, version);
      StepKeepsInvariant(w, events[0]);
      RunKeepsNoOlder(Step(w, events[0]), events[1..], id, version);
    }
  }

  /** The documents of a workspace never go back to an older version, not even when it is removed and loaded again
      while a build for it is under way. */
  lemma DocumentsNeverGoBack(w: World, events: seq<Event>, id: WorkspaceId)
    requires Inv(w) && id in w.ui.index && id in Run(w, events).ui.index
    ensures w.ui.index[id].version <= Run(w, events).ui.index[id].version
  {
    assert IsInstalledSound(w, id);
    assert w.builds != [] ==> w.builds == [w.builds[0]];
    RunKeepsNoOlder(w, events, id, w.ui.index[id].version);
  }
}
