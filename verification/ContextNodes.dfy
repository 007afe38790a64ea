/** The note editor of the canvas with its background scan: edits, saves and reloads on the one side, a task that
    reads the disk and delivers later on the other. One note stays selected. */
module ContextNodes {
  import opened Wrappers
  import opened NoteBuffer

  type Directory = nat

  datatype Key = Key(workspace: WorkspaceId, node: NodeId)

  /** A canvas node whose body is read from the disk: a note, or a file tree, an artifact or a diff. */
  datatype ContextNode = ContextNode(id: NodeId, isNote: bool)

  datatype Active = Active(id: WorkspaceId, directory: Option<Directory>, layout: seq<ContextNode>)

  /** What a scan is started with. */
  datatype Request = Request(workspace: WorkspaceId, directory: Directory, layout: seq<ContextNode>,
                             key: Option<Key>, note: Option<Note>)

  datatype ScanResult = ScanResult(workspace: WorkspaceId, key: Option<Key>, original: Option<Note>,
                                   refreshed: Option<Note>, bodies: map<NodeId, Text>)

  type ScanOutcome = Result<ScanResult, FileError>

  datatype Ui = Ui(key: Option<Key>, note: Option<Note>, editor: Text, bodies: map<NodeId, Text>, busy: bool,
                   ticks: nat, canvasRevision: nat)

  // ----- What the handlers do -----

  function Ticked(ui: Ui): Ui {
    ui.(ticks := (ui.ticks + 1) % 256)
  }

  predicate StartsScan(ui: Ui, active: Option<Active>) {
    !ui.busy && Ticked(ui).ticks % 5 == 0 && active.Some? && active.value.directory.Some?
  }

  function RequestFor(ui: Ui, active: Active): Request
    requires active.directory.Some?
  {
    Request(active.id, active.directory.value, active.layout, ui.key, ui.note)
  }

  function AfterTick(ui: Ui, active: Option<Active>): Ui {
    if StartsScan(ui, active) then Ticked(ui).(busy := true) else Ticked(ui)
  }

  function AfterEdit(ui: Ui, text: Text): Ui {
    match ui.note
    case None => ui.(editor := text)
    case Some(note) =>
      var edited := ui.(editor := text, note := Some(Edited(note, text)));
      if ui.key.None? then edited
      else edited.(bodies := ui.bodies[ui.key.value.node := text], canvasRevision := WrappingIncrement(ui.canvasRevision))
  }

  /** `file` is what the save reads in the note's directory, when that is available. */
  function AfterSave(ui: Ui, overwrite: bool, file: Option<File>, written: bool): Ui {
    if ui.key.None? || file.None? || ui.note.None? then ui
    else ui.(note := Some(Saved(ui.note.value, overwrite, file.value, written)))
  }

  function AfterReload(ui: Ui, file: Option<File>): Ui {
    if ui.key.None? || file.None? || ui.note.None? || ReadNote(file.value).Err? then ui
    else
      var note := Reloaded(ui.note.value, file.value);
      ui.(note := Some(note), editor := note.text)
  }

  /** The scan result is taken over only while the note is still the one the scan started from. */
  predicate TakesOver(ui: Ui, result: ScanResult) {
    ui.key == result.key && ui.note == result.original && result.refreshed.Some?
  }

  function BodiesAfter(ui: Ui, result: ScanResult): map<NodeId, Text> {
    if !TakesOver(ui, result) && ui.key.Some? && ui.note.Some?
    then result.bodies[ui.key.value.node := ui.note.value.text]
    else result.bodies
  }

  function AfterScan(ui: Ui, outcome: ScanOutcome, active: Option<WorkspaceId>): Ui {
    var idle := ui.(busy := false);
    if outcome.Err? || active != Some(outcome.value.workspace) then idle
    else
      var result := outcome.value;
      var note := if TakesOver(ui, result) then result.refreshed else ui.note;
      var editor := if TakesOver(ui, result) && ui.note.Some? && ui.note.value.text != note.value.text
                    then note.value.text else ui.editor;
      var bodies := BodiesAfter(ui, result);
      idle.(note := note, editor := editor, bodies := bodies,
      canvasRevision := if ui.bodies == bodies then ui.canvasRevision else WrappingIncrement(ui.canvasRevision))
  }

  class ContextUi {
    var noteKey: Option<Key>
    var note: NoteBuffer?
    var editor: Text
    var bodies: map<NodeId, Text>
    var refreshBusy: bool
    var refreshTicks: nat
    var canvasRevision: nat

    function NoteView(): Option<Note>
      reads this, note
    {
      if note == null then None else Some(note.View())
    }

    function View(): Ui
      reads this, note
    {
      Ui(noteKey, NoteView(), editor, bodies, refreshBusy, refreshTicks, canvasRevision)
    }

    method Tick(active: Option<Active>) returns (request: Option<Request>)
      modifies this
      ensures View() == AfterTick(old(View()), active)
      ensures request == if StartsScan(old(View()), active) then Some(RequestFor(old(View()), active.value)) else None
    {
      refreshTicks := (refreshTicks + 1) % 256;
      if refreshBusy || refreshTicks % 5 != 0 {
        return None;
      }
      if active.None? || active.value.directory.None? {
        return None;
      }
      request := Some(RequestFor(View(), active.value));
      refreshBusy := true;
    }

    method EditNote(text: Text)
      modifies this, note
      ensures View() == AfterEdit(old(View()), text)
    {
      editor := text;
      if note != null {
        note.Edit(text);
        if noteKey.Some? {
          bodies := bodies[noteKey.value.node := note.text];
          canvasRevision := WrappingIncrement(canvasRevision);
        }
      }
    }

    /** Returns whether the file was written. */
    method SaveNote(overwrite: bool, file: Option<File>, written: bool) returns (saved: bool)
      modifies note
      ensures View() == AfterSave(old(View()), overwrite, file, written)
      ensures saved <==> WritesNote(old(View()), overwrite, file) && written
    {
      if noteKey.None? || file.None? || note == null {
        return false;
      }
      var result := note.Save(overwrite, file.value, written);
      return result.Ok?;
    }

    method ReloadNote(file: Option<File>)
      modifies this, note
      ensures View() == AfterReload(old(View()), file)
    {
      if noteKey.None? || file.None? || note == null {
        return;
      }
      var result := note.ReloadDiscardingEdits(file.value);
      if result.Ok? {
        editor := note.text;
      }
    }

    method ScanCompleted(outcome: ScanOutcome, active: Option<WorkspaceId>)
      modifies this
      ensures View() == AfterScan(old(View()), outcome, active)
    {
      refreshBusy := false;
      if outcome.Err? {
        return;
      }
      var result := outcome.value;
      if active != Some(result.workspace) {
        return;
      }
      var newBodies: map<NodeId, Text> := result.bodies;
      if noteKey == result.key && NoteView() == result.original && result.refreshed.Some? {
        var refreshed := new NoteBuffer(result.refreshed.value);
        if note != null && note.text != refreshed.text {
          editor := refreshed.text;
        }
        note := refreshed;
      } else if noteKey.Some? && note != null {
        newBodies := newBodies[noteKey.value.node := note.text];
      }
      if bodies != newBodies {
        bodies := newBodies;
        canvasRevision := WrappingIncrement(canvasRevision);
      }
    }
  }

  predicate WritesNote(ui: Ui, overwrite: bool, file: Option<File>) {
    ui.key.Some? && file.Some? && ui.note.Some? && MayWrite(ui.note.value, overwrite, file.value)
  }

  // ----- The background task -----

  predicate RefreshesNote(request: Request) {
    request.key.Some? && request.key.value.workspace == request.workspace && request.note.Some?
  }

  function RefreshedNote(request: Request, file: File): Option<Note> {
    if RefreshesNote(request) then Some(Refreshed(request.note.value, file)) else request.note
  }

  /** The body of a node: the selected note's own text, or else what a look at the disk gave. */
  function BodyOf(request: Request, file: File, previews: map<NodeId, Text>, node: ContextNode): Text
    requires node.id in previews
  {
    if RefreshesNote(request) && node.isNote && node.id == request.key.value.node
    then RefreshedNote(request, file).value.text
    else previews[node.id]
  }

  ghost predicate DistinctNodes(layout: seq<ContextNode>) {
    forall i, j :: 0 <= i < j < |layout| ==> layout[i].id != layout[j].id
  }

  /** The bodies of exactly the nodes of the layout. */
  ghost predicate AreBodies(bodies: map<NodeId, Text>, request: Request, file: File, previews: map<NodeId, Text>) {
    && (forall node <- request.layout ::
          node.id in previews && node.id in bodies && bodies[node.id] == BodyOf(request, file, previews, node))
    && (forall id <- bodies :: exists k :: 0 <= k < |request.layout| && request.layout[k].id == id)
  }

  /** `file` is the note's path in the scanned directory, `previews` what reading the other nodes gives. */
  method Scan(request: Request, file: File, previews: map<NodeId, Text>) returns (outcome: ScanOutcome)
    requires DistinctNodes(request.layout)
    requires forall node <- request.layout :: node.id in previews
    ensures IsOutcome(outcome, request, file, previews)
  {
    var refreshed := request.note;
    if RefreshesNote(request) {
      var note := new NoteBuffer(request.note.value);
      var result := note.Refresh(file);
      if result.Err? {
        return Err(result.error);
      }
      refreshed := Some(note.View());
    }
    var bodies: map<NodeId, Text> := map[];
    for i := 0 to |request.layout|
      invariant forall k :: 0 <= k < i ==>
                  request.layout[k].id in bodies
                  && bodies[request.layout[k].id] == BodyOf(request, file, previews, request.layout[k])
      invariant forall id <- bodies :: exists k :: 0 <= k < i && request.layout[k].id == id
    {
      var node := request.layout[i];
      var body := if RefreshesNote(request) && node.isNote && node.id == request.key.value.node
                  then refreshed.value.text else previews[node.id];
      bodies := bodies[node.id := body];
    }
    return Ok(ScanResult(request.workspace, request.key, request.note, refreshed, bodies));
  }

  /** What a scan may deliver. */
  ghost predicate IsOutcome(outcome: ScanOutcome, request: Request, file: File, previews: map<NodeId, Text>) {
    if RefreshesNote(request) && ReadNote(file).Err? then outcome == Err(ReadNote(file).error)
    else
      && outcome.Ok?
      && outcome.value.workspace == request.workspace
      && outcome.value.key == request.key
      && outcome.value.original == request.note
      && outcome.value.refreshed == RefreshedNote(request, file)
      && AreBodies(outcome.value.bodies, request, file, previews)
  }
}
