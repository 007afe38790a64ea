/** Runs of the note editor: the user's edits, saves and reloads, writes by others, and background scans that read
    the disk at one time and are delivered at another, in any order, while one note stays selected. */
module NoteRuns {
  import opened Wrappers
  import opened NoteBuffer
  import opened ContextNodes

  /** A scan that has not read the disk yet, or one on its way back. A lost one has failed without a result. */
  datatype Job =
    | Pending(request: Request)
    | Done(request: Request, file: File, previews: map<NodeId, Text>, outcome: ScanOutcome)

  /** `home` is the directory of the selected note, `disk` what stands at the note's path in each directory. */
  datatype World = World(ui: Ui, active: Option<Active>, home: Option<Directory>, disk: map<Directory, File>,
                         jobs: seq<Job>)

  datatype Event =
    | Environment(active: Option<Active>, home: Option<Directory>)
    | OutsideWrite(directory: Directory, file: File)
    | Edit(text: Text)
    | Save(overwrite: bool, intrusion: Option<File>, written: bool)
    | Reload
    | Tick
    | RunScan(job: nat, previews: map<NodeId, Text>, outcome: ScanOutcome)
    | LoseScan(job: nat)
    | Deliver(job: nat)

  function FileAt(disk: map<Directory, File>, directory: Directory): File {
    if directory in disk then disk[directory] else Missing
  }

  function HomeFile(w: World): Option<File> {
    if w.home.None? then None else Some(FileAt(w.disk, w.home.value))
  }

  /** An intrusion is a write by somebody else between the check of a save and its own write. */
  function AfterIntrusion(w: World, intrusion: Option<File>): map<Directory, File> {
    if w.home.None? || intrusion.None? then w.disk else w.disk[w.home.value := intrusion.value]
  }

  function DiskAfterSave(w: World, overwrite: bool, intrusion: Option<File>, written: bool): map<Directory, File> {
    if WritesNote(w.ui, overwrite, HomeFile(w)) && written
    then AfterIntrusion(w, intrusion)[w.home.value := Contents(w.ui.note.value.text)]
    else AfterIntrusion(w, intrusion)
  }

  predicate HasJob(w: World, job: nat, pending: bool) {
    job < |w.jobs| && w.jobs[job].Pending? == pending
  }

  ghost function Step(w: World, e: Event): World {
    match e
    case Environment(active, home) => w.(active := active, home := home)
    case OutsideWrite(directory, file) => w.(disk := w.disk[directory := file])
    case Edit(text) => w.(ui := AfterEdit(w.ui, text))
    case Save(overwrite, intrusion, written) =>
      w.(ui := AfterSave(w.ui, overwrite, HomeFile(w), written), disk := DiskAfterSave(w, overwrite, intrusion, written))
    case Reload => w.(ui := AfterReload(w.ui, HomeFile(w)))
    case Tick =>
      var jobs := if StartsScan(w.ui, w.active) then [Pending(RequestFor(w.ui, w.active.value))] else [];
      w.(ui := AfterTick(w.ui, w.active), jobs := w.jobs + jobs)
    case RunScan(job, previews, outcome) =>
      if !HasJob(w, job, true) then w
      else
        var request := w.jobs[job].request;
        var file := FileAt(w.disk, request.directory);
        if !IsOutcome(outcome, request, file, previews) then w
        else w.(jobs := w.jobs[job := Done(request, file, previews, outcome)])
    case LoseScan(job) =>
      if !HasJob(w, job, true) then w
      else w.(jobs := w.jobs[job := Done(w.jobs[job].request, Unreadable, map[], Err(Io))])
    case Deliver(job) =>
      if !HasJob(w, job, false) then w
      else w.(ui := AfterScan(w.ui, w.jobs[job].outcome, if w.active.None? then None else Some(w.active.value.id)),
              jobs := w.jobs[..job] + w.jobs[job + 1..])
  }

  ghost function Run(w: World, events: seq<Event>): World
    decreases events
  {
    if events == [] then w else Run(Step(w, events[0]), events[1..])
  }

  /** Right after the selected note was opened. A scan for an earlier selection may still be under way. */
  ghost predicate Opened(w: World) {
    && w.ui.key.Some?
    && (exists content :: IsRead(content) && w.ui.note == Some(Loaded(content)) && w.ui.editor == content.text)
    && (if w.ui.busy then |w.jobs| == 1 && IsSound(w.jobs[0]) else w.jobs == [])
  }

  predicate IsRead(content: NoteContent) {
    content.revision == Present(content.text) || content == NoteContent([], NoFile)
  }

  /** A job carries what its task could have computed. */
  ghost predicate IsSound(job: Job) {
    && (job.request.note.Some? ==> Honest(job.request.note.value))
    && (job.Done? ==> job.outcome.Err? || IsOutcome(job.outcome, job.request, job.file, job.previews))
  }

  ghost predicate Inv(w: World) {
    && w.ui.key.Some? && w.ui.note.Some?
    && Honest(w.ui.note.value)
    && w.ui.editor == w.ui.note.value.text
    && (if w.ui.busy then |w.jobs| == 1 && IsSound(w.jobs[0]) else w.jobs == [])
  }

  lemma DeliveryKeepsInvariant(w: World, job: nat)
    requires Inv(w) && HasJob(w, job, false)
    ensures Inv(Step(w, Deliver(job)))
    ensures Step(w, Deliver(job)).ui.key == w.ui.key
  {
    var request := w.jobs[job].request;
    if w.jobs[job].outcome.Ok? && request.note.Some? {
      OperationsStayHonest(request.note.value, [], w.jobs[job].file, false, false);
    }
  }

  lemma SaveKeepsInvariant(w: World, e: Event)
    requires Inv(w) && e.Save?
    ensures Inv(Step(w, e))
    ensures Step(w, e).ui.key == w.ui.key
  {
    if w.home.Some? {
      OperationsStayHonest(w.ui.note.value, [], HomeFile(w).value, e.overwrite, e.written);
    }
  }

  lemma ReloadKeepsInvariant(w: World)
    requires Inv(w)
    ensures Inv(Step(w, Reload))
    ensures Step(w, Reload).ui.key == w.ui.key
  {
    if w.home.Some? {
      OperationsStayHonest(w.ui.note.value, [], HomeFile(w).value, false, false);
    }
  }

  lemma StepKeepsInvariant(w: World, e: Event)
    requires Inv(w)
    ensures Inv(Step(w, e))
    ensures Step(w, e).ui.key == w.ui.key
  {
    match e
    case Edit(text) => OperationsStayHonest(w.ui.note.value, text, Missing, false, false);
    case Save(_, _, _) => SaveKeepsInvariant(w, e);
    case Reload => ReloadKeepsInvariant(w);
    case Deliver(job) =>
      if HasJob(w, job, false) {
        DeliveryKeepsInvariant(w, job);
      }
    case _ =>
  }

  /** In every run: the buffer is honest, the editor shows its text, and a scan is under way exactly while the busy
      flag is up, never two. */
  lemma {:induction false} RunKeepsInvariant(w: World, events: seq<Event>)
    requires Inv(w)
    ensures Inv(Run(w, events)) && Run(w, events).ui.key == w.ui.key
    decreases events
  {
    if events != [] {
      StepKeepsInvariant(w, events[0]);
      RunKeepsInvariant(Step(w, events[0]), events[1..]);
    }
  }

  lemma OpenedIsSound(w: World)
    requires Opened(w)
    ensures Inv(w)
  {
  }

  /** A save that writes. */
  ghost predicate Writes(w: World, e: Event) {
    e.Save? && e.written && WritesNote(w.ui, e.overwrite, HomeFile(w))
  }

  /** One step of the main result below. */
  lemma UnsavedTextIsKept(w: World, e: Event)
    requires Inv(w) && w.ui.note.value.dirty
    requires !e.Edit? && !e.Reload?
    ensures Step(w, e).ui.note.value.text == w.ui.note.value.text
    ensures Step(w, e).ui.note.value.dirty || Writes(w, e)
  {
    StepKeepsInvariant(w, e);
  }

  /** Some save of the run wrote the text to the note's file. */
  ghost predicate SavedDuring(w: World, events: seq<Event>, text: Text)
    decreases events
  {
    events != [] &&
    (|| (Writes(w, events[0]) && FileAt(Step(w, events[0]).disk, w.home.value) == Contents(text))
     || SavedDuring(Step(w, events[0]), events[1..], text))
  }

  /** Unsaved text is never lost to anything but an edit or an explicit reload: it is still there, unsaved, at the
      end of any run without those, unless some save of the run wrote it to the file. */
  lemma {:induction false} UnsavedTextSurvives(w: World, events: seq<Event>)
    requires Inv(w) && w.ui.note.value.dirty
    requires forall e <- events :: !e.Edit? && !e.Reload?
    ensures var note := Run(w, events).ui.note;
            (note.Some? && note.value.text == w.ui.note.value.text && note.value.dirty)
            || SavedDuring(w, events, w.ui.note.value.text)
    decreases events
  {
    if events != [] {
      var e := events[0];
      assert e in events;
      UnsavedTextIsKept(w, e);
      StepKeepsInvariant(w, e);
      if !Writes(w, e) {
        UnsavedTextSurvives(Step(w, e), events[1..]);
      }
    }
  }

  /** Only saves and writes by others change a file. A save that does not overwrite writes only when the revision it
      reads is the recorded one; so it replaces nothing but the recorded content, unless somebody else's write came
      between its check and its own write. */
  lemma SaveIsGuarded(w: World, e: Event)
    requires Inv(w) && !e.OutsideWrite?
    requires e.Save? ==> e.intrusion.None? || !e.intrusion.value.Unreadable?
    ensures !Writes(w, e) ==> Step(w, e).disk == if e.Save? then AfterIntrusion(w, e.intrusion) else w.disk
    ensures Writes(w, e) ==>
              var file, replaced := HomeFile(w).value, FileAt(AfterIntrusion(w, e.intrusion), w.home.value);
              && !file.Unreadable?
              && (!e.overwrite ==> RevisionOf(file) == w.ui.note.value.observed)
              && (!e.overwrite ==> (RevisionOf(replaced) == w.ui.note.value.observed
                                    <==> e.intrusion.None? || RevisionOf(e.intrusion.value) == w.ui.note.value.observed))
              && FileAt(Step(w, e).disk, w.home.value) == Contents(w.ui.note.value.text)
              && (forall d :: d != w.home.value ==> FileAt(Step(w, e).disk, d) == FileAt(w.disk, d))
              && Step(w, e).ui.note == Some(Note(w.ui.note.value.text, Present(w.ui.note.value.text), false, None))
  {
    if Writes(w, e) {
      ReadIsHonest(HomeFile(w).value);
    }
  }

  /** A scan that comes back after the note has changed does not touch the note or the editor; one that does touch
      the text found a clean note and a file that differs from the recorded one. */
  lemma DeliveryIsGuarded(w: World, job: nat)
    requires Inv(w) && HasJob(w, job, false)
    ensures var was, now, request, file := w.ui.note.value, Step(w, Deliver(job)).ui, w.jobs[job].request, w.jobs[job].file;
            && now.note.Some?
            && (request.note != Some(was) ==> now.note == w.ui.note && now.editor == w.ui.editor)
            && (now.note.value.text != was.text ==>
                  !was.dirty && ReadNote(file).Ok? && now.note == Some(Loaded(ReadNote(file).value))
                  && ReadNote(file).value.revision != was.observed)
            && !now.busy
  {
    StepKeepsInvariant(w, Deliver(job));
  }

  /** When a scan of the note's own workspace is delivered there, the canvas shows the text that the buffer holds
      then, even when the buffer moved on while the scan was under way. */
  lemma DeliveryShowsTheNote(w: World, job: nat, node: ContextNode)
    requires Inv(w) && HasJob(w, job, false) && w.jobs[job].outcome.Ok?
    requires w.active.Some? && w.active.value.id == w.jobs[job].request.workspace == w.ui.key.value.workspace
    requires node in w.jobs[job].request.layout && node.isNote && node.id == w.ui.key.value.node
    ensures var now := Step(w, Deliver(job)).ui;
            now.note.Some? && node.id in now.bodies && now.bodies[node.id] == now.note.value.text
  {
    var request := w.jobs[job].request;
    assert IsOutcome(w.jobs[job].outcome, request, w.jobs[job].file, w.jobs[job].previews);
    assert node.id in w.jobs[job].outcome.value.bodies;
    assert w.jobs[job].outcome.value.bodies[node.id] == BodyOf(request, w.jobs[job].file, w.jobs[job].previews, node);
  }

  /** The canvas is redrawn whenever what it shows of the files changes. */
  lemma BodiesChangeIsCounted(w: World, e: Event)
    requires Inv(w) && w.ui.canvasRevision <= U64_MAX
    ensures Step(w, e).ui.bodies != w.ui.bodies ==> Step(w, e).ui.canvasRevision != w.ui.canvasRevision
  {
  }

  /** What a finished scan is about to deliver: it found a clean note, unchanged since, and a file that it could read. */
  ghost predicate IsFreshDelivery(w: World, job: nat, node: ContextNode) {
    && HasJob(w, job, false) && w.jobs[job].outcome.Ok? && ReadNote(w.jobs[job].file).Ok?
    && w.ui.key.Some? && w.active.Some? && w.active.value.id == w.jobs[job].request.workspace == w.ui.key.value.workspace
    && w.jobs[job].request.key == w.ui.key && w.jobs[job].request.note == w.ui.note
    && node in w.jobs[job].request.layout && node.isNote && node.id == w.ui.key.value.node
  }

  lemma DeliveryBringsUpToDate(w: World, job: nat, node: ContextNode)
    requires Inv(w) && !w.ui.note.value.dirty && IsFreshDelivery(w, job, node)
    ensures var now := Step(w, Deliver(job)).ui;
            var content := ReadNote(w.jobs[job].file).value;
            && now.note.Some? && now.note.value.text == content.text && now.note.value.observed == content.revision
            && now.editor == content.text
            && node.id in now.bodies && now.bodies[node.id] == content.text
            && !now.busy
  {
    ReadIsHonest(w.jobs[job].file);
    StepKeepsInvariant(w, Deliver(job));
    DeliveryShowsTheNote(w, job, node);
  }

  /** A scan brings a clean buffer up to date: a tick that is due, the scan, and its delivery leave it with what the
      file held at the scan, and the editor and the canvas with the same. */
  lemma ScanBringsUpToDate(w: World, previews: map<NodeId, Text>, outcome: ScanOutcome, node: ContextNode)
    requires Inv(w) && !w.ui.busy && (w.ui.ticks + 1) % 256 % 5 == 0 && !w.ui.note.value.dirty
    requires w.active.Some? && w.active.value.id == w.ui.key.value.workspace && w.active.value.directory.Some?
    requires node in w.active.value.layout && node.isNote && node.id == w.ui.key.value.node
    requires ReadNote(FileAt(w.disk, w.active.value.directory.value)).Ok?
    requires IsOutcome(outcome, RequestFor(w.ui, w.active.value), FileAt(w.disk, w.active.value.directory.value), previews)
    ensures var content := ReadNote(FileAt(w.disk, w.active.value.directory.value)).value;
            var now := Step(Step(Step(w, Tick), RunScan(0, previews, outcome)), Deliver(0)).ui;
            && now.note.Some? && now.note.value.text == content.text && now.note.value.observed == content.revision
            && now.editor == content.text
            && node.id in now.bodies && now.bodies[node.id] == content.text
            && !now.busy
  {
    var ticked := Step(w, Tick);
    StepKeepsInvariant(w, Tick);
    ScanIsFresh(ticked, previews, outcome, node);
    DeliveryBringsUpToDate(Step(ticked, RunScan(0, previews, outcome)), 0, node);
  }

  /** A scan of a note that has not changed since the tick ends with a fresh delivery. */
  lemma ScanIsFresh(w: World, previews: map<NodeId, Text>, outcome: ScanOutcome, node: ContextNode)
    requires Inv(w) && HasJob(w, 0, true)
    requires var request := w.jobs[0].request;
             && request.key == w.ui.key && request.note == w.ui.note
             && w.active.Some? && w.active.value.id == request.workspace == w.ui.key.value.workspace
             && node in request.layout && node.isNote && node.id == w.ui.key.value.node
             && ReadNote(FileAt(w.disk, request.directory)).Ok?
             && IsOutcome(outcome, request, FileAt(w.disk, request.directory), previews)
    ensures var scanned := Step(w, RunScan(0, previews, outcome));
            && Inv(scanned) && scanned.ui == w.ui && IsFreshDelivery(scanned, 0, node)
            && scanned.jobs[0].file == FileAt(w.disk, w.jobs[0].request.directory)
  {
    StepKeepsInvariant(w, RunScan(0, previews, outcome));
  }

  // ----- What a buffer records was really there -----

  function RevisionsOnDisk(disk: map<Directory, File>): set<Revision> {
    set d | d in disk && !disk[d].Unreadable? :: RevisionOf(disk[d])
  }

  /** Every revision that stood at the note's path, in some directory, at some time of the run. */
  ghost function Seen(w: World, events: seq<Event>): set<Revision>
    decreases events
  {
    {NoFile} + RevisionsOnDisk(w.disk) + (if events == [] then {} else Seen(Step(w, events[0]), events[1..]))
  }

  ghost predicate IsTracedNote(note: Option<Note>, seen: set<Revision>) {
    note.Some? ==> note.value.observed in seen
  }

  ghost predicate IsTracedJob(job: Job, seen: set<Revision>) {
    && IsTracedNote(job.request.note, seen)
    && (job.Done? && !job.file.Unreadable? ==> RevisionOf(job.file) in seen)
  }

  ghost predicate Traced(w: World, seen: set<Revision>) {
    && NoFile in seen && RevisionsOnDisk(w.disk) <= seen
    && IsTracedNote(w.ui.note, seen)
    && (forall job <- w.jobs :: IsTracedJob(job, seen))
  }

  lemma FileIsTraced(disk: map<Directory, File>, directory: Directory, seen: set<Revision>)
    requires NoFile in seen && RevisionsOnDisk(disk) <= seen
    ensures var file := FileAt(disk, directory); !file.Unreadable? ==> RevisionOf(file) in seen
  {
    if directory in disk && !disk[directory].Unreadable? {
      assert RevisionOf(disk[directory]) in RevisionsOnDisk(disk);
    }
  }

  lemma JobStepKeepsTraced(w: World, e: Event, seen: set<Revision>)
    requires Inv(w) && Traced(w, seen)
    requires e.RunScan? || e.LoseScan? || e.Deliver?
    ensures Traced(Step(w, e), seen)
  {
    if e.job < |w.jobs| {
      assert w.jobs[e.job] in w.jobs;
      FileIsTraced(w.disk, w.jobs[e.job].request.directory, seen);
    }
  }

  lemma SaveKeepsTraced(w: World, e: Event, seen: set<Revision>)
    requires Inv(w) && Traced(w, seen) && e.Save?
    ensures Traced(Step(w, e), seen + RevisionsOnDisk(Step(w, e).disk))
  {
    var now := Step(w, e);
    if Writes(w, e) {
      assert now.disk[w.home.value] == Contents(w.ui.note.value.text);
      assert RevisionOf(now.disk[w.home.value]) in RevisionsOnDisk(now.disk);
    }
  }

  lemma StepKeepsTraced(w: World, e: Event, seen: set<Revision>)
    requires Inv(w) && Traced(w, seen)
    ensures Traced(Step(w, e), seen + RevisionsOnDisk(Step(w, e).disk))
  {
    if e.Save? {
      SaveKeepsTraced(w, e, seen);
    } else if e.RunScan? || e.LoseScan? || e.Deliver? {
      JobStepKeepsTraced(w, e, seen);
    } else if w.home.Some? {
      FileIsTraced(w.disk, w.home.value, seen);
    }
  }

  lemma {:induction false} RunKeepsTraced(w: World, events: seq<Event>, seen: set<Revision>)
    requires Inv(w) && Traced(w, seen)
    ensures Traced(Run(w, events), seen + Seen(w, events))
    decreases events
  {
    if events != [] {
      var next := Step(w, events[0]);
      StepKeepsTraced(w, events[0], seen);
      StepKeepsInvariant(w, events[0]);
      RunKeepsTraced(next, events[1..], seen + RevisionsOnDisk(next.disk));
      assert seen + RevisionsOnDisk(next.disk) + Seen(next, events[1..]) <= seen + Seen(w, events);
    }
  }

  /** The revision that a buffer records, and by which its saves are guarded, is one that really stood at the note's
      path at some time since the note was opened. */
  lemma RecordedWasOnDisk(w: World, events: seq<Event>)
    requires Opened(w) && !w.ui.busy
    requires w.ui.note.value.observed in {NoFile} + RevisionsOnDisk(w.disk)
    ensures var note := Run(w, events).ui.note; note.Some? && note.value.observed in Seen(w, events)
  {
    OpenedIsSound(w);
    var start := {NoFile} + RevisionsOnDisk(w.disk);
    RunKeepsTraced(w, events, start);
    assert start + Seen(w, events) == Seen(w, events);
    RunKeepsInvariant(w, events);
  }

  // ----- A note that cannot be read -----

  /** Nobody but the buffer writes the file in this directory. */
  predicate LeavesFile(e: Event, directory: Directory) {
    && (e.OutsideWrite? ==> e.directory != directory)
    && (e.Save? ==> e.intrusion.None?)
  }

  /** In this state neither saving, overwriting or not, nor reloading does anything. */
  ghost predicate IsStuck(w: World) {
    forall e: Event :: e.Save? || e.Reload? ==> !Writes(w, e) && Step(w, e).ui == w.ui
  }

  lemma UnreadableIsStuck(w: World)
    requires w.home.Some? && ReadNote(FileAt(w.disk, w.home.value)).Err?
    ensures IsStuck(w)
  {
  }

  /** A file that does not read as a note stays as it is through any run in which nobody else writes it, and as long
      as the note lives there, every save and reload fails. */
  lemma {:induction false} UnreadableStaysUnreadable(w: World, events: seq<Event>, directory: Directory)
    requires ReadNote(FileAt(w.disk, directory)).Err?
    requires forall e <- events :: LeavesFile(e, directory)
    ensures FileAt(Run(w, events).disk, directory) == FileAt(w.disk, directory)
    ensures Run(w, events).home == Some(directory) ==> IsStuck(Run(w, events))
    decreases events
  {
    if events == [] {
      if w.home == Some(directory) {
        UnreadableIsStuck(w);
      }
    } else {
      assert events[0] in events;
      assert forall e <- events[1..] :: e in events;
      assert FileAt(Step(w, events[0]).disk, directory) == FileAt(w.disk, directory);
      UnreadableStaysUnreadable(Step(w, events[0]), events[1..], directory);
    }
  }

  /** So a note saved with too long a text or with a zero byte is stuck in every run that follows, until somebody
      else writes its file; and a note saved with any other text is never stuck right after. */
  lemma SavedNoteIsStuckIffUnreadable(w: World, e: Event, events: seq<Event>)
    requires Inv(w) && Writes(w, e)
    requires forall later <- events :: LeavesFile(later, w.home.value)
    ensures var text, now := w.ui.note.value.text, Run(Step(w, e), events);
      && (|text| > MAX_TEXT_PREVIEW_BYTES || 0 in text ==> now.home == w.home ==> IsStuck(now))
      && (|text| <= MAX_TEXT_PREVIEW_BYTES && 0 !in text && IsUtf8(text) ==> !IsStuck(Step(w, e)))
  {
    var text, saved := w.ui.note.value.text, Step(w, e);
    var file := FileAt(saved.disk, w.home.value);
    assert file == Contents(text);
    if |text| > MAX_TEXT_PREVIEW_BYTES || 0 in text {
      UnreadableStaysUnreadable(saved, events, w.home.value);
    } else if IsUtf8(text) {
      assert Writes(saved, Save(false, None, true));
    }
  }
}
