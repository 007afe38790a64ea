/** What each step of the note editor brings about, stated on the note, the editor, the canvas and the disk. The
    theorems about runs say what never happens besides. */
module NoteEffects {
  import opened Wrappers
  import opened NoteBuffer
  import opened ContextNodes
  import opened NoteRuns

  /** A save writes exactly when the atomic write succeeds, the file reads as a note, and either overwriting is asked
      for or the file is still at the recorded revision. It then leaves the note's text in the file and the note clean
      at it. Any other save keeps the text, the edits and the recorded revision, and leaves the disk to the others; a
      file that moved on is reported. */
  lemma SaveWritesExactly(w: World, overwrite: bool, intrusion: Option<File>, written: bool)
    requires w.ui.key.Some? && w.ui.note.Some? && w.home.Some?
    ensures var home, note, now := w.home.value, w.ui.note.value, Step(w, Save(overwrite, intrusion, written));
            var content := ReadNote(if home in w.disk then w.disk[home] else Missing);
            var disk := if intrusion.Some? then w.disk[home := intrusion.value] else w.disk;
            && now == w.(ui := w.ui.(note := now.ui.note), disk := now.disk)
            && if written && content.Ok? && (overwrite || content.value.revision == note.observed) then
                 && now.disk == disk[home := Contents(note.text)]
                 && now.ui.note == Some(Note(note.text, Present(note.text), false, None))
               else
                 && now.disk == disk
                 && now.ui.note == Some(note.(externalChange :=
                      if content.Ok? && !overwrite && content.value.revision != note.observed
                      then Some(content.value.revision) else note.externalChange))
  {
  }

  /** Without a selected note, or without its directory, a save does nothing, and the disk is left to the others. */
  lemma SaveNeedsNote(w: World, overwrite: bool, intrusion: Option<File>, written: bool)
    requires w.ui.key.None? || w.ui.note.None? || w.home.None?
    ensures Step(w, Save(overwrite, intrusion, written))
         == if w.home.Some? && intrusion.Some? then w.(disk := w.disk[w.home.value := intrusion.value]) else w
  {
  }

  /** After a conflict, saving once more with overwriting writes the text, whatever the other write was, as long as it
      reads as a note. */
  lemma OverwritingResolvesConflict(w: World)
    requires w.ui.key.Some? && w.ui.note.Some? && w.home.Some?
    requires w.home.value in w.disk && ReadNote(w.disk[w.home.value]).Ok?
    requires ReadNote(w.disk[w.home.value]).value.revision != w.ui.note.value.observed
    ensures var home, note := w.home.value, w.ui.note.value;
            var refused := Step(w, Save(false, None, true));
            var now := Step(refused, Save(true, None, true));
            && refused.disk == w.disk && refused.ui.note.Some?
            && refused.ui.note.value.text == note.text && refused.ui.note.value.dirty == note.dirty
            && refused.ui.note.value.observed == note.observed
            && refused.ui.note.value.externalChange == Some(ReadNote(w.disk[home]).value.revision)
            && now.disk == w.disk[home := Contents(note.text)]
            && now.ui.note == Some(Note(note.text, Present(note.text), false, None))
  {
    SaveWritesExactly(w, false, None, true);
    SaveWritesExactly(Step(w, Save(false, None, true)), true, None, true);
  }

  /** An edit shows in the editor, in the note, which is dirty from the first difference on, and on the canvas. */
  lemma EditIsShown(w: World, text: Text)
    requires w.ui.key.Some? && w.ui.note.Some?
    ensures var note, now := w.ui.note.value, Step(w, Edit(text));
            now == w.(ui := w.ui.(
              editor := text,
              note := Some(Note(text, note.observed, note.dirty || text != note.text, note.externalChange)),
              bodies := w.ui.bodies[w.ui.key.value.node := text],
              canvasRevision := (w.ui.canvasRevision + 1) % 0x1_0000_0000_0000_0000))
  {
  }

  /** A reload takes over what the file reads as, edits or not; when it reads as nothing, it does nothing. */
  lemma ReloadTakesOver(w: World)
    requires w.ui.key.Some? && w.ui.note.Some? && w.home.Some?
    ensures var home := w.home.value;
            var content := ReadNote(if home in w.disk then w.disk[home] else Missing);
            Step(w, Reload)
            == if content.Err? then w
               else w.(ui := w.ui.(note := Some(Note(content.value.text, content.value.revision, false, None)),
                                   editor := content.value.text))
  {
  }

  /** Every fifth tick asks for a scan of the active workspace with the note as it is, unless one is under way or the
      workspace has no directory. */
  lemma TickAsksForScan(w: World)
    ensures var ticks := (w.ui.ticks + 1) % 256;
            Step(w, Tick)
            == if !w.ui.busy && ticks % 5 == 0 && w.active.Some? && w.active.value.directory.Some? then
                 var active := w.active.value;
                 w.(ui := w.ui.(ticks := ticks, busy := true),
                    jobs := w.jobs + [Pending(Request(active.id, active.directory.value, active.layout, w.ui.key,
                                                      w.ui.note))])
               else w.(ui := w.ui.(ticks := ticks))
  {
  }

  /** A scan that failed, or that comes back to another workspace, changes nothing on the screen; the next may start. */
  lemma ForeignDeliveryChangesNothing(w: World, job: nat)
    requires job < |w.jobs| && w.jobs[job].Done?
    requires w.jobs[job].outcome.Err? || w.active.None?
             || w.active.value.id != w.jobs[job].outcome.value.workspace
    ensures Step(w, Deliver(job))
         == w.(ui := w.ui.(busy := false), jobs := w.jobs[..job] + w.jobs[job + 1..])
  {
  }

  /** The scan under way is about to come back to its own workspace, where it was started for the selected note. */
  ghost predicate ComesBack(w: World, job: nat) {
    && Inv(w) && job < |w.jobs| && w.jobs[job].Done? && w.jobs[job].outcome.Ok?
    && w.active.Some? && w.active.value.id == w.jobs[job].request.workspace
  }

  /** The canvas then shows what the scan read of every other node, and only nodes of the scanned layout besides the
      selected note. */
  lemma DeliveryShowsOthers(w: World, job: nat)
    requires ComesBack(w, job)
    ensures var request, now := w.jobs[job].request, Step(w, Deliver(job)).ui;
            && (forall node <- request.layout :: node.id != w.ui.key.value.node && request.key == w.ui.key ==>
                  && node.id in now.bodies && node.id in w.jobs[job].previews
                  && now.bodies[node.id] == w.jobs[job].previews[node.id])
            && (forall id <- now.bodies :: id == w.ui.key.value.node
                  || exists k :: 0 <= k < |request.layout| && request.layout[k].id == id)
  {
    var job := w.jobs[job];
    assert IsOutcome(job.outcome, job.request, job.file, job.previews);
    assert AreBodies(job.outcome.value.bodies, job.request, job.file, job.previews);
    forall node <- job.request.layout | job.request.key.Some? && node.id != job.request.key.value.node
      ensures BodyOf(job.request, job.file, job.previews, node) == job.previews[node.id]
    {
    }
  }

  /** A dirty note that has not changed since the scan began keeps its text and its edits; a file that moved on since
      the note recorded it is reported. */
  lemma DeliveryReportsChange(w: World, job: nat)
    requires ComesBack(w, job) && w.ui.note.value.dirty
    requires w.jobs[job].request.key == w.ui.key && w.jobs[job].request.note == w.ui.note
    requires w.jobs[job].request.workspace == w.ui.key.value.workspace
    ensures var note, file := w.ui.note.value, w.jobs[job].file;
            && ReadNote(file).Ok?
            && Step(w, Deliver(job)).ui.note
               == Some(if ReadNote(file).value.revision == note.observed then note
                       else note.(externalChange := Some(ReadNote(file).value.revision)))
  {
    var job := w.jobs[job];
    assert IsOutcome(job.outcome, job.request, job.file, job.previews);
  }

  /** A scan of another workspace than the selected note's leaves note and editor alone. */
  lemma DeliveryElsewhereKeepsNote(w: World, job: nat)
    requires ComesBack(w, job) && w.jobs[job].request.key == w.ui.key
    requires w.jobs[job].request.workspace != w.ui.key.value.workspace
    ensures Step(w, Deliver(job)).ui.note == w.ui.note && Step(w, Deliver(job)).ui.editor == w.ui.editor
  {
    var job := w.jobs[job];
    assert IsOutcome(job.outcome, job.request, job.file, job.previews);
  }

  /** A scan reads the disk as it is then, and nothing else of the state changes until it is delivered. */
  lemma ScanReadsDisk(w: World, job: nat, previews: map<NodeId, Text>, outcome: ScanOutcome)
    requires job < |w.jobs| && w.jobs[job].Pending?
    ensures var request := w.jobs[job].request;
            var file := if request.directory in w.disk then w.disk[request.directory] else Missing;
            Step(w, RunScan(job, previews, outcome))
            == if IsOutcome(outcome, request, file, previews)
               then w.(jobs := w.jobs[job := Done(request, file, previews, outcome)]) else w
  {
  }
}
