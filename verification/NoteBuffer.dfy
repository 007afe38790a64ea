/** A note node's editing buffer over a file that others may write: optimistic concurrency by content hash. The
    hash is taken to be injective, so a revision carries the content itself. */
module NoteBuffer {
  import opened Wrappers

  /** A string in its encoding. */
  type Text = seq<Byte>

  const MAX_TEXT_PREVIEW_BYTES: nat := 1_048_576

  predicate IsContinuation(bytes: seq<Byte>, at: nat) {
    at < |bytes| && 128 <= bytes[at] < 192
  }

  /** How long the well-formed character at the start of the bytes is: 0 when there is none (RFC 3629, section 4). */
  function CharacterLength(bytes: seq<Byte>): (length: nat)
    requires bytes != []
    ensures length <= |bytes|
  {
    var lead := bytes[0];
    if lead < 128 then 1
    else if !IsContinuation(bytes, 1) then 0
    else if 194 <= lead < 224 then 2
    else if !IsContinuation(bytes, 2) then 0
    else if 224 <= lead < 240 && !(lead == 224 && bytes[1] < 160) && !(lead == 237 && bytes[1] >= 160) then 3
    else if !IsContinuation(bytes, 3) then 0
    else if 240 <= lead < 245 && !(lead == 240 && bytes[1] < 144) && !(lead == 244 && bytes[1] >= 144) then 4
    else 0
  }

  predicate IsUtf8(bytes: seq<Byte>) {
    bytes == [] ||
    (var length := CharacterLength(bytes); length > 0 && IsUtf8(bytes[length..]))
  }

  /** What stands at a path: nothing, some bytes, or something that cannot be opened or read. */
  datatype File = Missing | Contents(bytes: seq<Byte>) | Unreadable

  datatype Revision = NoFile | Present(bytes: seq<Byte>)

  function RevisionOf(file: File): Revision
    requires !file.Unreadable?
  {
    if file.Missing? then NoFile else Present(file.bytes)
  }

  datatype FileError =
    | Io
    | BinaryNote
    | TooLarge(size: nat, limit: nat)
    | Conflict(expected: Revision, actual: Revision)

  datatype NoteContent = NoteContent(text: Text, revision: Revision)

  /** What a file reads as for a note; a missing file reads as an empty one. */
  function ReadNote(file: File): Result<NoteContent, FileError> {
    match file
    case Missing => Ok(NoteContent([], NoFile))
    case Unreadable => Err(Io)
    case Contents(bytes) =>
      if |bytes| > MAX_TEXT_PREVIEW_BYTES then Err(TooLarge(|bytes|, MAX_TEXT_PREVIEW_BYTES))
      else if 0 in bytes || !IsUtf8(bytes) then Err(BinaryNote)
      else Ok(NoteContent(bytes, Present(bytes)))
  }

  datatype Note = Note(text: Text, observed: Revision, dirty: bool, externalChange: Option<Revision>)

  // ----- What the operations do -----

  function Loaded(content: NoteContent): Note {
    Note(content.text, content.revision, false, None)
  }

  function Edited(note: Note, text: Text): Note {
    if note.text == text then note else note.(text := text, dirty := true)
  }

  /** Taking over what is on disk, unless there are edits to lose. */
  function Refreshed(note: Note, file: File): Note {
    match ReadNote(file)
    case Err(_) => note
    case Ok(content) =>
      if content.revision == note.observed then note
      else if note.dirty then note.(externalChange := Some(content.revision))
      else Loaded(content)
  }

  function Reloaded(note: Note, file: File): Note {
    match ReadNote(file)
    case Err(_) => note
    case Ok(content) => Loaded(content)
  }

  /** Whether saving goes on to write the file, given what it reads first. */
  predicate MayWrite(note: Note, overwrite: bool, file: File) {
    ReadNote(file).Ok? && (overwrite || ReadNote(file).value.revision == note.observed)
  }

  function Saved(note: Note, overwrite: bool, file: File, written: bool): Note {
    if ReadNote(file).Err? then note
    else if !MayWrite(note, overwrite, file) then note.(externalChange := Some(ReadNote(file).value.revision))
    else if !written then note
    else Note(note.text, Present(note.text), false, None)
  }

  /** The buffer. Each operation that touches the file is given what it reads there; `Save` also whether the
      atomic write succeeds, and says whether it wrote. */
  class NoteBuffer {
    var text: Text
    var observed: Revision
    var dirty: bool
    var externalChange: Option<Revision>

    function View(): Note
      reads this
    {
      Note(text, observed, dirty, externalChange)
    }

    constructor (note: Note)
      ensures View() == note
    {
      text, observed, dirty, externalChange := note.text, note.observed, note.dirty, note.externalChange;
    }

    static method Load(file: File) returns (result: Result<NoteBuffer, FileError>)
      ensures result.Ok? <==> ReadNote(file).Ok?
      ensures result.Ok? ==> fresh(result.value) && result.value.View() == Loaded(ReadNote(file).value)
      ensures match file
              case Missing => result.Ok? && result.value.View() == Note([], NoFile, false, None)
              case Unreadable => result == Err(Io)
              case Contents(bytes) =>
                if |bytes| > 1_048_576 then result == Err(TooLarge(|bytes|, 1_048_576))
                else if 0 in bytes || !IsUtf8(bytes) then result == Err(BinaryNote)
                else result.Ok? && result.value.View() == Note(bytes, Present(bytes), false, None)
    {
      var content := ReadNote(file);
      if content.Err? {
        return Err(content.error);
      }
      var note := new NoteBuffer(Note(content.value.text, content.value.revision, false, None));
      return Ok(note);
    }

    method Edit(newText: Text)
      modifies this
      ensures View() == Edited(old(View()), newText)
      ensures text == newText && dirty == (old(dirty) || newText != old(text))
      ensures observed == old(observed) && externalChange == old(externalChange)
    {
      if text != newText {
        text := newText;
        dirty := true;
      }
    }

    /** Returns whether the text was taken over. */
    method Refresh(file: File) returns (result: Result<bool, FileError>)
      modifies this
      ensures View() == Refreshed(old(View()), file)
      ensures if ReadNote(file).Err? then result == Err(ReadNote(file).error) && View() == old(View()) else result.Ok?
      ensures result.Ok? ==>
                var content := ReadNote(file).value;
                View() == if content.revision == old(observed) then old(View())
                          else if old(dirty) then old(View()).(externalChange := Some(content.revision))
                          else Note(content.text, content.revision, false, None)
      ensures result.Ok? ==> (result.value <==> !old(dirty) && ReadNote(file).value.revision != old(observed))
    {
      var content := ReadNote(file);
      if content.Err? {
        return Err(content.error);
      }
      if content.value.revision == observed {
        return Ok(false);
      }
      if dirty {
        externalChange := Some(content.value.revision);
        return Ok(false);
      }
      text, observed, externalChange := content.value.text, content.value.revision, None;
      return Ok(true);
    }

    method ReloadDiscardingEdits(file: File) returns (result: Result<(), FileError>)
      modifies this
      ensures View() == Reloaded(old(View()), file)
      ensures if ReadNote(file).Err? then result == Err(ReadNote(file).error) && View() == old(View())
              else result.Ok? && View() == Note(ReadNote(file).value.text, ReadNote(file).value.revision, false, None)
    {
      var content := ReadNote(file);
      if content.Err? {
        return Err(content.error);
      }
      text, observed, dirty, externalChange := content.value.text, content.value.revision, false, None;
      return Ok(());
    }

    method Save(overwrite: bool, file: File, written: bool) returns (result: Result<(), FileError>)
      modifies this
      ensures View() == Saved(old(View()), overwrite, file, written)
      ensures result.Ok? <==> MayWrite(old(View()), overwrite, file) && written
      ensures result.Ok?
         <==> && written && ReadNote(file).Ok?
              && (overwrite || ReadNote(file).value.revision == old(observed))
      ensures text == old(text)
      ensures result.Ok? ==> observed == Present(text) && !dirty && externalChange == None
      ensures result.Err? ==> observed == old(observed) && dirty == old(dirty)
      ensures result.Err? && result.error.Conflict? ==>
                && !overwrite && ReadNote(file).Ok?
                && result.error == Conflict(old(observed), ReadNote(file).value.revision)
                && result.error.expected != result.error.actual
    {
      var content := ReadNote(file);
      if content.Err? {
        return Err(content.error);
      }
      if !overwrite && content.value.revision != observed {
        externalChange := Some(content.value.revision);
        return Err(Conflict(observed, content.value.revision));
      }
      if !written {
        return Err(Io);
      }
      observed, dirty, externalChange := Present(text), false, None;
      return Ok(());
    }
  }

  // ----- What a buffer records -----

  /** A buffer without edits shows the revision it recorded, and it reports no other revision than a foreign one. */
  ghost predicate Honest(note: Note) {
    && (!note.dirty ==> note.observed == Present(note.text) || (note.observed == NoFile && note.text == []))
    && (note.externalChange.Some? ==> note.externalChange.value != note.observed)
  }

  lemma ReadIsHonest(file: File)
    requires ReadNote(file).Ok?
    ensures Honest(Loaded(ReadNote(file).value))
    ensures RevisionOf(file) == ReadNote(file).value.revision
  {
  }

  lemma OperationsStayHonest(note: Note, text: Text, file: File, overwrite: bool, written: bool)
    requires Honest(note)
    ensures Honest(Edited(note, text))
    ensures Honest(Refreshed(note, file))
    ensures Honest(Reloaded(note, file))
    ensures Honest(Saved(note, overwrite, file, written))
  {
  }

  /** A saved note reads back as it was exactly when it is within the size limit and holds no zero byte (that it is
      UTF-8 is given of a string): saving checks neither, and the file it leaves behind otherwise can no longer be
      opened as a note. */
  lemma SavedNoteReadsBack(note: Note, overwrite: bool, file: File)
    requires MayWrite(note, overwrite, file)
    ensures var saved := Saved(note, overwrite, file, true);
            ReadNote(Contents(note.text)) == Ok(NoteContent(saved.text, saved.observed))
            <==> |note.text| <= MAX_TEXT_PREVIEW_BYTES && 0 !in note.text && IsUtf8(note.text)
    ensures ReadNote(Contents(note.text)).Ok?
       <==> |note.text| <= MAX_TEXT_PREVIEW_BYTES && 0 !in note.text && IsUtf8(note.text)
  {
  }

  /** A note of a single zero byte is saved over a missing file, and the file then reads as binary. */
  lemma ZeroByteIsSavedAndLost()
    ensures var note := Note([0], NoFile, true, None);
      && IsUtf8(note.text) && MayWrite(note, false, Missing)
      && Saved(note, false, Missing, true) == Note([0], Present([0]), false, None)
      && ReadNote(Contents(note.text)) == Err(BinaryNote)
  {
    var text: Text := [0];
    assert text[1..] == [];
    assert 0 in text;
  }
}
