/** Canvas edits in the application: each recorded edit goes through the journal, and undo and redo move
    snapshots between two stacks. An active workspace is assumed throughout. */
module CanvasHistory {
  import opened Wrappers
  import opened CanvasLayout
  import CanvasSelection
  import CanvasAlignment
  import CanvasStructure
  import CanvasStacking
  import CanvasCopying
  import CanvasPasting

  class History {
    var undo: seq<Layout>
    var redo: seq<Layout>

    constructor ()
      ensures undo == [] && redo == []
    {
      undo, redo := [], [];
    }

    method Record(before: Layout)
      modifies this
      ensures undo == old(undo) + [before] && redo == []
    {
      undo := undo + [before];
      redo := [];
    }

    function UndoTarget(): Option<Layout>
      reads this
    {
      if undo == [] then None else Some(undo[|undo| - 1])
    }

    function RedoTarget(): Option<Layout>
      reads this
    {
      if redo == [] then None else Some(redo[|redo| - 1])
    }

    method CompleteUndo(current: Layout)
      modifies this
      ensures undo == Pop(old(undo)) && redo == old(redo) + [current]
    {
      undo := Pop(undo);
      redo := redo + [current];
    }

    method CompleteRedo(current: Layout)
      modifies this
      ensures redo == Pop(old(redo)) && undo == old(undo) + [current]
    {
      redo := Pop(redo);
      undo := undo + [current];
    }

    method Clear()
      modifies this
      ensures undo == [] && redo == []
    {
      undo, redo := [], [];
    }
  }

  /** The stack without its last entry; an empty stack stays empty. */
  function Pop(stack: seq<Layout>): seq<Layout> {
    if stack == [] then [] else stack[..|stack| - 1]
  }

  datatype Action =
    | Duplicate
    | Remove
    | Group
    | Ungroup
    | Align(alignment: CanvasAlignment.Alignment)
    | ZOrder(order: CanvasStacking.ZOrder)

  /** The canvas and the selection that an action asks for. */
  function Outcome(action: Action, canvas: Layout, selection: seq<nat>, all: Layout): (Layout, seq<nat>) {
    match action
    case Duplicate => CanvasCopying.Duplicated(canvas, selection, all)
    case Remove => (CanvasStructure.Remove(canvas, selection), [])
    case Group => (CanvasStructure.GroupNodes(canvas, selection, all), selection)
    case Ungroup => (CanvasStructure.Ungroup(canvas, selection), selection)
    case Align(alignment) => (CanvasAlignment.Align(canvas, selection, alignment), selection)
    case ZOrder(order) => (CanvasStacking.Restacked(canvas, selection, order), selection)
  }

  datatype Session = Session(canvas: Layout, preview: Option<Layout>, selection: seq<nat>, undo: seq<Layout>,
                             redo: seq<Layout>)

  /** What reaches the session. The flag says whether the domain and its journal accept a replacement that
      starts from the canvas they hold; a replacement that starts from any other canvas is a conflict. */
  datatype Event =
    | Act(action: Action, all: Layout, accepted: bool)
    | Paste(fragment: Layout, all: Layout, accepted: bool)
    | Connect(source: nat, target: nat, all: Layout, accepted: bool)
    | AddNode(node: Node, accepted: bool)
    | CommitDrag(before: Layout, after: Layout, accepted: bool)
    | PreviewDrag(layout: Layout)
    | Select(selected: seq<nat>)
    | Undo(accepted: bool)
    | Redo(accepted: bool)

  function Existing(layout: Layout): nat -> bool {
    (id: nat) => exists n <- layout.nodes :: n.id == id
  }

  /** An accepted edit replaces the canvas and is recorded; a refused one only ends the preview. */
  function Edited(s: Session, before: Layout, after: Layout, selection: seq<nat>, accepted: bool): Session {
    if accepted && s.canvas == before then Session(after, None, selection, s.undo + [before], [])
    else s.(preview := None)
  }

  function Step(s: Session, event: Event): Session {
    match event
    case Act(action, all, accepted) =>
      var (after, selection) := Outcome(action, s.canvas, s.selection, all);
      if s.canvas == after then s else Edited(s, s.canvas, after, selection, accepted)
    case Paste(fragment, all, accepted) =>
      var (after, selection) := CanvasCopying.Pasted(s.canvas, fragment, all);
      if s.canvas == after then s else Edited(s, s.canvas, after, selection, accepted)
    case Connect(source, target, all, accepted) =>
      var after := CanvasStructure.Connect(s.canvas, [source, target], all);
      if source == target || after.Err? then s
      else Edited(s, s.canvas, after.value, [source, target], accepted)
    case AddNode(node, accepted) =>
      if accepted then
        Session(NewLayout(s.canvas.nodes + [node], s.canvas.groups, s.canvas.connections), None, [node.id],
                s.undo + [s.canvas], [])
      else s
    case CommitDrag(before, after, accepted) => Edited(s, before, after, s.selection, accepted)
    case PreviewDrag(layout) => s.(preview := Some(layout))
    case Select(selected) => s.(selection := selected)
    case Undo(accepted) =>
      if s.undo == [] then s
      else if !accepted then s.(preview := None)
      else
        var target := s.undo[|s.undo| - 1];
        Session(target, None, Filter(s.selection, Existing(target)), Pop(s.undo), s.redo + [s.canvas])
    case Redo(accepted) =>
      if s.redo == [] then s
      else if !accepted then s.(preview := None)
      else
        var target := s.redo[|s.redo| - 1];
        Session(target, None, Filter(s.selection, Existing(target)), s.undo + [s.canvas], Pop(s.redo))
  }

  class CanvasSession {
    var canvas: Layout
    var preview: Option<Layout>
    var selection: seq<nat>
    const history: History

    function View(): Session
      reads this, history
    {
      Session(canvas, preview, selection, history.undo, history.redo)
    }

    constructor (canvas: Layout)
      ensures View() == Session(canvas, None, [], [], [])
      ensures fresh(history)
    {
      this.canvas, preview, selection := canvas, None, [];
      history := new History();
    }

    method PersistCanvas(before: Layout, after: Layout, accepted: bool) returns (ok: bool)
      modifies this
      ensures ok == (accepted && old(canvas) == before)
      ensures canvas == if ok then after else old(canvas)
      ensures preview == None && selection == old(selection)
    {
      preview := None;
      if !accepted || canvas != before {
        return false;
      }
      canvas := after;
      return true;
    }

    method ApplyAction(action: Action, all: Layout, accepted: bool)
      modifies this, history
      ensures View() == Step(old(View()), Act(action, all, accepted))
    {
      var before, newSelection, after := canvas, selection, canvas;
      match action {
        case Duplicate =>
          after, newSelection := CanvasCopying.Duplicate(before, newSelection, all);
        case Remove =>
          newSelection := [];
          after := CanvasStructure.Remove(before, selection);
        case Group =>
          after := CanvasStructure.GroupNodes(before, newSelection, all);
        case Ungroup =>
          after := CanvasStructure.Ungroup(before, newSelection);
        case Align(alignment) =>
          after := CanvasAlignment.Align(before, newSelection, alignment);
        case ZOrder(order) =>
          after := CanvasStacking.ChangeZOrder(before, newSelection, order);
      }
      if before == after {
        return;
      }
      var ok := PersistCanvas(before, after, accepted);
      if ok {
        history.Record(before);
        selection := newSelection;
      }
    }

    method PasteCanvasFragment(fragment: Layout, all: Layout, accepted: bool)
      modifies this, history
      ensures View() == Step(old(View()), Paste(fragment, all, accepted))
    {
      var before := canvas;
      var after, copied := CanvasCopying.PasteFragment(before, fragment, all);
      if before == after {
        return;
      }
      var ok := PersistCanvas(before, after, accepted);
      if ok {
        history.Record(before);
        selection := copied;
      }
    }

    method ConnectNodes(source: nat, target: nat, all: Layout, accepted: bool)
      modifies this, history
      ensures View() == Step(old(View()), Connect(source, target, all, accepted))
    {
      if source == target {
        return;
      }
      var before := canvas;
      var connected := CanvasStructure.Connect(before, [source, target], all);
      if connected.Ok? {
        var ok := PersistCanvas(before, connected.value, accepted);
        if ok {
          history.Record(before);
          selection := [source, target];
        }
      }
    }

    method Add(node: Node, accepted: bool)
      modifies this, history
      ensures View() == Step(old(View()), AddNode(node, accepted))
    {
      if accepted {
        var before := canvas;
        canvas := NewLayout(canvas.nodes + [node], canvas.groups, canvas.connections);
        history.Record(before);
        selection := [node.id];
        preview := None;
      }
    }

    method CommitLayout(before: Layout, after: Layout, accepted: bool)
      modifies this, history
      ensures View() == Step(old(View()), CommitDrag(before, after, accepted))
    {
      preview := None;
      var ok := PersistCanvas(before, after, accepted);
      if ok {
        history.Record(before);
      }
    }

    method UndoCanvas(accepted: bool)
      modifies this, history
      ensures View() == Step(old(View()), Undo(accepted))
    {
      var target := history.UndoTarget();
      if target.None? {
        return;
      }
      var current := canvas;
      var ok := PersistCanvas(current, target.value, accepted);
      if ok {
        history.CompleteUndo(current);
        selection := Filter(selection, Existing(target.value));
      }
    }

    method RedoCanvas(accepted: bool)
      modifies this, history
      ensures View() == Step(old(View()), Redo(accepted))
    {
      var target := history.RedoTarget();
      if target.None? {
        return;
      }
      var current := canvas;
      var ok := PersistCanvas(current, target.value, accepted);
      if ok {
        history.CompleteRedo(current);
        selection := Filter(selection, Existing(target.value));
      }
    }
  }

  // ----- The two stacks are one timeline with a cursor -----

  function Reverse(stack: seq<Layout>): seq<Layout> {
    seq(|stack|, i requires 0 <= i < |stack| => stack[|stack| - 1 - i])
  }

  datatype Timeline = Timeline(canvases: seq<Layout>, cursor: nat)

  function TimelineOf(s: Session): Timeline {
    Timeline(s.undo + [s.canvas] + Reverse(s.redo), |s.undo|)
  }

  datatype Move = Stay | Back | Forward | Branch(canvas: Layout)

  /** A timeline only ever moves its cursor, or forgets what lies ahead and grows by one canvas. */
  function Advance(t: Timeline, move: Move): Timeline
    requires t.cursor < |t.canvases|
  {
    match move
    case Stay => t
    case Back => if t.cursor == 0 then t else t.(cursor := t.cursor - 1)
    case Forward => if t.cursor + 1 == |t.canvases| then t else t.(cursor := t.cursor + 1)
    case Branch(canvas) => Timeline(t.canvases[..t.cursor + 1] + [canvas], t.cursor + 1)
  }

  /** How an event moves along the timeline. */
  function MoveOf(s: Session, event: Event): Move {
    match event
    case Undo(accepted) => if accepted then Back else Stay
    case Redo(accepted) => if accepted then Forward else Stay
    case PreviewDrag(_) => Stay
    case Select(_) => Stay
    case _ => if Step(s, event).undo == s.undo then Stay else Branch(Step(s, event).canvas)
  }

  /** The canvas shown and both stacks can be read off the timeline. */
  lemma TimelineDeterminesStacks(s: Session)
    ensures var t := TimelineOf(s);
      && t.cursor < |t.canvases|
      && s.canvas == t.canvases[t.cursor]
      && s.undo == t.canvases[..t.cursor]
      && s.redo == Reverse(t.canvases[t.cursor + 1..])
  {
    var t := TimelineOf(s);
    assert t.canvases[..t.cursor] == s.undo;
    assert t.canvases[t.cursor + 1..] == Reverse(s.redo);
    assert Reverse(Reverse(s.redo)) == s.redo;
  }

  /** What an event other than undo and redo does to the history. */
  lemma EditRecords(s: Session, event: Event)
    requires !event.Undo? && !event.Redo?
    ensures var now := Step(s, event);
            || (now.undo == s.undo && now.redo == s.redo && now.canvas == s.canvas)
            || (now.undo == s.undo + [s.canvas] && now.redo == [])
  {
  }

  lemma UndoMovesBack(s: Session)
    requires s.undo != []
    ensures TimelineOf(Step(s, Undo(true))) == TimelineOf(s).(cursor := |s.undo| - 1)
  {
    var s', t := Step(s, Undo(true)), TimelineOf(s);
    assert Reverse(s'.redo) == [s.canvas] + Reverse(s.redo);
    assert s.undo == s'.undo + [s'.canvas];
    assert TimelineOf(s').canvases == t.canvases;
  }

  lemma RedoMovesForward(s: Session)
    requires s.redo != []
    ensures TimelineOf(Step(s, Redo(true))) == TimelineOf(s).(cursor := |s.undo| + 1)
  {
    var s', t := Step(s, Redo(true)), TimelineOf(s);
    assert Reverse(s.redo) == [s'.canvas] + Reverse(s'.redo);
    assert TimelineOf(s').canvases == t.canvases;
  }

  /** An edit that is recorded drops what lies ahead and grows the timeline by its result. */
  lemma RecordBranches(s: Session, now: Session)
    requires now.undo == s.undo + [s.canvas] && now.redo == []
    ensures TimelineOf(now) == Advance(TimelineOf(s), Branch(now.canvas))
  {
    assert TimelineOf(s).canvases[..|s.undo| + 1] == s.undo + [s.canvas];
    assert Reverse(now.redo) == [];
  }

  /** Every event moves the timeline as stated: recorded edits drop only what lies ahead, undo and redo drop
      nothing, and refused or empty edits change neither canvas nor stacks. */
  lemma StepAdvancesTimeline(s: Session, event: Event)
    ensures TimelineOf(s).cursor < |TimelineOf(s).canvases|
    ensures TimelineOf(Step(s, event)) == Advance(TimelineOf(s), MoveOf(s, event))
  {
    match event
    case Undo(accepted) =>
      if accepted && s.undo != [] {
        UndoMovesBack(s);
      }
    case Redo(accepted) =>
      if accepted && s.redo != [] {
        RedoMovesForward(s);
      }
    case _ =>
      EditRecords(s, event);
      if Step(s, event).undo != s.undo {
        RecordBranches(s, Step(s, event));
      }
  }

  function Run(s: Session, events: seq<Event>): Session {
    if events == [] then s else Step(Run(s, events[..|events| - 1]), events[|events| - 1])
  }

  function Repeat(event: Event, k: nat): seq<Event> {
    seq(k, _ => event)
  }

  lemma {:induction false} RunAppends(s: Session, first: seq<Event>, second: seq<Event>)
    ensures Run(s, first + second) == Run(Run(s, first), second)
  {
    if second == [] {
      assert first + second == first;
    } else {
      var last := |second| - 1;
      RunAppends(s, first, second[..last]);
      assert (first + second)[..|first + second| - 1] == first + second[..last];
    }
  }

  lemma RunRepeated(s: Session, event: Event, k: nat)
    requires k > 0
    ensures Run(s, Repeat(event, k)) == Step(Run(s, Repeat(event, k - 1)), event)
  {
    assert Repeat(event, k)[..k - 1] == Repeat(event, k - 1);
  }

  lemma RedosLeft(s: Session, k: nat)
    requires k <= |s.redo|
    requires TimelineOf(Run(s, Repeat(Redo(true), k))) == TimelineOf(s).(cursor := |s.undo| + k)
    ensures |Run(s, Repeat(Redo(true), k)).redo| == |s.redo| - k
  {
    var now := Run(s, Repeat(Redo(true), k));
    assert |TimelineOf(now).canvases| == |now.undo| + 1 + |now.redo|;
    assert |TimelineOf(s).canvases| == |s.undo| + 1 + |s.redo|;
  }

  lemma {:induction false} UndosMoveBack(s: Session, k: nat)
    requires k <= |s.undo|
    ensures TimelineOf(Run(s, Repeat(Undo(true), k))) == TimelineOf(s).(cursor := |s.undo| - k)
  {
    if k > 0 {
      UndosMoveBack(s, k - 1);
      RunRepeated(s, Undo(true), k);
      UndoMovesBack(Run(s, Repeat(Undo(true), k - 1)));
    }
  }

  lemma {:induction false} RedosMoveForward(s: Session, k: nat)
    requires k <= |s.redo|
    ensures TimelineOf(Run(s, Repeat(Redo(true), k))) == TimelineOf(s).(cursor := |s.undo| + k)
  {
    if k > 0 {
      RedosMoveForward(s, k - 1);
      RunRepeated(s, Redo(true), k);
      RedosLeft(s, k - 1);
      RedoMovesForward(Run(s, Repeat(Redo(true), k - 1)));
    }
  }

  /** Undoing k edits and redoing them again restores the canvas and both stacks exactly. */
  lemma UndosThenRedosRestore(s: Session, k: nat)
    requires k <= |s.undo|
    ensures var s' := Run(s, Repeat(Undo(true), k) + Repeat(Redo(true), k));
      s'.canvas == s.canvas && s'.undo == s.undo && s'.redo == s.redo
  {
    var back := Run(s, Repeat(Undo(true), k));
    UndosMoveBack(s, k);
    TimelineDeterminesStacks(s);
    TimelineDeterminesStacks(back);
    assert |back.redo| == |s.redo| + k;
    RedosMoveForward(back, k);
    RunAppends(s, Repeat(Undo(true), k), Repeat(Redo(true), k));
    TimelineDeterminesStacks(Run(back, Repeat(Redo(true), k)));
  }

  /** And the other way round. */
  lemma RedosThenUndosRestore(s: Session, k: nat)
    requires k <= |s.redo|
    ensures var s' := Run(s, Repeat(Redo(true), k) + Repeat(Undo(true), k));
      s'.canvas == s.canvas && s'.undo == s.undo && s'.redo == s.redo
  {
    var ahead := Run(s, Repeat(Redo(true), k));
    RedosMoveForward(s, k);
    TimelineDeterminesStacks(s);
    TimelineDeterminesStacks(ahead);
    assert |ahead.undo| == |s.undo| + k;
    UndosMoveBack(ahead, k);
    RunAppends(s, Repeat(Redo(true), k), Repeat(Undo(true), k));
    TimelineDeterminesStacks(Run(ahead, Repeat(Undo(true), k)));
  }

  predicate Browses(event: Event) {
    event.Undo? || event.Redo? || event.PreviewDrag? || event.Select?
  }

  /** However undos, redos, refusals, previews and selections are mixed, the timeline itself stays, so that
      every canvas shown is one of those recorded on it. */
  lemma {:induction false} BrowsingKeepsTimeline(s: Session, events: seq<Event>)
    requires forall e <- events :: Browses(e)
    ensures TimelineOf(Run(s, events)).canvases == TimelineOf(s).canvases
    ensures Run(s, events).canvas in TimelineOf(s).canvases
  {
    TimelineDeterminesStacks(Run(s, events));
    if events == [] {
      TimelineDeterminesStacks(s);
    } else {
      var last := |events| - 1;
      assert events[last] in events;
      BrowsingKeepsTimeline(s, events[..last]);
      StepAdvancesTimeline(Run(s, events[..last]), events[last]);
    }
  }

  // ----- Every action offers the domain a canvas it accepts -----

  /** The counters that an action draws on do not reach the end of their ranges. */
  ghost predicate HasRoomFor(action: Action, canvas: Layout, selection: seq<nat>, all: Layout) {
    match action
    case Duplicate => CanvasPasting.HasRoom(canvas, CanvasCopying.SelectionFragment(canvas, selection), all)
    case Group => MaxKey(all.groups, GroupKey) < U64_MAX
    case ZOrder(_) => |canvas.nodes| <= I32_MAX
    case _ => true
  }

  /** The selection names only nodes of the canvas, as far as the action depends on it: grouping takes the selected
      identifiers as they are. */
  ghost predicate SelectsNodes(action: Action, canvas: Layout, selection: seq<nat>) {
    action.Group? && |IdSet(selection)| >= 2 ==> IdSet(selection) <= NodeIds(canvas.nodes)
  }

  /** Every action gives a canvas that the domain accepts, except grouping a selection of which a node is gone. */
  lemma ActionsKeepWellFormed(action: Action, canvas: Layout, selection: seq<nat>, all: Layout)
    requires WellFormed(canvas) && Within(canvas, all) && HasRoomFor(action, canvas, selection, all)
    ensures WellFormed(Outcome(action, canvas, selection, all).0) <==> SelectsNodes(action, canvas, selection)
  {
    match action {
      case Duplicate =>
        CanvasPasting.DuplicateKeepsWellFormed(canvas, selection, all);
      case Remove =>
        CanvasStructure.RemoveIsExact(canvas, selection);
      case Group =>
        if |IdSet(selection)| >= 2 {
          if IdSet(selection) <= NodeIds(canvas.nodes) {
            CanvasStructure.GroupingIsExact(canvas, selection, all);
          } else {
            CanvasStructure.GroupingNeedsNodes(canvas, selection, all);
          }
        }
      case Ungroup =>
        CanvasStructure.UngroupIsExact(canvas, selection);
      case Align(alignment) =>
        var listed, centers, targets := CanvasAlignment.AlignCentersSelection(canvas, selection, alignment);
      case ZOrder(order) =>
        if CanvasSelection.Expanded(canvas, selection) != {} {
          CanvasStacking.RestackedIsRestacking(canvas, selection, order);
        }
    }
  }

  ghost predicate HistoryIsWellFormed(s: Session) {
    && WellFormed(s.canvas)
    && (forall layout <- s.undo :: WellFormed(layout))
    && (forall layout <- s.redo :: WellFormed(layout))
  }

  /** The domain accepts no new canvas that is not well-formed. Nothing is asked of undo and redo. */
  ghost predicate IsValidated(s: Session, event: Event) {
    event.Undo? || event.Redo? || Step(s, event).canvas == s.canvas || WellFormed(Step(s, event).canvas)
  }

  lemma EditKeepsHistoryWellFormed(s: Session, now: Session)
    requires HistoryIsWellFormed(s) && WellFormed(now.canvas)
    requires (now.undo == s.undo && now.redo == s.redo) || (now.undo == s.undo + [s.canvas] && now.redo == [])
    ensures HistoryIsWellFormed(now)
  {
  }

  lemma UndoKeepsHistoryWellFormed(s: Session, accepted: bool)
    requires HistoryIsWellFormed(s)
    ensures HistoryIsWellFormed(Step(s, Undo(accepted)))
  {
    var now := Step(s, Undo(accepted));
    assert forall layout <- now.undo :: layout in s.undo;
    assert forall layout <- now.redo :: layout in s.redo || layout == s.canvas;
  }

  lemma RedoKeepsHistoryWellFormed(s: Session, accepted: bool)
    requires HistoryIsWellFormed(s)
    ensures HistoryIsWellFormed(Step(s, Redo(accepted)))
  {
    var now := Step(s, Redo(accepted));
    assert forall layout <- now.undo :: layout in s.undo || layout == s.canvas;
    assert forall layout <- now.redo :: layout in s.redo;
  }

  lemma StepKeepsHistoryWellFormed(s: Session, event: Event)
    requires HistoryIsWellFormed(s) && IsValidated(s, event)
    ensures HistoryIsWellFormed(Step(s, event))
  {
    match event
    case Undo(accepted) => UndoKeepsHistoryWellFormed(s, accepted);
    case Redo(accepted) => RedoKeepsHistoryWellFormed(s, accepted);
    case _ =>
      EditRecords(s, event);
      EditKeepsHistoryWellFormed(s, Step(s, event));
  }

  /** The domain accepts no ill-formed edit at any time of the run. */
  ghost predicate AllValidated(s: Session, events: seq<Event>) {
    events == []
    || (var before := events[..|events| - 1];
        AllValidated(s, before) && IsValidated(Run(s, before), events[|events| - 1]))
  }

  /** Undo and redo only ever offer the domain canvases that it accepts: over any run in which it accepts no
      ill-formed edit, everything in the history is well-formed. */
  lemma {:induction false} RunKeepsHistoryWellFormed(s: Session, events: seq<Event>)
    requires HistoryIsWellFormed(s) && AllValidated(s, events)
    ensures HistoryIsWellFormed(Run(s, events))
    decreases |events|
  {
    if events != [] {
      var before := events[..|events| - 1];
      RunKeepsHistoryWellFormed(s, before);
      StepKeepsHistoryWellFormed(Run(s, before), events[|events| - 1]);
    }
  }
}
