/** What each accepted event of the canvas session brings about: the edit that was asked for, its selection, and the
    former canvas on the undo stack. */
module CanvasEdits {
  import opened Wrappers
  import opened CanvasLayout
  import opened CanvasHistory
  import CanvasSelection
  import CanvasAlignment
  import CanvasStructure
  import CanvasStacking
  import CanvasCopying
  import CanvasPasting

  /** What an action does to the canvas, and what it leaves selected. */
  ghost predicate Performs(action: Action, canvas: Layout, selection: seq<nat>, all: Layout, after: Layout,
                           selected: seq<nat>) {
    match action
    case Duplicate =>
      exists fragment, ids ::
        CanvasPasting.CopiesSelection(canvas, selection, all, after, selected, fragment, ids)
    case Remove => CanvasStructure.Removes(canvas, selection, after) && selected == []
    case Group =>
      && selected == selection
      && (|IdSet(selection)| < 2 ==> after == canvas)
      && (|IdSet(selection)| >= 2 && IdSet(selection) <= NodeIds(canvas.nodes) ==>
            CanvasStructure.Groups(canvas, selection, all, after))
    case Ungroup => CanvasStructure.Ungroups(canvas, selection, after) && selected == selection
    case Align(alignment) =>
      && selected == selection
      && exists listed, centers, targets ::
           CanvasAlignment.IsAlignment(canvas, selection, alignment, after, listed, centers, targets)
    case ZOrder(order) =>
      && selected == selection
      && if selection == [] then after == canvas
         else
           && after.groups == canvas.groups && after.connections == canvas.connections
           && CanvasStacking.IsRestacking(canvas.nodes, after.nodes, CanvasSelection.Expanded(canvas, selection), order)
  }

  lemma StackingIsPerformed(canvas: Layout, selection: seq<nat>, all: Layout, order: CanvasStacking.ZOrder)
    requires WellFormed(canvas) && |canvas.nodes| <= I32_MAX
    ensures var after := CanvasStacking.Restacked(canvas, selection, order);
      Performs(ZOrder(order), canvas, selection, all, after, selection)
  {
    CanvasSelection.ExpandedIsLeastGroupClosed(canvas, selection);
    if selection != [] {
      assert selection[0] in selection;
      CanvasStacking.RestackedIsRestacking(canvas, selection, order);
    } else {
      NothingExpands(canvas.groups);
      assert IdSet(selection) == {};
    }
  }

  lemma {:induction false} NothingExpands(groups: seq<Group>)
    ensures CanvasSelection.ExpandFrom(groups, {}) == {}
  {
    if groups != [] {
      NothingExpands(groups[1..]);
    }
  }

  lemma OutcomePerforms(action: Action, canvas: Layout, selection: seq<nat>, all: Layout)
    requires WellFormed(canvas) && Within(canvas, all) && HasRoomFor(action, canvas, selection, all)
    ensures var (after, selected) := Outcome(action, canvas, selection, all);
      Performs(action, canvas, selection, all, after, selected)
  {
    match action
    case Duplicate =>
      var ids := CanvasPasting.DuplicateEmbeds(canvas, selection, all);
    case Remove => CanvasStructure.RemoveIsExact(canvas, selection);
    case Group =>
      if |IdSet(selection)| >= 2 && IdSet(selection) <= NodeIds(canvas.nodes) {
        CanvasStructure.GroupingIsExact(canvas, selection, all);
      }
    case Ungroup => CanvasStructure.UngroupIsExact(canvas, selection);
    case Align(alignment) =>
      var listed, centers, targets := CanvasAlignment.AlignCentersSelection(canvas, selection, alignment);
    case ZOrder(order) => StackingIsPerformed(canvas, selection, all, order);
  }

  /** An accepted action performs the very edit that it names. When that changes the canvas, the former one goes onto
      the undo stack, nothing is left to redo, and the preview ends; otherwise nothing changes at all. */
  lemma AcceptedActionIsPerformed(s: Session, action: Action, all: Layout) returns (selected: seq<nat>)
    requires WellFormed(s.canvas) && Within(s.canvas, all) && HasRoomFor(action, s.canvas, s.selection, all)
    ensures var now := Step(s, Act(action, all, true));
      && Performs(action, s.canvas, s.selection, all, now.canvas, selected)
      && now == if now.canvas == s.canvas then s else Session(now.canvas, None, selected, s.undo + [s.canvas], [])
  {
    OutcomePerforms(action, s.canvas, s.selection, all);
    selected := Outcome(action, s.canvas, s.selection, all).1;
  }

  /** A refused event ends the preview at most. */
  lemma RefusedChangesNothing(s: Session, event: Event)
    requires event.Act? || event.Paste? || event.Connect? || event.AddNode? || event.CommitDrag? || event.Undo?
             || event.Redo?
    requires !event.accepted
    ensures Step(s, event) == s || Step(s, event) == s.(preview := None)
  {
  }

  /** An accepted paste embeds a copy of the fragment and selects it; an empty fragment changes nothing. */
  lemma AcceptedPasteIsPerformed(s: Session, fragment: Layout, all: Layout) returns (ids: map<nat, nat>)
    requires WellFormed(s.canvas) && WellFormed(fragment) && Within(s.canvas, all)
    requires CanvasPasting.HasRoom(s.canvas, fragment, all)
    ensures var now := Step(s, Paste(fragment, all, true));
      if fragment.nodes == [] then now == s
      else
        && CanvasPasting.Embeds(s.canvas, fragment, all, now.canvas, ids, 40.0)
        && CanvasPasting.SelectsCopies(fragment, now.selection, ids)
        && now == Session(now.canvas, None, now.selection, s.undo + [s.canvas], [])
  {
    ids := map[];
    if fragment.nodes != [] {
      ids := CanvasPasting.PasteEmbeds(s.canvas, fragment, all);
      var after := CanvasCopying.Pasted(s.canvas, fragment, all).0;
      assert |after.nodes| == |s.canvas.nodes| + |fragment.nodes|;
    }
  }

  /** An accepted connection is made exactly when the two nodes differ and can be connected, and both are selected. */
  lemma AcceptedConnectionIsPerformed(s: Session, source: nat, target: nat, all: Layout)
    requires WellFormed(s.canvas) && Within(s.canvas, all) && MaxKey(all.connections, ConnectionKey) < U64_MAX
    ensures var now := Step(s, Event.Connect(source, target, all, true));
      if source == target || !CanvasStructure.CanConnect(s.canvas, source, target) then now == s
      else
        && CanvasStructure.AddsConnection(s.canvas, now.canvas, source, target, all)
        && WellFormed(now.canvas)
        && now == Session(now.canvas, None, [source, target], s.undo + [s.canvas], [])
  {
    CanvasStructure.ConnectIsExact(s.canvas, source, target, all);
  }

  /** A node that is added joins the others in identifier order, and is selected. */
  lemma AddedNodeIsSelected(s: Session, node: Node)
    requires WellFormed(s.canvas) && forall n <- s.canvas.nodes :: n.id < node.id
    ensures Step(s, AddNode(node, true))
         == Session(Layout(s.canvas.nodes + [node], s.canvas.groups, s.canvas.connections), None, [node.id],
                    s.undo + [s.canvas], [])
  {
    CanvasStructure.AppendKeepsAscending(s.canvas.nodes, node, NodeKey);
    NewLayoutOfAscending(s.canvas.nodes + [node], s.canvas.groups, s.canvas.connections);
  }

  /** A drag is committed exactly when it started from the canvas that is held. */
  lemma CommitReplacesCanvas(s: Session, before: Layout, after: Layout)
    ensures Step(s, CommitDrag(before, after, true))
         == if s.canvas == before then Session(after, None, s.selection, s.undo + [s.canvas], [])
            else s.(preview := None)
  {
  }

  ghost predicate IsOn(canvas: Layout, id: nat) {
    exists n <- canvas.nodes :: n.id == id
  }

  /** What is left of a selection: in the same order, the identifiers that a node of the canvas has. */
  ghost predicate IsRetained(kept: seq<nat>, selection: seq<nat>, canvas: Layout)
    decreases |selection|
  {
    if selection == [] then kept == []
    else if IsOn(canvas, selection[0]) then
      kept != [] && kept[0] == selection[0] && IsRetained(kept[1..], selection[1..], canvas)
    else IsRetained(kept, selection[1..], canvas)
  }

  lemma {:induction false} FilterRetains(selection: seq<nat>, canvas: Layout)
    ensures IsRetained(Filter(selection, Existing(canvas)), selection, canvas)
    decreases |selection|
  {
    if selection != [] {
      var rest := Filter(selection[1..], Existing(canvas));
      FilterRetains(selection[1..], canvas);
      if IsOn(canvas, selection[0]) {
        var kept := [selection[0]] + rest;
        assert kept[1..] == rest;
        assert Filter(selection, Existing(canvas)) == kept;
      } else {
        assert Filter(selection, Existing(canvas)) == rest;
      }
    }
  }

  /** An accepted undo shows the canvas on top of the undo stack and moves the current one over to redo. */
  lemma UndoShowsLast(s: Session)
    requires s.undo != []
    ensures var now, last := Step(s, Undo(true)), |s.undo| - 1;
      && now == Session(s.undo[last], None, now.selection, s.undo[..last], s.redo + [s.canvas])
      && IsRetained(now.selection, s.selection, s.undo[last])
  {
    FilterRetains(s.selection, s.undo[|s.undo| - 1]);
  }

  lemma RedoShowsLast(s: Session)
    requires s.redo != []
    ensures var now, last := Step(s, Redo(true)), |s.redo| - 1;
      && now == Session(s.redo[last], None, now.selection, s.undo + [s.canvas], s.redo[..last])
      && IsRetained(now.selection, s.selection, s.redo[last])
  {
    FilterRetains(s.selection, s.redo[|s.redo| - 1]);
  }
}
