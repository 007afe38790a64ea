/** Moving, resizing and aligning nodes on the 20-unit grid. Coordinates are reals. */
module CanvasGeometry {
  import opened Wrappers
  import opened CanvasLayout
  import opened CanvasSelection

  const GRID_STEP: real := 20.0
  const MIN_NODE_WIDTH: real := 240.0
  const MIN_NODE_HEIGHT: real := 160.0

  /** Rounds to the nearest integer, halves away from zero. */
  function Round(value: real): int {
    if value >= 0.0 then (value + 0.5).Floor else -(-value + 0.5).Floor
  }

  function GridLine(k: int): real {
    k as real * GRID_STEP
  }

  function Snap(value: real): real {
    GridLine(Round(value / GRID_STEP))
  }

  ghost predicate OnGrid(value: real) {
    exists k: int :: value == GridLine(k)
  }

  /** Grid lines lie 20 apart, from zero on. */
  lemma GridLineIsAt(k: int)
    ensures GridLine(k) == 20.0 * k as real
  {
  }

  lemma RoundIsNearest(value: real)
    ensures -0.5 <= Round(value) as real - value <= 0.5
    ensures value >= 0.0 ==> Round(value) as real - value > -0.5
    ensures value <= 0.0 ==> Round(value) as real - value < 0.5
    ensures value.Floor as real == value ==> Round(value) == value.Floor
  {
    if value >= 0.0 {
      assert (value + 0.5).Floor as real <= value + 0.5 < (value + 0.5).Floor as real + 1.0;
    } else {
      assert (-value + 0.5).Floor as real <= -value + 0.5 < (-value + 0.5).Floor as real + 1.0;
    }
  }

  /** Halfway between two grid lines snapping goes to the one farther from zero. */
  lemma SnapIsNearestGridLine(value: real)
    ensures OnGrid(Snap(value))
    ensures -10.0 <= Snap(value) - value <= 10.0
    ensures value >= 0.0 ==> Snap(value) - value > -10.0
    ensures value <= 0.0 ==> Snap(value) - value < 10.0
    ensures OnGrid(value) ==> Snap(value) == value
  {
    RoundIsNearest(value / GRID_STEP);
    if k: int :| value == GridLine(k) {
      assert value / GRID_STEP == k as real;
    }
  }

  // ----- Rewriting nodes in place -----

  function MapNodes(nodes: seq<Node>, change: Node -> Node): seq<Node> {
    seq(|nodes|, i requires 0 <= i < |nodes| => change(nodes[i]))
  }

  function MapLayout(layout: Layout, change: Node -> Node): Layout {
    NewLayout(MapNodes(layout.nodes, change), layout.groups, layout.connections)
  }

  ghost predicate KeepsIdentity(nodes: seq<Node>, change: Node -> Node) {
    forall n <- nodes :: change(n).id == n.id && change(n).content == n.content
  }

  /** Changing geometry or stacking alone keeps the canvas well-formed and its graph as it was. */
  lemma MapLayoutKeepsWellFormed(layout: Layout, change: Node -> Node)
    requires WellFormed(layout) && KeepsIdentity(layout.nodes, change)
    ensures WellFormed(MapLayout(layout, change))
    ensures MapLayout(layout, change)
         == Layout(MapNodes(layout.nodes, change), layout.groups, layout.connections)
    ensures NodeIds(MapNodes(layout.nodes, change)) == NodeIds(layout.nodes)
  {
    var nodes, mapped := layout.nodes, MapNodes(layout.nodes, change);
    forall i, j | 0 <= i < j < |mapped|
      ensures NodeKey(mapped[i]) < NodeKey(mapped[j])
    {
      assert NodeKey(nodes[i]) < NodeKey(nodes[j]);
    }
    NewLayoutOfAscending(mapped, layout.groups, layout.connections);
    MapNodesKeepsIds(nodes, change);
    forall c <- layout.connections
      ensures ConnectionFits(c, mapped)
    {
      MapNodesKeepsConnection(c, nodes, change);
    }
  }

  lemma MapNodesKeepsConnection(c: Connection, nodes: seq<Node>, change: Node -> Node)
    requires ConnectionFits(c, nodes) && KeepsIdentity(nodes, change)
    ensures ConnectionFits(c, MapNodes(nodes, change))
  {
    var mapped := MapNodes(nodes, change);
    var s, t :| s in nodes && t in nodes && s.id == c.source && t.id == c.target
                && BetweenContent(s.content, t.content) == Some(c.kind);
    var i :| 0 <= i < |nodes| && nodes[i] == s;
    var j :| 0 <= j < |nodes| && nodes[j] == t;
    assert mapped[i] in mapped && mapped[j] in mapped;
  }

  lemma MapNodesKeepsIds(nodes: seq<Node>, change: Node -> Node)
    requires KeepsIdentity(nodes, change)
    ensures NodeIds(MapNodes(nodes, change)) == NodeIds(nodes)
  {
    var mapped := MapNodes(nodes, change);
    forall id
      ensures id in NodeIds(mapped) <==> id in NodeIds(nodes)
    {
      if id in NodeIds(nodes) {
        var n :| n in nodes && NodeKey(n) == id;
        var i :| 0 <= i < |nodes| && nodes[i] == n;
        assert mapped[i] in mapped && NodeKey(mapped[i]) == id;
      }
      if id in NodeIds(mapped) {
        var n :| n in mapped && NodeKey(n) == id;
        var i :| 0 <= i < |mapped| && mapped[i] == n;
        assert nodes[i] in nodes && NodeKey(nodes[i]) == id;
      }
    }
  }

  // ----- Moving -----

  /** The selected node with the lowest identifier. */
  function Anchor(nodes: seq<Node>, selected: set<nat>): Option<Node> {
    if nodes == [] then None
    else
      var rest := Anchor(nodes[1..], selected);
      if nodes[0].id !in selected then rest
      else if rest.Some? && rest.value.id < nodes[0].id then rest
      else Some(nodes[0])
  }

  function Translate(selected: set<nat>, dx: real, dy: real): Node -> Node {
    (n: Node) => if n.id in selected then n.(x := n.x + dx, y := n.y + dy) else n
  }

  function MoveNodes(layout: Layout, selection: seq<nat>, deltaX: real, deltaY: real): Layout {
    var selected := Expanded(layout, selection);
    var anchor := Anchor(layout.nodes, selected);
    if anchor.None? then layout
    else
      MapLayout(layout, Translate(selected, SnappedDelta(anchor.value.x, deltaX), SnappedDelta(anchor.value.y, deltaY)))
  }

  /** The shift that takes a coordinate to the grid line nearest to where it was dragged. */
  function SnappedDelta(position: real, delta: real): real {
    Snap(position + delta) - position
  }

  lemma SnappedDeltaLandsOnGrid(position: real, delta: real)
    ensures -10.0 <= SnappedDelta(position, delta) - delta <= 10.0
    ensures OnGrid(position + SnappedDelta(position, delta))
  {
    SnapIsNearestGridLine(position + delta);
  }

  lemma {:induction false} AnchorIsLowestSelected(nodes: seq<Node>, selected: set<nat>)
    ensures var anchor := Anchor(nodes, selected);
      if anchor.None? then forall n <- nodes :: n.id !in selected
      else anchor.value in nodes && anchor.value.id in selected
           && forall n <- nodes :: n.id in selected ==> anchor.value.id <= n.id
  {
    if nodes != [] {
      AnchorIsLowestSelected(nodes[1..], selected);
      assert nodes == [nodes[0]] + nodes[1..];
    }
  }

  /** Rewriting nodes in place rewrites the anchor. */
  lemma {:induction false} AnchorAfterMapping(nodes: seq<Node>, selected: set<nat>, change: Node -> Node)
    requires KeepsIdentity(nodes, change)
    ensures var anchor, mapped := Anchor(nodes, selected), Anchor(MapNodes(nodes, change), selected);
      if anchor.None? then mapped.None? else mapped == Some(change(anchor.value))
  {
    if nodes != [] {
      assert nodes == [nodes[0]] + nodes[1..];
      AnchorAfterMapping(nodes[1..], selected, change);
      AnchorIsLowestSelected(nodes[1..], selected);
      assert MapNodes(nodes, change)[1..] == MapNodes(nodes[1..], change);
    }
  }

  /** The selected nodes, and only those, are shifted by one vector. */
  ghost predicate Shifted(before: seq<Node>, after: seq<Node>, selected: set<nat>, dx: real, dy: real) {
    && |after| == |before|
    && forall i :: 0 <= i < |before| ==>
         after[i] == (if before[i].id in selected then before[i].(x := before[i].x + dx, y := before[i].y + dy)
                      else before[i])
  }

  lemma TranslateShifts(layout: Layout, selected: set<nat>, dx: real, dy: real)
    requires WellFormed(layout)
    ensures var moved := MapLayout(layout, Translate(selected, dx, dy));
      && WellFormed(moved)
      && moved.groups == layout.groups && moved.connections == layout.connections
      && moved.nodes == MapNodes(layout.nodes, Translate(selected, dx, dy))
      && Shifted(layout.nodes, moved.nodes, selected, dx, dy)
  {
    MapLayoutKeepsWellFormed(layout, Translate(selected, dx, dy));
  }

  lemma AnchorLands(before: seq<Node>, after: seq<Node>, selected: set<nat>, dx: real, dy: real, n: Node)
    requires Ascending(before, NodeKey) && Shifted(before, after, selected, dx, dy)
    requires Anchor(before, selected).Some?
    requires n in after && n.id in selected && forall m <- after :: m.id in selected ==> n.id <= m.id
    ensures var a := Anchor(before, selected).value;
      n.x == a.x + dx && n.y == a.y + dy
  {
    AnchorIsLowestSelected(before, selected);
    var a := Anchor(before, selected).value;
    var k :| 0 <= k < |before| && before[k] == a;
    var i :| 0 <= i < |after| && after[i] == n;
    assert before[i] in before && after[k] in after;
    SameKeySameItem(before, NodeKey, before[i], a);
  }

  /** The lowest-numbered selected node is on the grid. */
  ghost predicate LowestOnGrid(nodes: seq<Node>, selected: set<nat>) {
    forall n <- nodes :: n.id in selected && (forall m <- nodes :: m.id in selected ==> n.id <= m.id) ==>
      OnGrid(n.x) && OnGrid(n.y)
  }

  lemma ShiftedLands(before: seq<Node>, after: seq<Node>, selected: set<nat>, dx: real, dy: real)
    requires Ascending(before, NodeKey) && Shifted(before, after, selected, dx, dy)
    requires Anchor(before, selected).Some?
    requires var a := Anchor(before, selected).value; OnGrid(a.x + dx) && OnGrid(a.y + dy)
    ensures LowestOnGrid(after, selected)
  {
    forall n <- after | n.id in selected && forall m <- after :: m.id in selected ==> n.id <= m.id
      ensures OnGrid(n.x) && OnGrid(n.y)
    {
      AnchorLands(before, after, selected, dx, dy, n);
    }
  }

  /** A move with a selected node is a translation that takes the anchor to the grid lines nearest to where
      it was dragged. */
  lemma MoveAnchor(layout: Layout, selection: seq<nat>, deltaX: real, deltaY: real) returns (dx: real, dy: real)
    requires Anchor(layout.nodes, Expanded(layout, selection)).Some?
    ensures MoveNodes(layout, selection, deltaX, deltaY)
         == MapLayout(layout, Translate(Expanded(layout, selection), dx, dy))
    ensures -10.0 <= dx - deltaX <= 10.0 && -10.0 <= dy - deltaY <= 10.0
    ensures var a := Anchor(layout.nodes, Expanded(layout, selection)).value;
      OnGrid(a.x + dx) && OnGrid(a.y + dy)
  {
    var a := Anchor(layout.nodes, Expanded(layout, selection)).value;
    dx, dy := SnappedDelta(a.x, deltaX), SnappedDelta(a.y, deltaY);
    SnappedDeltaLandsOnGrid(a.x, deltaX);
    SnappedDeltaLandsOnGrid(a.y, deltaY);
  }

  /** A move shifts the whole group-expanded selection, and nothing else, by one vector that differs from
      the request by at most half a grid step on each axis and puts the lowest-numbered node on the grid. */
  lemma MoveTranslatesSelection(layout: Layout, selection: seq<nat>, deltaX: real, deltaY: real)
    returns (dx: real, dy: real)
    requires WellFormed(layout)
    ensures -10.0 <= dx - deltaX <= 10.0 && -10.0 <= dy - deltaY <= 10.0
    ensures var moved := MoveNodes(layout, selection, deltaX, deltaY);
      && WellFormed(moved)
      && moved.groups == layout.groups && moved.connections == layout.connections
      && Shifted(layout.nodes, moved.nodes, Expanded(layout, selection), dx, dy)
      && LowestOnGrid(moved.nodes, Expanded(layout, selection))
  {
    var selected := Expanded(layout, selection);
    AnchorIsLowestSelected(layout.nodes, selected);
    if Anchor(layout.nodes, selected).None? {
      dx, dy := deltaX, deltaY;
    } else {
      dx, dy := MoveAnchor(layout, selection, deltaX, deltaY);
      var moved := MapLayout(layout, Translate(selected, dx, dy));
      TranslateShifts(layout, selected, dx, dy);
      ShiftedLands(layout.nodes, moved.nodes, selected, dx, dy);
    }
  }

  lemma NoShift(layout: Layout, selected: set<nat>)
    requires WellFormed(layout)
    ensures MapLayout(layout, Translate(selected, 0.0, 0.0)) == layout
  {
    TranslateShifts(layout, selected, 0.0, 0.0);
    var same := MapNodes(layout.nodes, Translate(selected, 0.0, 0.0));
    assert forall i :: 0 <= i < |same| ==> same[i] == layout.nodes[i];
  }

  /** The anchor lies on the grid, so that a move by nothing would not shift it. */
  ghost predicate AtRest(layout: Layout, selection: seq<nat>) {
    var anchor := Anchor(layout.nodes, Expanded(layout, selection));
    anchor.Some? ==> OnGrid(anchor.value.x) && OnGrid(anchor.value.y)
  }

  lemma TranslateToRest(layout: Layout, selection: seq<nat>, dx: real, dy: real)
    requires WellFormed(layout) && Anchor(layout.nodes, Expanded(layout, selection)).Some?
    requires var a := Anchor(layout.nodes, Expanded(layout, selection)).value;
      OnGrid(a.x + dx) && OnGrid(a.y + dy)
    ensures var moved := MapLayout(layout, Translate(Expanded(layout, selection), dx, dy));
      WellFormed(moved) && AtRest(moved, selection)
  {
    var selected := Expanded(layout, selection);
    TranslateShifts(layout, selected, dx, dy);
    AnchorIsLowestSelected(layout.nodes, selected);
    AnchorAfterMapping(layout.nodes, selected, Translate(selected, dx, dy));
  }

  lemma MoveFromRest(layout: Layout, selection: seq<nat>)
    requires WellFormed(layout) && AtRest(layout, selection)
    ensures MoveNodes(layout, selection, 0.0, 0.0) == layout
  {
    var anchor := Anchor(layout.nodes, Expanded(layout, selection));
    if anchor.Some? {
      SnapIsNearestGridLine(anchor.value.x);
      SnapIsNearestGridLine(anchor.value.y);
      NoShift(layout, Expanded(layout, selection));
    }
  }

  /** Releasing a finished move again does not move anything further. */
  lemma MoveIsIdempotentAtRest(layout: Layout, selection: seq<nat>, deltaX: real, deltaY: real)
    requires WellFormed(layout)
    ensures var moved := MoveNodes(layout, selection, deltaX, deltaY);
      MoveNodes(moved, selection, 0.0, 0.0) == moved
  {
    var selected := Expanded(layout, selection);
    if Anchor(layout.nodes, selected).Some? {
      var dx, dy := MoveAnchor(layout, selection, deltaX, deltaY);
      TranslateToRest(layout, selection, dx, dy);
      MoveFromRest(MapLayout(layout, Translate(selected, dx, dy)), selection);
    }
  }
}
