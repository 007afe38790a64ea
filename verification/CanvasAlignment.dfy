/** Resizing one node, and aligning or evenly spreading the centers of a selection. */
module CanvasAlignment {
  import opened Wrappers
  import opened StableSort
  import opened CanvasLayout
  import opened CanvasSelection
  import opened CanvasGeometry

  datatype Alignment = HorizontalCenters | VerticalCenters | DistributeHorizontally | DistributeVertically

  datatype Placement = Placement(id: nat, x: real, y: real)

  function Max(a: real, b: real): real {
    if a >= b then a else b
  }

  function Resize(id: nat, width: real, height: real): Node -> Node {
    (n: Node) =>
      if n.id == id then n.(width := Max(Snap(width), MIN_NODE_WIDTH), height := Max(Snap(height), MIN_NODE_HEIGHT))
      else n
  }

  function ResizeNode(layout: Layout, id: nat, width: real, height: real): Layout {
    MapLayout(layout, Resize(id, width, height))
  }

  function Center(n: Node, horizontal: bool): real {
    if horizontal then n.x + n.width / 2.0 else n.y + n.height / 2.0
  }

  function CenterSum(nodes: seq<Node>, horizontal: bool): real {
    if nodes == [] then 0.0 else Center(nodes[0], horizontal) + CenterSum(nodes[1..], horizontal)
  }

  /** Where a node goes when its center is put at a coordinate of one axis. */
  function CenterAt(n: Node, horizontal: bool, center: real): Placement {
    if horizontal then Placement(n.id, Snap(center - n.width / 2.0), n.y)
    else Placement(n.id, n.x, Snap(center - n.height / 2.0))
  }

  function CenterOrder(horizontal: bool): (Node, Node) -> bool {
    (a, b) => Center(a, horizontal) <= Center(b, horizontal)
  }

  /** The coordinate intended for the k-th of a list of nodes. */
  function Target(nodes: seq<Node>, horizontal: bool, spread: bool, k: nat): real
    requires k < |nodes| && (spread ==> |nodes| >= 2)
  {
    if spread then
      var first, last := Center(nodes[0], horizontal), Center(nodes[|nodes| - 1], horizontal);
      first + (last - first) / (|nodes| - 1) as real * k as real
    else CenterSum(nodes, horizontal) / |nodes| as real
  }

  function Placements(nodes: seq<Node>, horizontal: bool, spread: bool): seq<Placement>
    requires spread ==> |nodes| >= 2
  {
    seq(|nodes|, k requires 0 <= k < |nodes| => CenterAt(nodes[k], horizontal, Target(nodes, horizontal, spread, k)))
  }

  function Distribute(nodes: seq<Node>, horizontal: bool): seq<Placement> {
    if |nodes| < 3 then []
    else
      SortKeepsElements(nodes, CenterOrder(horizontal));
      Placements(Sort(nodes, CenterOrder(horizontal)), horizontal, true)
  }

  /** The last placement listed for a node. */
  function PlacementOf(placements: seq<Placement>, id: nat): Option<Placement> {
    if placements == [] then None
    else
      var last := placements[|placements| - 1];
      if last.id == id then Some(last) else PlacementOf(placements[..|placements| - 1], id)
  }

  function Place(placements: seq<Placement>): Node -> Node {
    (n: Node) =>
      var placement := PlacementOf(placements, n.id);
      if placement.Some? then n.(x := placement.value.x, y := placement.value.y) else n
  }

  function Selects(selected: set<nat>): Node -> bool {
    (n: Node) => n.id in selected
  }

  function Align(layout: Layout, selection: seq<nat>, alignment: Alignment): Layout {
    var nodes := Filter(layout.nodes, Selects(Expanded(layout, selection)));
    if |nodes| < 2 then layout
    else
      MapLayout(layout, Place(match alignment
                              case HorizontalCenters => Placements(nodes, true, false)
                              case VerticalCenters => Placements(nodes, false, false)
                              case DistributeHorizontally => Distribute(nodes, true)
                              case DistributeVertically => Distribute(nodes, false)))
  }

  // ----- Properties -----

  /** What a size is clipped to: the minimum below it, otherwise the nearest grid step. */
  ghost predicate IsClipped(size: real, minimum: real, wanted: real) {
    && OnGrid(size)
    && if wanted < minimum then size == minimum else size >= minimum && -10.0 < size - wanted <= 10.0
  }

  lemma ClippedSize(wanted: real, minimum: real)
    requires OnGrid(minimum) && minimum > 0.0
    ensures IsClipped(Max(Snap(wanted), minimum), minimum, wanted)
  {
    SnapIsNearestGridLine(wanted);
    if wanted < minimum {
      SnapStaysBelow(wanted, minimum);
    }
  }

  lemma GridLinesInOrder(j: int, k: int)
    requires 20.0 * j as real <= 20.0 * k as real + 10.0
    ensures j <= k && 20.0 * j as real <= 20.0 * k as real
  {
    assert (j - k) as real == j as real - k as real <= 0.5;
  }

  lemma SnapStaysBelow(value: real, line: real)
    requires OnGrid(line) && value <= line
    ensures Snap(value) <= line
  {
    SnapIsNearestGridLine(value);
    var k: int :| line == GridLine(k);
    var j: int :| Snap(value) == GridLine(j);
    GridLineIsAt(k);
    GridLineIsAt(j);
    GridLinesInOrder(j, k);
  }

  /** A resize changes one node's size only, to grid steps no smaller than the minimum of 240 by 160. */
  lemma ResizeIsBoundedBelow(layout: Layout, id: nat, width: real, height: real)
    requires WellFormed(layout)
    ensures var resized := ResizeNode(layout, id, width, height);
      && WellFormed(resized)
      && resized.groups == layout.groups && resized.connections == layout.connections
      && |resized.nodes| == |layout.nodes|
      && forall i :: 0 <= i < |layout.nodes| ==>
           var was, now := layout.nodes[i], resized.nodes[i];
           && was.(width := now.width, height := now.height) == now
           && (was.id != id ==> now == was)
           && (was.id == id ==> IsClipped(now.width, 240.0, width) && IsClipped(now.height, 160.0, height))
  {
    MapLayoutKeepsWellFormed(layout, Resize(id, width, height));
    assert MIN_NODE_WIDTH == GridLine(12) && MIN_NODE_HEIGHT == GridLine(8);
    ClippedSize(width, MIN_NODE_WIDTH);
    ClippedSize(height, MIN_NODE_HEIGHT);
  }

  /** Only positions change, and only those of the placed nodes. */
  lemma PlaceKeepsGraph(layout: Layout, placements: seq<Placement>)
    requires WellFormed(layout)
    ensures var placed := MapLayout(layout, Place(placements));
      && WellFormed(placed)
      && placed == Layout(MapNodes(layout.nodes, Place(placements)), layout.groups, layout.connections)
  {
    MapLayoutKeepsWellFormed(layout, Place(placements));
  }

  lemma {:induction false} PlacementIsFound(placements: seq<Placement>, k: nat)
    requires k < |placements|
    requires forall i, j :: 0 <= i < j < |placements| ==> placements[i].id != placements[j].id
    ensures PlacementOf(placements, placements[k].id) == Some(placements[k])
  {
    var last := |placements| - 1;
    if k < last {
      assert placements[k].id != placements[last].id;
      PlacementIsFound(placements[..last], k);
    }
  }

  lemma {:induction false} PlacementIsAbsent(placements: seq<Placement>, id: nat)
    requires forall p <- placements :: p.id != id
    ensures PlacementOf(placements, id) == None
  {
    if placements != [] {
      assert placements[|placements| - 1] in placements;
      PlacementIsAbsent(placements[..|placements| - 1], id);
    }
  }

  /** The other coordinate, the size, the stacking and the content stay; the node moves onto the grid, with its center
      within half a grid step of the target. */
  ghost predicate CenteredNear(before: Node, after: Node, horizontal: bool, target: real) {
    if horizontal then
      && OnGrid(after.x) && -10.0 <= after.x + before.width / 2.0 - target <= 10.0
      && after == before.(x := after.x)
    else
      && OnGrid(after.y) && -10.0 <= after.y + before.height / 2.0 - target <= 10.0
      && after == before.(y := after.y)
  }

  lemma CenterAtIsNear(n: Node, horizontal: bool, target: real)
    ensures var p := CenterAt(n, horizontal, target);
      CenteredNear(n, n.(x := p.x, y := p.y), horizontal, target)
  {
    SnapIsNearestGridLine(target - n.width / 2.0);
    SnapIsNearestGridLine(target - n.height / 2.0);
  }

  /** Placing a list of distinct nodes at their targets. */
  lemma PlacementsCenter(layout: Layout, chosen: seq<Node>, horizontal: bool, spread: bool, k: nat)
    requires WellFormed(layout) && (spread ==> |chosen| >= 2)
    requires forall n <- chosen :: n in layout.nodes
    requires Distinct(chosen)
    requires k < |chosen|
    ensures CenteredNear(chosen[k], Place(Placements(chosen, horizontal, spread))(chosen[k]), horizontal,
                         Target(chosen, horizontal, spread, k))
  {
    PlacementIsFound(Placements(chosen, horizontal, spread), k);
    CenterAtIsNear(chosen[k], horizontal, Target(chosen, horizontal, spread, k));
  }

  // ----- Where the centers are meant to go -----

  function Sum(values: seq<real>): real {
    if values == [] then 0.0 else values[0] + Sum(values[1..])
  }

  ghost predicate AreCenters(nodes: seq<Node>, horizontal: bool, centers: seq<real>) {
    && |centers| == |nodes|
    && forall k :: 0 <= k < |nodes| ==>
         centers[k] == if horizontal then nodes[k].x + nodes[k].width / 2.0 else nodes[k].y + nodes[k].height / 2.0
  }

  /** All targets are the mean of the centers; or they run from the first center to the last in equal steps. */
  ghost predicate AreTargets(centers: seq<real>, spread: bool, targets: seq<real>) {
    && |targets| == |centers| >= 2
    && if spread then
         && targets[0] == centers[0] && targets[|targets| - 1] == centers[|centers| - 1]
         && (forall k :: 0 < k < |targets| ==> targets[k] - targets[k - 1] == targets[1] - targets[0])
       else forall k :: 0 <= k < |targets| ==> targets[k] * |centers| as real == Sum(centers)
  }

  function CentersOf(nodes: seq<Node>, horizontal: bool): seq<real> {
    seq(|nodes|, k requires 0 <= k < |nodes| => Center(nodes[k], horizontal))
  }

  function TargetsOf(nodes: seq<Node>, horizontal: bool, spread: bool): seq<real>
    requires spread ==> |nodes| >= 2
  {
    seq(|nodes|, k requires 0 <= k < |nodes| => Target(nodes, horizontal, spread, k))
  }

  lemma {:induction false} CenterSumIsSum(nodes: seq<Node>, horizontal: bool)
    ensures CenterSum(nodes, horizontal) == Sum(CentersOf(nodes, horizontal))
  {
    if nodes != [] {
      CenterSumIsSum(nodes[1..], horizontal);
      assert CentersOf(nodes, horizontal)[1..] == CentersOf(nodes[1..], horizontal);
    }
  }

  lemma StepsAreEven(first: real, step: real, k: int)
    ensures first + step * k as real - (first + step * (k - 1) as real) == step
  {
    assert k as real == (k - 1) as real + 1.0;
    assert step * ((k - 1) as real + 1.0) == step * (k - 1) as real + step;
  }

  lemma SpreadTargetAt(nodes: seq<Node>, horizontal: bool, k: nat)
    requires |nodes| >= 2 && 0 < k < |nodes|
    ensures var targets, n := TargetsOf(nodes, horizontal, true), |nodes|;
      targets[k] - targets[k - 1]
      == (Center(nodes[n - 1], horizontal) - Center(nodes[0], horizontal)) / (n - 1) as real
  {
    var n, first, last := |nodes|, Center(nodes[0], horizontal), Center(nodes[|nodes| - 1], horizontal);
    StepsAreEven(first, (last - first) / (n - 1) as real, k);
  }

  lemma SpreadReachesLast(first: real, last: real, gaps: real)
    requires gaps > 0.0
    ensures first + (last - first) / gaps * gaps == last
  {
  }

  lemma SpreadEnds(nodes: seq<Node>, horizontal: bool)
    requires |nodes| >= 2
    ensures var targets := TargetsOf(nodes, horizontal, true);
      && targets[0] == Center(nodes[0], horizontal)
      && targets[|nodes| - 1] == Center(nodes[|nodes| - 1], horizontal)
  {
    SpreadReachesLast(Center(nodes[0], horizontal), Center(nodes[|nodes| - 1], horizontal), (|nodes| - 1) as real);
  }

  lemma SpreadIsEven(nodes: seq<Node>, horizontal: bool)
    requires |nodes| >= 2
    ensures var targets := TargetsOf(nodes, horizontal, true);
      forall k :: 0 < k < |targets| ==> targets[k] - targets[k - 1] == targets[1] - targets[0]
  {
    var targets := TargetsOf(nodes, horizontal, true);
    SpreadTargetAt(nodes, horizontal, 1);
    forall k | 0 < k < |targets|
      ensures targets[k] - targets[k - 1] == targets[1] - targets[0]
    {
      SpreadTargetAt(nodes, horizontal, k);
    }
  }

  lemma MeanTimesNumber(sum: real, n: real)
    requires n > 0.0
    ensures sum / n * n == sum
  {
  }

  lemma TargetsAreMean(nodes: seq<Node>, horizontal: bool)
    requires nodes != []
    ensures var targets, centers := TargetsOf(nodes, horizontal, false), CentersOf(nodes, horizontal);
      forall k :: 0 <= k < |targets| ==> targets[k] * |centers| as real == Sum(centers)
  {
    CenterSumIsSum(nodes, horizontal);
    MeanTimesNumber(CenterSum(nodes, horizontal), |nodes| as real);
    var targets := TargetsOf(nodes, horizontal, false);
    assert forall k :: 0 <= k < |targets| ==> targets[k] == CenterSum(nodes, horizontal) / |nodes| as real;
  }

  lemma TargetsAreEven(nodes: seq<Node>, horizontal: bool, spread: bool)
    requires |nodes| >= 2
    ensures AreTargets(CentersOf(nodes, horizontal), spread, TargetsOf(nodes, horizontal, spread))
  {
    if spread {
      SpreadEnds(nodes, horizontal);
      SpreadIsEven(nodes, horizontal);
    } else {
      TargetsAreMean(nodes, horizontal);
    }
  }

  // ----- Aligning -----

  function IsHorizontal(alignment: Alignment): bool {
    alignment == HorizontalCenters || alignment == DistributeHorizontally
  }

  function IsSpread(alignment: Alignment): bool {
    alignment == DistributeHorizontally || alignment == DistributeVertically
  }

  /** The nodes in the order in which an alignment lists them. */
  function Listed(layout: Layout, selection: seq<nat>, alignment: Alignment): seq<Node> {
    var nodes := Filter(layout.nodes, Selects(Expanded(layout, selection)));
    if IsSpread(alignment) then Sort(nodes, CenterOrder(IsHorizontal(alignment))) else nodes
  }

  /** Exactly the group-expanded selection is listed, each node once. */
  lemma ListedIsSelection(layout: Layout, selection: seq<nat>, alignment: Alignment)
    requires WellFormed(layout)
    ensures var listed := Listed(layout, selection, alignment);
      && |listed| == |Filter(layout.nodes, Selects(Expanded(layout, selection)))|
      && (forall n :: n in listed <==> n in layout.nodes && n.id in Expanded(layout, selection))
      && Distinct(listed)
  {
    var selected := Selects(Expanded(layout, selection));
    var nodes := Filter(layout.nodes, selected);
    SortKeepsElements(nodes, CenterOrder(IsHorizontal(alignment)));
    FilterKeepsAscending(layout.nodes, selected, NodeKey);
    AscendingIsDistinct(nodes);
    SortKeepsDistinct(nodes, CenterOrder(IsHorizontal(alignment)));
  }

  /** By center, and within a tie by identifier. */
  ghost predicate InCenterOrder(nodes: seq<Node>, centers: seq<real>)
    requires |centers| == |nodes|
  {
    forall i, j :: 0 <= i < j < |nodes| ==>
      centers[i] < centers[j] || (centers[i] == centers[j] && nodes[i].id <= nodes[j].id)
  }

  /** A distribution lists the nodes by center, and nodes with the same center by identifier. */
  lemma SpreadIsInOrder(layout: Layout, selection: seq<nat>, alignment: Alignment)
    requires WellFormed(layout) && IsSpread(alignment)
    ensures var listed := Listed(layout, selection, alignment);
      InCenterOrder(listed, CentersOf(listed, IsHorizontal(alignment)))
  {
    var selected := Selects(Expanded(layout, selection));
    var nodes := Filter(layout.nodes, selected);
    FilterKeepsAscending(layout.nodes, selected, NodeKey);
    forall i, j | 0 <= i < j < |nodes|
      ensures NodeOrder(nodes[i], nodes[j])
    {
      assert NodeKey(nodes[i]) < NodeKey(nodes[j]);
    }
    var byCenter := CenterOrder(IsHorizontal(alignment));
    SortIsStable(nodes, byCenter, NodeOrder);
    var listed := Sort(nodes, byCenter);
    forall i, j | 0 <= i < j < |listed|
      ensures Lexicographic(byCenter, NodeOrder)(listed[i], listed[j])
    {
    }
  }

  /** The listed nodes are centered near their targets, all others stay. */
  ghost predicate Centered(before: seq<Node>, after: seq<Node>, listed: seq<Node>, horizontal: bool,
                           targets: seq<real>)
    requires |targets| == |listed|
  {
    && (forall n <- before :: n !in listed ==> n in after)
    && (forall k :: 0 <= k < |listed| ==>
          exists n <- after :: CenteredNear(listed[k], n, horizontal, targets[k]))
  }

  lemma PlacementsCenterAll(layout: Layout, listed: seq<Node>, horizontal: bool, spread: bool)
    requires WellFormed(layout) && |listed| >= 2
    requires forall n <- listed :: n in layout.nodes
    requires Distinct(listed)
    ensures Centered(layout.nodes, MapNodes(layout.nodes, Place(Placements(listed, horizontal, spread))), listed,
                     horizontal, TargetsOf(listed, horizontal, spread))
  {
    var placements, targets := Placements(listed, horizontal, spread), TargetsOf(listed, horizontal, spread);
    var placed := MapNodes(layout.nodes, Place(placements));
    forall n <- layout.nodes | n !in listed
      ensures n in placed
    {
      forall p <- placements
        ensures p.id != n.id
      {
        var k :| 0 <= k < |placements| && placements[k] == p;
        assert listed[k] in listed;
        if p.id == n.id {
          SameKeySameItem(layout.nodes, NodeKey, listed[k], n);
        }
      }
      PlacementIsAbsent(placements, n.id);
      var i :| 0 <= i < |layout.nodes| && layout.nodes[i] == n;
      assert placed[i] == n;
    }
    forall k | 0 <= k < |listed|
      ensures exists n <- placed :: CenteredNear(listed[k], n, horizontal, targets[k])
    {
      PlacementsCenter(layout, listed, horizontal, spread, k);
      assert listed[k] in listed;
      var i :| 0 <= i < |layout.nodes| && layout.nodes[i] == listed[k];
      assert placed[i] in placed;
    }
  }

  lemma AlignPlacesListed(layout: Layout, selection: seq<nat>, alignment: Alignment)
    requires WellFormed(layout)
    ensures var aligned, listed := Align(layout, selection, alignment), Listed(layout, selection, alignment);
      && WellFormed(aligned)
      && |aligned.nodes| == |layout.nodes|
      && aligned.groups == layout.groups && aligned.connections == layout.connections
      && if |listed| < (if IsSpread(alignment) then 3 else 2) then aligned == layout
         else Centered(layout.nodes, aligned.nodes, listed, IsHorizontal(alignment),
                       TargetsOf(listed, IsHorizontal(alignment), IsSpread(alignment)))
  {
    var listed := Listed(layout, selection, alignment);
    ListedIsSelection(layout, selection, alignment);
    if 2 <= |listed| {
      if IsSpread(alignment) && |listed| < 3 {
        PlaceKeepsGraph(layout, []);
        assert MapNodes(layout.nodes, Place([])) == layout.nodes;
      } else {
        PlaceKeepsGraph(layout, Placements(listed, IsHorizontal(alignment), IsSpread(alignment)));
        PlacementsCenterAll(layout, listed, IsHorizontal(alignment), IsSpread(alignment));
      }
    }
  }

  /** The group-expanded selection, listed once each and by center for a distribution, is centered near its targets;
      too small a selection is left as it is. Centers and targets lie on the axis of the alignment. */
  ghost predicate IsAlignment(layout: Layout, selection: seq<nat>, alignment: Alignment, aligned: Layout,
                              listed: seq<Node>, centers: seq<real>, targets: seq<real>) {
    var horizontal := alignment == HorizontalCenters || alignment == DistributeHorizontally;
    var spread := alignment == DistributeHorizontally || alignment == DistributeVertically;
    && |aligned.nodes| == |layout.nodes|
    && aligned.groups == layout.groups && aligned.connections == layout.connections
    && (forall n :: n in listed <==> n in layout.nodes && n.id in Expanded(layout, selection))
    && Distinct(listed)
    && AreCenters(listed, horizontal, centers)
    && (spread ==> InCenterOrder(listed, centers))
    && if |listed| < (if spread then 3 else 2) then aligned == layout
       else AreTargets(centers, spread, targets)
            && Centered(layout.nodes, aligned.nodes, listed, horizontal, targets)
  }

  /** Aligning keeps the graph, moves only the group-expanded selection along one axis, and brings the center
      of every selected node within half a grid step of its target: the mean of the centers, or, for a distribution
      of at least three nodes, evenly spaced points from the first center to the last. */
  lemma AlignCentersSelection(layout: Layout, selection: seq<nat>, alignment: Alignment)
    returns (listed: seq<Node>, centers: seq<real>, targets: seq<real>)
    requires WellFormed(layout)
    ensures WellFormed(Align(layout, selection, alignment))
    ensures IsAlignment(layout, selection, alignment, Align(layout, selection, alignment), listed, centers, targets)
  {
    var horizontal, spread := IsHorizontal(alignment), IsSpread(alignment);
    listed := Listed(layout, selection, alignment);
    centers := CentersOf(listed, horizontal);
    targets := if |listed| >= 2 then TargetsOf(listed, horizontal, spread) else [];
    ListedIsSelection(layout, selection, alignment);
    AlignPlacesListed(layout, selection, alignment);
    if spread {
      SpreadIsInOrder(layout, selection, alignment);
    }
    if |listed| >= 2 {
      TargetsAreEven(listed, horizontal, spread);
    }
    CentersAreCenters(listed, horizontal);
  }

  lemma CentersAreCenters(nodes: seq<Node>, horizontal: bool)
    ensures AreCenters(nodes, horizontal, CentersOf(nodes, horizontal))
  {
  }
}
