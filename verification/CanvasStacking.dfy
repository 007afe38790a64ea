/** Bringing the selection to the front or sending it to the back of the stack of nodes. */
module CanvasStacking {
  import opened StableSort
  import opened CanvasLayout
  import opened CanvasSelection
  import opened CanvasGeometry

  datatype ZOrder = Front | Back

  predicate Higher(id: nat, selected: set<nat>, order: ZOrder) {
    match order
    case Front => id in selected
    case Back => id !in selected
  }

  /** Ascending z index, ties broken by identifier. */
  predicate DepthOrder(a: Node, b: Node) {
    a.z < b.z || (a.z == b.z && a.id <= b.id)
  }

  function ClassOrder(selected: set<nat>, order: ZOrder): (Node, Node) -> bool {
    (a: Node, b: Node) => (Higher(a.id, selected, order) ==> Higher(b.id, selected, order))
  }

  function Stacked(nodes: seq<Node>, selected: set<nat>, order: ZOrder): seq<Node> {
    Sort(Sort(nodes, DepthOrder), ClassOrder(selected, order))
  }

  /** The position of the last listed node with an identifier. */
  function Position(nodes: seq<Node>, id: nat): nat {
    if nodes == [] then 0
    else if nodes[|nodes| - 1].id == id then |nodes| - 1
    else Position(nodes[..|nodes| - 1], id)
  }

  function ToI32(value: nat): int {
    if value <= I32_MAX then value else I32_MAX
  }

  function AtPosition(stacked: seq<Node>): Node -> Node {
    (n: Node) => n.(z := ToI32(Position(stacked, n.id)))
  }

  function Restacked(layout: Layout, selection: seq<nat>, order: ZOrder): Layout {
    var selected := Expanded(layout, selection);
    if selected == {} then layout
    else MapLayout(layout, AtPosition(Stacked(layout.nodes, selected, order)))
  }

  method ChangeZOrder(layout: Layout, selection: seq<nat>, order: ZOrder) returns (restacked: Layout)
    ensures restacked == Restacked(layout, selection, order)
  {
    var selected := ExpandedSelection(layout, selection);
    if selected == {} {
      return layout;
    }
    var ordered := Sort(layout.nodes, DepthOrder);
    ordered := Sort(ordered, ClassOrder(selected, order));
    var zIndexes := NumberNodes(ordered);
    StackedIsLexicographic(layout.nodes, selected, order);
    var nodes: seq<Node> := [];
    for i := 0 to |layout.nodes|
      invariant nodes == MapNodes(layout.nodes[..i], AtPosition(ordered))
    {
      var node := layout.nodes[i];
      assert node in ordered;
      nodes := nodes + [node.(z := zIndexes[node.id])];
      assert layout.nodes[..i + 1] == layout.nodes[..i] + [node];
    }
    assert layout.nodes[..|layout.nodes|] == layout.nodes;
    restacked := NewLayout(nodes, layout.groups, layout.connections);
  }

  method NumberNodes(ordered: seq<Node>) returns (zIndexes: map<nat, int>)
    ensures forall n <- ordered :: n.id in zIndexes && zIndexes[n.id] == ToI32(Position(ordered, n.id))
  {
    zIndexes := map[];
    for index := 0 to |ordered|
      invariant forall n <- ordered[..index] ::
        n.id in zIndexes && zIndexes[n.id] == ToI32(Position(ordered[..index], n.id))
    {
      assert ordered[..index + 1] == ordered[..index] + [ordered[index]];
      zIndexes := zIndexes[ordered[index].id := ToI32(index)];
    }
    assert ordered[..|ordered|] == ordered;
  }

  // ----- Meaning -----

  /** The order that the operation is asked for: selected nodes go above all others to the front, and below them to
      the back; otherwise the old z index decides, and then the identifier. */
  predicate Beneath(a: Node, b: Node, selected: set<nat>, order: ZOrder) {
    if a.id in selected <==> b.id in selected then a.z < b.z || (a.z == b.z && a.id <= b.id)
    else if order == Front then b.id in selected else a.id in selected
  }

  function ZIndexes(nodes: seq<Node>): seq<int> {
    seq(|nodes|, i requires 0 <= i < |nodes| => nodes[i].z)
  }

  /** The numbers 0, 1, 2, ... without gaps or repetition. */
  ghost predicate Gapless(numbers: seq<int>) {
    && (forall k :: 0 <= k < |numbers| ==> k in numbers)
    && (forall i :: 0 <= i < |numbers| ==> 0 <= numbers[i] < |numbers|)
    && (forall i, j :: 0 <= i < j < |numbers| ==> numbers[i] != numbers[j])
  }

  /** Each node keeps all but its z index; the z indexes number the nodes from 0 without gaps; every node of the
      higher class is above every node of the lower one, and inside a class the old order stays. */
  ghost predicate IsRestacking(before: seq<Node>, after: seq<Node>, selected: set<nat>, order: ZOrder) {
    && |after| == |before|
    && (forall i :: 0 <= i < |before| ==> after[i] == before[i].(z := after[i].z))
    && Gapless(ZIndexes(after))
    && (forall i, j :: 0 <= i < |before| && 0 <= j < |before| && i != j ==>
          (after[i].z < after[j].z <==> Beneath(before[i], before[j], selected, order)))
  }

  lemma OrdersAreTotal(selected: set<nat>, order: ZOrder)
    ensures TotalPreorder(DepthOrder)
    ensures TotalPreorder(ClassOrder(selected, order))
  {}

  /** The two stable sorts leave the nodes ordered by class first and by depth within a class. */
  lemma StackedIsLexicographic(nodes: seq<Node>, selected: set<nat>, order: ZOrder)
    ensures Sorted(Stacked(nodes, selected, order), Lexicographic(ClassOrder(selected, order), DepthOrder))
    ensures |Stacked(nodes, selected, order)| == |nodes|
    ensures forall n :: n in Stacked(nodes, selected, order) <==> n in nodes
  {
    OrdersAreTotal(selected, order);
    SortSorts(nodes, DepthOrder);
    SortKeepsElements(nodes, DepthOrder);
    SortIsStable(Sort(nodes, DepthOrder), ClassOrder(selected, order), DepthOrder);
    SortKeepsElements(Sort(nodes, DepthOrder), ClassOrder(selected, order));
  }

  lemma {:induction false} PositionOfListed(nodes: seq<Node>, k: nat)
    requires k < |nodes| && Distinct(nodes)
    ensures Position(nodes, nodes[k].id) == k
  {
    if k < |nodes| - 1 {
      assert nodes[k].id != nodes[|nodes| - 1].id;
      PositionOfListed(nodes[..|nodes| - 1], k);
    }
  }

  /** Bringing to front and sending to back put the whole group-expanded selection above or below all
      others, keep the order inside both parts, and number the stack from 0 without gaps. */
  lemma RestackedIsRestacking(layout: Layout, selection: seq<nat>, order: ZOrder)
    requires WellFormed(layout) && |layout.nodes| <= I32_MAX && Expanded(layout, selection) != {}
    ensures var restacked := Restacked(layout, selection, order);
      && WellFormed(restacked)
      && restacked.groups == layout.groups && restacked.connections == layout.connections
      && IsRestacking(layout.nodes, restacked.nodes, Expanded(layout, selection), order)
  {
    var selected := Expanded(layout, selection);
    var stacked := Stacked(layout.nodes, selected, order);
    MapLayoutKeepsWellFormed(layout, AtPosition(stacked));
    StackedIsLexicographic(layout.nodes, selected, order);
    AscendingIsDistinct(layout.nodes);
    SortKeepsDistinct(layout.nodes, DepthOrder);
    SortKeepsDistinct(Sort(layout.nodes, DepthOrder), ClassOrder(selected, order));
    PositionsRestack(layout.nodes, stacked, selected, order);
  }

  lemma LexicographicIsBeneath(a: Node, b: Node, selected: set<nat>, order: ZOrder)
    requires Lexicographic(ClassOrder(selected, order), DepthOrder)(a, b) && a.id != b.id
    ensures Beneath(a, b, selected, order) && !Beneath(b, a, selected, order)
  {
    var byClass := ClassOrder(selected, order);
    assert byClass(a, b) && (byClass(b, a) ==> DepthOrder(a, b));
    assert byClass(b, a) == (Higher(b.id, selected, order) ==> Higher(a.id, selected, order));
  }

  lemma PositionsRestack(nodes: seq<Node>, stacked: seq<Node>, selected: set<nat>, order: ZOrder)
    requires |nodes| == |stacked| <= I32_MAX && forall n :: n in stacked <==> n in nodes
    requires Distinct(nodes) && Distinct(stacked)
    requires Sorted(stacked, Lexicographic(ClassOrder(selected, order), DepthOrder))
    ensures IsRestacking(nodes, MapNodes(nodes, AtPosition(stacked)), selected, order)
  {
    var after := MapNodes(nodes, AtPosition(stacked));
    forall k | 0 <= k < |nodes|
      ensures k in ZIndexes(after)
    {
      assert stacked[k] in nodes;
      var i :| 0 <= i < |nodes| && nodes[i] == stacked[k];
      PositionOfListed(stacked, k);
      assert ZIndexes(after)[i] == k;
    }
    forall i | 0 <= i < |nodes|
      ensures 0 <= after[i].z < |nodes| && stacked[after[i].z] == nodes[i]
    {
      assert nodes[i] in stacked;
      var k :| 0 <= k < |stacked| && stacked[k] == nodes[i];
      PositionOfListed(stacked, k);
    }
    forall i, j | 0 <= i < |nodes| && 0 <= j < |nodes| && i != j
      ensures after[i].z != after[j].z
      ensures after[i].z < after[j].z <==> Beneath(nodes[i], nodes[j], selected, order)
    {
      assert nodes[i].id != nodes[j].id;
      if after[i].z < after[j].z {
        LexicographicIsBeneath(stacked[after[i].z], stacked[after[j].z], selected, order);
      } else {
        LexicographicIsBeneath(stacked[after[j].z], stacked[after[i].z], selected, order);
      }
    }
  }

  // ----- Idempotence -----

  /** In a gapless numbering each number counts those below it. */
  lemma {:induction false} CountBelow(numbers: seq<int>, v: nat)
    requires Gapless(numbers) && v <= |numbers|
    ensures |set i | 0 <= i < |numbers| && numbers[i] < v| == v
  {
    var below := set i | 0 <= i < |numbers| && numbers[i] < v;
    if v == 0 {
      assert below == {};
    } else {
      CountBelow(numbers, v - 1);
      var smaller := set i | 0 <= i < |numbers| && numbers[i] < v - 1;
      assert v - 1 in numbers;
      var last :| 0 <= last < |numbers| && numbers[last] == v - 1;
      forall i
        ensures i in below <==> i in smaller + {last}
      {
        if i in below && i != last {
          assert numbers[i] != numbers[last];
        }
      }
      assert below == smaller + {last};
    }
  }

  /** A gapless numbering is determined by the order it induces. */
  lemma SameOrderSameNumbers(a: seq<int>, b: seq<int>)
    requires |a| == |b| && Gapless(a) && Gapless(b)
    requires forall i, j :: 0 <= i < |a| && 0 <= j < |a| && i != j ==> (a[i] < a[j] <==> b[i] < b[j])
    ensures a == b
  {
    forall i | 0 <= i < |a|
      ensures a[i] == b[i]
    {
      CountBelow(a, a[i]);
      CountBelow(b, b[i]);
      assert (set j | 0 <= j < |a| && a[j] < a[i]) == (set j | 0 <= j < |b| && b[j] < b[i]);
    }
  }

  lemma RestackingAgain(before: seq<Node>, once: seq<Node>, twice: seq<Node>, selected: set<nat>, order: ZOrder)
    requires IsRestacking(before, once, selected, order) && IsRestacking(once, twice, selected, order)
    ensures twice == once
  {
    var a, b := ZIndexes(once), ZIndexes(twice);
    forall i, j | 0 <= i < |once| && 0 <= j < |once| && i != j
      ensures a[i] < a[j] <==> b[i] < b[j]
    {
      assert a[i] != a[j];
      assert once[i].id == before[i].id && once[j].id == before[j].id;
      assert once[i].z < once[j].z <==> Beneath(before[i], before[j], selected, order);
      assert once[j].z < once[i].z <==> Beneath(before[j], before[i], selected, order);
    }
    SameOrderSameNumbers(a, b);
    forall i | 0 <= i < |once|
      ensures twice[i] == once[i]
    {
      assert a[i] == b[i];
    }
  }

  /** Doing it twice is doing it once. */
  lemma RestackedIsIdempotent(layout: Layout, selection: seq<nat>, order: ZOrder)
    requires WellFormed(layout) && |layout.nodes| <= I32_MAX
    ensures var once := Restacked(layout, selection, order);
      Restacked(once, selection, order) == once
  {
    if Expanded(layout, selection) != {} {
      var once := Restacked(layout, selection, order);
      RestackedIsRestacking(layout, selection, order);
      RestackedIsRestacking(once, selection, order);
      RestackingAgain(layout.nodes, once.nodes, Restacked(once, selection, order).nodes,
                      Expanded(layout, selection), order);
    }
  }
}
