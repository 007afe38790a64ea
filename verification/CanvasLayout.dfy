/** The canvas graph: nodes, disjoint groups of nodes and directed, typed connections, each list kept in
    ascending identifier order. */
module CanvasLayout {
  import opened Wrappers
  import opened StableSort

  const I32_MAX: int := 0x7FFF_FFFF

  datatype NodeTarget = Agent(agentId: nat) | Task(taskId: nat) | Handoff(handoffId: nat)

  /** A node refers to a workspace entity or owns its content; the body stands for every owned kind. */
  datatype Content = Reference(target: NodeTarget) | Owned(body: string)

  datatype Node = Node(id: nat, content: Content, x: real, y: real, width: real, height: real, z: int)

  datatype Group = Group(id: nat, members: set<nat>)

  datatype ConnectionKind = Coordination | Assignment | Dependency | HandingOff | Referring

  datatype Connection = Connection(id: nat, source: nat, target: nat, kind: ConnectionKind)

  datatype Layout = Layout(nodes: seq<Node>, groups: seq<Group>, connections: seq<Connection>)

  function Between(source: NodeTarget, target: NodeTarget): Option<ConnectionKind> {
    match (source, target)
    case (Agent(_), Agent(_)) => Some(Coordination)
    case (Agent(_), Task(_)) => Some(Assignment)
    case (Task(_), Task(_)) => Some(Dependency)
    case (_, Handoff(_)) => Some(HandingOff)
    case (Handoff(_), _) => Some(HandingOff)
    case _ => None
  }

  function BetweenContent(source: Content, target: Content): Option<ConnectionKind> {
    match (source, target)
    case (Reference(s), Reference(t)) => Between(s, t)
    case _ => Some(Referring)
  }

  // ----- Construction sorts by identifier -----

  predicate NodeOrder(a: Node, b: Node) { a.id <= b.id }

  predicate GroupOrder(a: Group, b: Group) { a.id <= b.id }

  predicate ConnectionOrder(a: Connection, b: Connection) { a.id <= b.id }

  function NewLayout(nodes: seq<Node>, groups: seq<Group>, connections: seq<Connection>): Layout {
    Layout(Sort(nodes, NodeOrder), Sort(groups, GroupOrder), Sort(connections, ConnectionOrder))
  }

  // ----- Identifiers -----

  function NodeKey(node: Node): nat { node.id }

  function GroupKey(group: Group): nat { group.id }

  function ConnectionKey(connection: Connection): nat { connection.id }

  ghost function Keys<T>(items: seq<T>, key: T -> nat): set<nat> {
    set item <- items :: key(item)
  }

  function IdSet(selection: seq<nat>): set<nat> {
    set id <- selection
  }

  ghost function NodeIds(nodes: seq<Node>): set<nat> {
    Keys(nodes, NodeKey)
  }

  function MaxKey<T>(items: seq<T>, key: T -> nat): nat {
    if items == [] then 0
    else
      var rest := MaxKey(items[1..], key);
      if key(items[0]) > rest then key(items[0]) else rest
  }

  /** One past the largest identifier in use, or the largest 64-bit integer when there is none left. */
  function NextId<T>(items: seq<T>, key: T -> nat): nat {
    SaturatingAdd(MaxKey(items, key), 1)
  }

  lemma {:induction false} MaxKeyIsUpperBound<T>(items: seq<T>, key: T -> nat)
    ensures forall k :: k in Keys(items, key) ==> k <= MaxKey(items, key)
  {
    if items != [] {
      MaxKeyIsUpperBound(items[1..], key);
      assert items == [items[0]] + items[1..];
      forall k | k in Keys(items, key)
        ensures k == key(items[0]) || k in Keys(items[1..], key)
      {
        var item :| item in items && key(item) == k;
        assert item == items[0] || item in items[1..];
      }
    }
  }

  /** The next id is one above the largest in use, or 1 when there is none, unless the counter is at its end. */
  lemma {:induction false} NextIdIsOneAbove<T>(items: seq<T>, key: T -> nat)
    ensures items == [] ==> NextId(items, key) == 1
    ensures items != [] ==> MaxKey(items, key) in Keys(items, key)
    ensures items != [] && MaxKey(items, key) < 0xFFFF_FFFF_FFFF_FFFF ==>
              NextId(items, key) - 1 in Keys(items, key) && NextId(items, key) !in Keys(items, key)
  {
    if items != [] {
      NextIdIsOneAbove(items[1..], key);
      MaxKeyIsUpperBound(items, key);
      assert items[0] in items;
      if items[1..] != [] {
        var item :| item in items[1..] && key(item) == MaxKey(items[1..], key);
        assert item in items;
      }
    }
  }

  // ----- Well-formedness -----

  predicate Ascending<T>(items: seq<T>, key: T -> nat) {
    forall i, j :: 0 <= i < j < |items| ==> key(items[i]) < key(items[j])
  }

  ghost predicate GroupsFit(groups: seq<Group>, ids: set<nat>) {
    && (forall g <- groups :: g.members <= ids && |g.members| >= 2)
    && (forall i, j :: 0 <= i < j < |groups| ==> groups[i].members !! groups[j].members)
  }

  /** The endpoints exist, differ, and admit a connection of this kind. */
  ghost predicate ConnectionFits(c: Connection, nodes: seq<Node>) {
    && c.source != c.target
    && (exists s, t :: s in nodes && t in nodes && s.id == c.source && t.id == c.target
                       && BetweenContent(s.content, t.content) == Some(c.kind))
  }

  ghost predicate ConnectionsFit(connections: seq<Connection>, nodes: seq<Node>) {
    && (forall c <- connections :: ConnectionFits(c, nodes))
    && (forall i, j :: 0 <= i < j < |connections| ==>
          connections[i].source != connections[j].source || connections[i].target != connections[j].target)
  }

  /** What the domain accepts as a canvas. */
  ghost predicate WellFormed(layout: Layout) {
    && Ascending(layout.nodes, NodeKey)
    && Ascending(layout.groups, GroupKey)
    && Ascending(layout.connections, ConnectionKey)
    && GroupsFit(layout.groups, NodeIds(layout.nodes))
    && ConnectionsFit(layout.connections, layout.nodes)
  }

  /** A layout that shows one part of a larger canvas. */
  ghost predicate Within(layout: Layout, all: Layout) {
    && NodeIds(layout.nodes) <= NodeIds(all.nodes)
    && Keys(layout.groups, GroupKey) <= Keys(all.groups, GroupKey)
    && Keys(layout.connections, ConnectionKey) <= Keys(all.connections, ConnectionKey)
  }

  lemma NewLayoutOfAscending(nodes: seq<Node>, groups: seq<Group>, connections: seq<Connection>)
    requires Ascending(nodes, NodeKey) && Ascending(groups, GroupKey) && Ascending(connections, ConnectionKey)
    ensures NewLayout(nodes, groups, connections) == Layout(nodes, groups, connections)
  {
    forall i, j | 0 <= i < j < |nodes| ensures NodeOrder(nodes[i], nodes[j]) {
      assert NodeKey(nodes[i]) < NodeKey(nodes[j]);
    }
    forall i, j | 0 <= i < j < |groups| ensures GroupOrder(groups[i], groups[j]) {
      assert GroupKey(groups[i]) < GroupKey(groups[j]);
    }
    forall i, j | 0 <= i < j < |connections| ensures ConnectionOrder(connections[i], connections[j]) {
      assert ConnectionKey(connections[i]) < ConnectionKey(connections[j]);
    }
    SortOfSorted(nodes, NodeOrder);
    SortOfSorted(groups, GroupOrder);
    SortOfSorted(connections, ConnectionOrder);
  }

  // ----- Filtering -----

  function Filter<T(!new)>(items: seq<T>, keep: T -> bool): (kept: seq<T>)
    ensures forall item :: item in kept <==> item in items && keep(item)
  {
    if items == [] then []
    else
      assert items == [items[0]] + items[1..];
      (if keep(items[0]) then [items[0]] else []) + Filter(items[1..], keep)
  }

  predicate Pairwise<T>(items: seq<T>, related: (T, T) -> bool) {
    forall i, j :: 0 <= i < j < |items| ==> related(items[i], items[j])
  }

  /** Filtering keeps the order, so what holds of every pair still does. */
  lemma {:induction false} FilterKeepsPairwise<T(!new)>(items: seq<T>, keep: T -> bool, related: (T, T) -> bool)
    requires Pairwise(items, related)
    ensures Pairwise(Filter(items, keep), related)
  {
    if items != [] {
      var tail := Filter(items[1..], keep);
      FilterKeepsPairwise(items[1..], keep, related);
      forall i | 0 <= i < |tail|
        ensures related(items[0], tail[i])
      {
        assert tail[i] in items[1..];
      }
    }
  }

  lemma FilterKeepsAscending<T(!new)>(items: seq<T>, keep: T -> bool, key: T -> nat)
    requires Ascending(items, key)
    ensures Ascending(Filter(items, keep), key)
  {
    var before := (a, b) => key(a) < key(b);
    FilterKeepsPairwise(items, keep, before);
    var kept := Filter(items, keep);
    forall i, j | 0 <= i < j < |kept|
      ensures key(kept[i]) < key(kept[j])
    {
      assert before(kept[i], kept[j]);
    }
  }

  lemma FilterKeepsGroupsFit(groups: seq<Group>, keep: Group -> bool, ids: set<nat>)
    requires GroupsFit(groups, ids)
    ensures GroupsFit(Filter(groups, keep), ids)
  {
    var apart := (a: Group, b: Group) => a.members !! b.members;
    FilterKeepsPairwise(groups, keep, apart);
    var kept := Filter(groups, keep);
    forall i, j | 0 <= i < j < |kept|
      ensures kept[i].members !! kept[j].members
    {
      assert apart(kept[i], kept[j]);
    }
  }

  lemma FilterKeepsConnectionsFit(connections: seq<Connection>, keep: Connection -> bool,
                                  nodes: seq<Node>, kept: seq<Node>)
    requires ConnectionsFit(connections, nodes)
    requires forall c :: c in connections && keep(c) ==> ConnectionFits(c, kept)
    ensures ConnectionsFit(Filter(connections, keep), kept)
  {
    var differ := (a: Connection, b: Connection) => a.source != b.source || a.target != b.target;
    FilterKeepsPairwise(connections, keep, differ);
    var left := Filter(connections, keep);
    forall i, j | 0 <= i < j < |left|
      ensures left[i].source != left[j].source || left[i].target != left[j].target
    {
      assert differ(left[i], left[j]);
    }
  }

  /** Lists in ascending identifier order have one entry per identifier. */
  lemma SameKeySameItem<T>(items: seq<T>, key: T -> nat, a: T, b: T)
    requires Ascending(items, key) && a in items && b in items && key(a) == key(b)
    ensures a == b
  {
    var i :| 0 <= i < |items| && items[i] == a;
    var j :| 0 <= j < |items| && items[j] == b;
  }

  // ----- Distinct nodes -----

  ghost predicate Distinct(nodes: seq<Node>) {
    forall i, j :: 0 <= i < j < |nodes| ==> nodes[i].id != nodes[j].id
  }

  lemma {:induction false} InsertKeepsDistinct(n: Node, nodes: seq<Node>, le: (Node, Node) -> bool)
    requires Distinct(nodes) && forall m <- nodes :: m.id != n.id
    ensures Distinct(Insert(n, nodes, le))
  {
    if nodes != [] && !le(n, nodes[0]) {
      InsertKeepsDistinct(n, nodes[1..], le);
      InsertKeepsElements(n, nodes[1..], le);
      var rest := Insert(n, nodes[1..], le);
      forall m <- rest
        ensures m.id != nodes[0].id
      {
        assert m in multiset(rest);
      }
    }
  }

  lemma {:induction false} SortKeepsDistinct(nodes: seq<Node>, le: (Node, Node) -> bool)
    requires Distinct(nodes)
    ensures Distinct(Sort(nodes, le))
  {
    if nodes != [] {
      SortKeepsDistinct(nodes[1..], le);
      SortKeepsElements(nodes[1..], le);
      forall m <- Sort(nodes[1..], le)
        ensures m.id != nodes[0].id
      {
        assert m in nodes[1..];
      }
      InsertKeepsDistinct(nodes[0], Sort(nodes[1..], le), le);
    }
  }

  lemma AscendingIsDistinct(nodes: seq<Node>)
    requires Ascending(nodes, NodeKey)
    ensures Distinct(nodes)
  {
    assert forall i, j :: 0 <= i < j < |nodes| ==> NodeKey(nodes[i]) < NodeKey(nodes[j]);
  }
}
