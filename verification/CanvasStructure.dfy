/** Editing the canvas graph: removing, grouping, ungrouping and connecting nodes. */
module CanvasStructure {
  import opened Wrappers
  import opened StableSort
  import opened CanvasLayout

  /** Takes nodes out of their groups and drops groups left with fewer than two members. */
  function Shrink(groups: seq<Group>, taken: set<nat>): seq<Group> {
    if groups == [] then []
    else
      var members := groups[0].members - taken;
      (if |members| >= 2 then [Group(groups[0].id, members)] else []) + Shrink(groups[1..], taken)
  }

  function Spared(selected: set<nat>): Node -> bool {
    (n: Node) => n.id !in selected
  }

  function Detached(selected: set<nat>): Connection -> bool {
    (c: Connection) => c.source !in selected && c.target !in selected
  }

  function Untouched(selected: set<nat>): Group -> bool {
    (g: Group) => g.members * selected == {}
  }

  function Remove(layout: Layout, selection: seq<nat>): Layout {
    var selected := IdSet(selection);
    NewLayout(Filter(layout.nodes, Spared(selected)), Shrink(layout.groups, selected),
              Filter(layout.connections, Detached(selected)))
  }

  function GroupNodes(layout: Layout, selection: seq<nat>, all: Layout): Layout {
    var selected := IdSet(selection);
    if |selected| < 2 then layout
    else
      NewLayout(layout.nodes,
                Shrink(layout.groups, selected) + [Group(NextId(all.groups, GroupKey), selected)],
                layout.connections)
  }

  function Ungroup(layout: Layout, selection: seq<nat>): Layout {
    NewLayout(layout.nodes, Filter(layout.groups, Untouched(IdSet(selection))), layout.connections)
  }

  datatype ConnectError = NotTwoNodes | SourceMissing | TargetMissing | AlreadyConnected | IncompatibleNodes

  /** The last listed node with an identifier. */
  function FindNode(nodes: seq<Node>, id: nat): Option<Node> {
    if nodes == [] then None
    else
      var last := nodes[|nodes| - 1];
      if last.id == id then Some(last) else FindNode(nodes[..|nodes| - 1], id)
  }

  function Connect(layout: Layout, selection: seq<nat>, all: Layout): Result<Layout, ConnectError> {
    if |selection| != 2 then Err(NotTwoNodes)
    else
      var source, target := FindNode(layout.nodes, selection[0]), FindNode(layout.nodes, selection[1]);
      if source.None? then Err(SourceMissing)
      else if target.None? then Err(TargetMissing)
      else if exists c <- layout.connections :: c.source == source.value.id && c.target == target.value.id then
        Err(AlreadyConnected)
      else
        var kind := BetweenContent(source.value.content, target.value.content);
        if kind.None? then Err(IncompatibleNodes)
        else
          var connection := Connection(NextId(all.connections, ConnectionKey), selection[0], selection[1], kind.value);
          Ok(NewLayout(layout.nodes, layout.groups, layout.connections + [connection]))
  }

  // ----- Groups as a relation between nodes -----

  ghost predicate Together(groups: seq<Group>, a: nat, b: nat) {
    exists g <- groups :: a in g.members && b in g.members
  }

  lemma AtLeastTwo(s: set<nat>, a: nat, b: nat)
    requires a in s && b in s && a != b
    ensures |s| >= 2
  {
    assert {a, b} <= s;
    assert s == {a, b} + (s - {a, b});
  }

  /** Where the shrunken groups come from. */
  lemma {:induction false} ShrinkKeepsRest(groups: seq<Group>, taken: set<nat>)
    ensures forall h :: h in Shrink(groups, taken) <==>
      |h.members| >= 2 && exists g <- groups :: h == Group(g.id, g.members - taken)
  {
    if groups != [] {
      ShrinkKeepsRest(groups[1..], taken);
      assert groups == [groups[0]] + groups[1..];
    }
  }

  /** Nodes left outside stay together with the same nodes; nodes taken out are with nobody. */
  lemma ShrinkSeparates(groups: seq<Group>, taken: set<nat>, a: nat, b: nat)
    requires a != b
    ensures Together(Shrink(groups, taken), a, b) <==> Together(groups, a, b) && a !in taken && b !in taken
  {
    ShrinkKeepsRest(groups, taken);
    if Together(groups, a, b) && a !in taken && b !in taken {
      var g :| g in groups && a in g.members && b in g.members;
      var h := Group(g.id, g.members - taken);
      AtLeastTwo(h.members, a, b);
      assert h in Shrink(groups, taken);
    }
  }

  lemma ShrunkenTailIsApart(groups: seq<Group>, taken: set<nat>, ids: set<nat>, h: Group)
    requires groups != [] && Ascending(groups, GroupKey) && GroupsFit(groups, ids)
    requires h in Shrink(groups[1..], taken)
    ensures groups[0].id < h.id && groups[0].members !! h.members
  {
    ShrinkKeepsRest(groups[1..], taken);
    var g :| g in groups[1..] && h == Group(g.id, g.members - taken);
    var j :| 1 <= j < |groups| && groups[j] == g;
    assert GroupKey(groups[0]) < GroupKey(groups[j]);
  }

  lemma {:induction false} ShrinkKeepsAscending(groups: seq<Group>, taken: set<nat>, ids: set<nat>)
    requires Ascending(groups, GroupKey) && GroupsFit(groups, ids)
    ensures Ascending(Shrink(groups, taken), GroupKey)
  {
    if groups != [] {
      ShrinkKeepsAscending(groups[1..], taken, ids);
      var rest := Shrink(groups[1..], taken);
      forall i | 0 <= i < |rest|
        ensures GroupKey(groups[0]) < GroupKey(rest[i])
      {
        ShrunkenTailIsApart(groups, taken, ids, rest[i]);
      }
    }
  }

  lemma {:induction false} ShrinkKeepsGroupsFit(groups: seq<Group>, taken: set<nat>, ids: set<nat>)
    requires Ascending(groups, GroupKey) && GroupsFit(groups, ids)
    ensures GroupsFit(Shrink(groups, taken), ids - taken)
  {
    if groups != [] {
      ShrinkKeepsGroupsFit(groups[1..], taken, ids);
      var rest := Shrink(groups[1..], taken);
      forall i | 0 <= i < |rest|
        ensures groups[0].members !! rest[i].members
      {
        ShrunkenTailIsApart(groups, taken, ids, rest[i]);
      }
      assert groups[0] in groups;
    }
  }

  lemma AppendKeepsAscending<T>(items: seq<T>, item: T, key: T -> nat)
    requires Ascending(items, key) && forall k :: k in items ==> key(k) < key(item)
    ensures Ascending(items + [item], key)
  {
    var longer := items + [item];
    forall i, j | 0 <= i < j < |longer|
      ensures key(longer[i]) < key(longer[j])
    {
      if j == |items| {
        assert longer[i] in items;
      }
    }
  }

  // ----- Removing -----

  /** A group of the old ones without the selected nodes, under its old identifier, if two members are left. */
  ghost predicate IsLeftOf(h: Group, groups: seq<Group>, selection: seq<nat>) {
    |h.members| >= 2 && exists g <- groups :: h == Group(g.id, g.members - IdSet(selection))
  }

  ghost predicate AreLeft(left: seq<Group>, groups: seq<Group>, selection: seq<nat>) {
    forall h :: h in left <==> IsLeftOf(h, groups, selection)
  }

  lemma ShrunkenAreLeft(groups: seq<Group>, selection: seq<nat>)
    ensures AreLeft(Shrink(groups, IdSet(selection)), groups, selection)
  {
    ShrinkKeepsRest(groups, IdSet(selection));
  }

  /** The selected nodes are gone, with their connections and the groups that they left too small, and nothing else. */
  ghost predicate Removes(layout: Layout, selection: seq<nat>, removed: Layout) {
    && (forall n :: n in removed.nodes <==> n in layout.nodes && n.id !in selection)
    && (forall c :: c in removed.connections <==>
          c in layout.connections && c.source !in selection && c.target !in selection)
    && AreLeft(removed.groups, layout.groups, selection)
    && (forall a, b :: a != b ==>
          (Together(removed.groups, a, b) <==>
             Together(layout.groups, a, b) && a !in selection && b !in selection))
  }

  /** Removing nodes is atomic: the incident connections and emptied groups go with them, and nothing else. */
  lemma RemoveIsExact(layout: Layout, selection: seq<nat>)
    requires WellFormed(layout)
    ensures WellFormed(Remove(layout, selection)) && Removes(layout, selection, Remove(layout, selection))
  {
    RemovingKeepsWellFormed(layout, selection);
    ShrunkenAreLeft(layout.groups, selection);
    var groups := Shrink(layout.groups, IdSet(selection));
    forall a, b | a != b
      ensures Together(groups, a, b) <==> Together(layout.groups, a, b) && a !in selection && b !in selection
    {
      ShrinkSeparates(layout.groups, IdSet(selection), a, b);
    }
  }

  lemma RemovingKeepsWellFormed(layout: Layout, selection: seq<nat>)
    requires WellFormed(layout)
    ensures WellFormed(Remove(layout, selection))
    ensures var selected := IdSet(selection);
      Remove(layout, selection) == Layout(Filter(layout.nodes, Spared(selected)), Shrink(layout.groups, selected),
                                          Filter(layout.connections, Detached(selected)))
  {
    var selected := IdSet(selection);
    var nodes := Filter(layout.nodes, Spared(selected));
    var groups := Shrink(layout.groups, selected);
    var connections := Filter(layout.connections, Detached(selected));
    FilterKeepsAscending(layout.nodes, Spared(selected), NodeKey);
    FilterKeepsAscending(layout.connections, Detached(selected), ConnectionKey);
    ShrinkKeepsAscending(layout.groups, selected, NodeIds(layout.nodes));
    ShrinkKeepsGroupsFit(layout.groups, selected, NodeIds(layout.nodes));
    SparedIds(layout.nodes, selected);
    NewLayoutOfAscending(nodes, groups, connections);
    forall c | c in layout.connections && Detached(selected)(c)
      ensures ConnectionFits(c, nodes)
    {
      assert ConnectionFits(c, layout.nodes);
    }
    FilterKeepsConnectionsFit(layout.connections, Detached(selected), layout.nodes, nodes);
  }

  lemma SparedIds(nodes: seq<Node>, selected: set<nat>)
    ensures NodeIds(Filter(nodes, Spared(selected))) == NodeIds(nodes) - selected
  {
    forall id
      ensures id in NodeIds(Filter(nodes, Spared(selected))) <==> id in NodeIds(nodes) - selected
    {
      if id in NodeIds(nodes) - selected {
        var n :| n in nodes && NodeKey(n) == id;
        assert n in Filter(nodes, Spared(selected));
      }
    }
  }

  // ----- Grouping and ungrouping -----

  lemma ShrunkenIdsAreUsed(layout: Layout, selected: set<nat>, all: Layout, g: Group)
    requires Within(layout, all) && g in Shrink(layout.groups, selected)
    ensures g.id <= MaxKey(all.groups, GroupKey)
  {
    ShrinkKeepsRest(layout.groups, selected);
    var h :| h in layout.groups && g == Group(h.id, h.members - selected);
    assert GroupKey(h) in Keys(layout.groups, GroupKey);
    MaxKeyIsUpperBound(all.groups, GroupKey);
  }

  lemma AppendedGroupsFit(groups: seq<Group>, g: Group, ids: set<nat>)
    requires GroupsFit(groups, ids - g.members) && g.members <= ids && |g.members| >= 2
    ensures GroupsFit(groups + [g], ids)
  {
    var longer := groups + [g];
    forall h <- longer
      ensures h.members <= ids && |h.members| >= 2
    {
      assert h in groups || h == g;
    }
    forall i, j | 0 <= i < j < |longer|
      ensures longer[i].members !! longer[j].members
    {
      assert longer[i] in groups;
    }
  }

  lemma GroupingKeepsWellFormed(layout: Layout, selected: set<nat>, all: Layout)
    requires WellFormed(layout) && Within(layout, all)
    requires selected <= NodeIds(layout.nodes) && |selected| >= 2
    requires MaxKey(all.groups, GroupKey) < U64_MAX
    ensures var groups := Shrink(layout.groups, selected) + [Group(NextId(all.groups, GroupKey), selected)];
      && NewLayout(layout.nodes, groups, layout.connections) == Layout(layout.nodes, groups, layout.connections)
      && Ascending(groups, GroupKey)
      && GroupsFit(groups, NodeIds(layout.nodes))
  {
    var rest := Shrink(layout.groups, selected);
    var newGroup := Group(NextId(all.groups, GroupKey), selected);
    ShrinkKeepsAscending(layout.groups, selected, NodeIds(layout.nodes));
    ShrinkKeepsGroupsFit(layout.groups, selected, NodeIds(layout.nodes));
    forall g <- rest
      ensures GroupKey(g) < newGroup.id
    {
      ShrunkenIdsAreUsed(layout, selected, all, g);
    }
    AppendKeepsAscending(rest, newGroup, GroupKey);
    AppendedGroupsFit(rest, newGroup, NodeIds(layout.nodes));
    NewLayoutOfAscending(layout.nodes, rest + [newGroup], layout.connections);
  }

  lemma GroupingJoins(groups: seq<Group>, selected: set<nat>, id: nat, a: nat, b: nat)
    requires a != b
    ensures Together(Shrink(groups, selected) + [Group(id, selected)], a, b) <==>
      (a in selected && b in selected) || (a !in selected && b !in selected && Together(groups, a, b))
  {
    var rest, joined := Shrink(groups, selected), Group(id, selected);
    ShrinkSeparates(groups, selected, a, b);
    assert forall g :: g in rest + [joined] <==> g in rest || g == joined;
  }

  /** The groups are what is left of the old ones, and this one of all selected nodes behind them. */
  ghost predicate AddsGroup(groups: seq<Group>, grouped: seq<Group>, g: Group, selection: seq<nat>) {
    && grouped != [] && grouped[|grouped| - 1] == g && g.members == IdSet(selection)
    && AreLeft(grouped[..|grouped| - 1], groups, selection)
  }

  lemma AppendedIsAdded(groups: seq<Group>, g: Group, selection: seq<nat>)
    requires g.members == IdSet(selection)
    ensures AddsGroup(groups, Shrink(groups, IdSet(selection)) + [g], g, selection)
  {
    var rest := Shrink(groups, IdSet(selection));
    ShrunkenAreLeft(groups, selection);
    assert (rest + [g])[..|rest + [g]| - 1] == rest;
  }

  /** The selected nodes are together under an identifier that no group of any floor has, and out of their former
      groups; nothing else changes. */
  ghost predicate Groups(layout: Layout, selection: seq<nat>, all: Layout, grouped: Layout) {
    && grouped.nodes == layout.nodes && grouped.connections == layout.connections
    && (exists g :: AddsGroup(layout.groups, grouped.groups, g, selection) && g.id !in Keys(all.groups, GroupKey))
    && (forall a, b :: a != b ==>
          (Together(grouped.groups, a, b) <==>
             (a in selection && b in selection)
             || (a !in selection && b !in selection && Together(layout.groups, a, b))))
  }

  /** Fewer than two nodes make no group. */
  lemma FewAreNotGrouped(layout: Layout, selection: seq<nat>, all: Layout)
    requires |IdSet(selection)| < 2
    ensures GroupNodes(layout, selection, all) == layout
  {
  }

  /** Grouping puts exactly the selected nodes together, under an identifier that no group of any floor has, takes
      them out of their former groups and leaves every other pair of nodes as it was. */
  lemma GroupingIsExact(layout: Layout, selection: seq<nat>, all: Layout)
    requires WellFormed(layout) && Within(layout, all)
    requires IdSet(selection) <= NodeIds(layout.nodes) && |IdSet(selection)| >= 2
    requires MaxKey(all.groups, GroupKey) < U64_MAX
    ensures WellFormed(GroupNodes(layout, selection, all))
    ensures Groups(layout, selection, all, GroupNodes(layout, selection, all))
  {
    var selected := IdSet(selection);
    GroupingKeepsWellFormed(layout, selected, all);
    MaxKeyIsUpperBound(all.groups, GroupKey);
    AppendedIsAdded(layout.groups, Group(NextId(all.groups, GroupKey), selected), selection);
    forall a, b | a != b
      ensures Together(GroupNodes(layout, selection, all).groups, a, b) <==>
        (a in selection && b in selection)
        || (a !in selection && b !in selection && Together(layout.groups, a, b))
    {
      GroupingJoins(layout.groups, selected, NextId(all.groups, GroupKey), a, b);
    }
  }

  /** Grouping takes the selected identifiers as they are, so that one without a node leaves no canvas. */
  lemma GroupingNeedsNodes(layout: Layout, selection: seq<nat>, all: Layout)
    requires |IdSet(selection)| >= 2 && !(IdSet(selection) <= NodeIds(layout.nodes))
    ensures !WellFormed(GroupNodes(layout, selection, all))
  {
    var newGroup := Group(NextId(all.groups, GroupKey), IdSet(selection));
    var groups := Shrink(layout.groups, IdSet(selection)) + [newGroup];
    SortKeepsElements(groups, GroupOrder);
    SortKeepsElements(layout.nodes, NodeOrder);
    var grouped := GroupNodes(layout, selection, all);
    assert newGroup in grouped.groups;
    assert NodeIds(grouped.nodes) == NodeIds(layout.nodes);
  }

  ghost predicate Ungroups(layout: Layout, selection: seq<nat>, ungrouped: Layout) {
    && ungrouped.nodes == layout.nodes && ungrouped.connections == layout.connections
    && (forall g :: g in ungrouped.groups <==> g in layout.groups && forall m <- g.members :: m !in selection)
  }

  /** Ungrouping dissolves exactly the groups that hold a selected node, and keeps all nodes. */
  lemma UngroupIsExact(layout: Layout, selection: seq<nat>)
    requires WellFormed(layout)
    ensures WellFormed(Ungroup(layout, selection)) && Ungroups(layout, selection, Ungroup(layout, selection))
  {
    var untouched := Untouched(IdSet(selection));
    FilterKeepsAscending(layout.groups, untouched, GroupKey);
    FilterKeepsGroupsFit(layout.groups, untouched, NodeIds(layout.nodes));
    NewLayoutOfAscending(layout.nodes, Filter(layout.groups, untouched), layout.connections);
    forall g: Group
      ensures untouched(g) <==> forall m <- g.members :: m !in selection
    {
      assert forall m <- g.members :: m in selection ==> m in g.members * IdSet(selection);
    }
  }

  // ----- Connecting -----

  lemma {:induction false} FindNodeFinds(nodes: seq<Node>, id: nat)
    ensures var found := FindNode(nodes, id);
      if found.Some? then found.value in nodes && found.value.id == id else forall n <- nodes :: n.id != id
  {
    if nodes != [] {
      FindNodeFinds(nodes[..|nodes| - 1], id);
      assert nodes == nodes[..|nodes| - 1] + [nodes[|nodes| - 1]];
    }
  }

  /** What each kind of connection joins. A task is not connected to an agent. */
  predicate IsKindOf(kind: ConnectionKind, source: Content, target: Content) {
    if source.Owned? || target.Owned? then kind == Referring
    else
      match kind
      case Coordination => source.target.Agent? && target.target.Agent?
      case Assignment => source.target.Agent? && target.target.Task?
      case Dependency => source.target.Task? && target.target.Task?
      case HandingOff => source.target.Handoff? || target.target.Handoff?
      case Referring => false
  }

  lemma BetweenIsKindOf(source: Content, target: Content)
    ensures forall kind :: BetweenContent(source, target) == Some(kind) <==> IsKindOf(kind, source, target)
  {
  }

  /** Both nodes exist, are not connected in this direction yet, and admit a kind. */
  ghost predicate CanConnect(layout: Layout, source: nat, target: nat) {
    && (forall c <- layout.connections :: c.source != source || c.target != target)
    && (exists s, t, kind :: s in layout.nodes && t in layout.nodes && s.id == source && t.id == target
                             && IsKindOf(kind, s.content, t.content))
  }

  /** One connection more, under an identifier that no connection of any floor has. */
  ghost predicate AddsConnection(layout: Layout, connected: Layout, source: nat, target: nat, all: Layout) {
    && connected.nodes == layout.nodes && connected.groups == layout.groups
    && exists c :: connected.connections == layout.connections + [c] && c.source == source && c.target == target
                   && c.id !in Keys(all.connections, ConnectionKey)
                   && JoinsByKind(c, layout.nodes)
  }

  /** The connection is of the kind that its ends admit. */
  ghost predicate JoinsByKind(c: Connection, nodes: seq<Node>) {
    exists s, t :: s in nodes && t in nodes && s.id == c.source && t.id == c.target
                   && IsKindOf(c.kind, s.content, t.content)
  }

  lemma ConnectIffPossible(layout: Layout, source: nat, target: nat, all: Layout)
    requires WellFormed(layout)
    ensures Connect(layout, [source, target], all).Ok? <==> CanConnect(layout, source, target)
  {
    FindNodeFinds(layout.nodes, source);
    FindNodeFinds(layout.nodes, target);
    var s, t := FindNode(layout.nodes, source), FindNode(layout.nodes, target);
    forall a, b | a in layout.nodes && b in layout.nodes && a.id == source && b.id == target
      ensures s == Some(a) && t == Some(b)
    {
      SameKeySameItem(layout.nodes, NodeKey, a, s.value);
      SameKeySameItem(layout.nodes, NodeKey, b, t.value);
    }
    if s.Some? && t.Some? {
      BetweenIsKindOf(s.value.content, t.value.content);
      var kind := BetweenContent(s.value.content, t.value.content);
      assert kind.Some? ==> IsKindOf(kind.value, s.value.content, t.value.content);
    }
  }

  /** Two nodes can be connected in a direction exactly when both exist, are not yet connected that way and
      admit a kind; the result adds that one connection. It is a canvas the domain accepts if and only if the
      two nodes differ: this function itself does not refuse to connect a node with itself. */
  lemma ConnectIsExact(layout: Layout, source: nat, target: nat, all: Layout)
    requires WellFormed(layout) && Within(layout, all)
    requires MaxKey(all.connections, ConnectionKey) < U64_MAX
    ensures var connected := Connect(layout, [source, target], all);
      && (connected.Ok? <==> CanConnect(layout, source, target))
      && (connected.Ok? ==>
            && (WellFormed(connected.value) <==> source != target)
            && AddsConnection(layout, connected.value, source, target, all))
  {
    ConnectIffPossible(layout, source, target, all);
    FindNodeFinds(layout.nodes, source);
    FindNodeFinds(layout.nodes, target);
    var s, t := FindNode(layout.nodes, source), FindNode(layout.nodes, target);
    if Connect(layout, [source, target], all).Ok? {
      var kind := BetweenContent(s.value.content, t.value.content).value;
      ConnectAppends(layout, Connection(NextId(all.connections, ConnectionKey), source, target, kind), all);
    }
  }

  /** One agent on an otherwise empty canvas can be connected with itself, which no canvas of the domain allows. */
  lemma SelfConnectionIsIllFormed()
    ensures var layout := Layout([Node(1, Reference(Agent(1)), 0.0, 0.0, 240.0, 160.0, 0)], [], []);
      var connected := Connect(layout, [1, 1], layout);
      WellFormed(layout) && connected.Ok? && !WellFormed(connected.value)
  {
    var node := Node(1, Reference(Agent(1)), 0.0, 0.0, 240.0, 160.0, 0);
    var layout := Layout([node], [], []);
    assert node in layout.nodes;
    ConnectIsExact(layout, 1, 1, layout);
  }

  lemma AppendedConnectionsFit(connections: seq<Connection>, c: Connection, nodes: seq<Node>)
    requires ConnectionsFit(connections, nodes) && ConnectionFits(c, nodes)
    requires forall d <- connections :: d.source != c.source || d.target != c.target
    ensures ConnectionsFit(connections + [c], nodes)
  {
    var longer := connections + [c];
    forall d <- longer
      ensures ConnectionFits(d, nodes)
    {
      assert d in connections || d == c;
    }
    forall i, j | 0 <= i < j < |longer|
      ensures longer[i].source != longer[j].source || longer[i].target != longer[j].target
    {
      assert longer[i] in connections;
    }
  }

  lemma JoinedByKind(c: Connection, nodes: seq<Node>)
    requires exists s, t :: s in nodes && t in nodes && s.id == c.source && t.id == c.target
                            && BetweenContent(s.content, t.content) == Some(c.kind)
    ensures JoinsByKind(c, nodes)
  {
    var s, t :| s in nodes && t in nodes && s.id == c.source && t.id == c.target
                && BetweenContent(s.content, t.content) == Some(c.kind);
    BetweenIsKindOf(s.content, t.content);
  }

  /** Why two nodes cannot be connected: the first reason that holds, of the ones below. */
  lemma ConnectRefuses(layout: Layout, selection: seq<nat>, all: Layout)
    requires WellFormed(layout) && Connect(layout, selection, all).Err?
    ensures Connect(layout, selection, all).error
         == if |selection| != 2 then NotTwoNodes
            else if forall n <- layout.nodes :: n.id != selection[0] then SourceMissing
            else if forall n <- layout.nodes :: n.id != selection[1] then TargetMissing
            else if exists c <- layout.connections :: c.source == selection[0] && c.target == selection[1]
            then AlreadyConnected
            else IncompatibleNodes
  {
    if |selection| == 2 {
      FindNodeFinds(layout.nodes, selection[0]);
      FindNodeFinds(layout.nodes, selection[1]);
    }
  }

  lemma ConnectAppends(layout: Layout, c: Connection, all: Layout)
    requires WellFormed(layout) && Within(layout, all)
    requires MaxKey(all.connections, ConnectionKey) < U64_MAX && c.id == NextId(all.connections, ConnectionKey)
    requires forall d <- layout.connections :: d.source != c.source || d.target != c.target
    requires exists s, t :: s in layout.nodes && t in layout.nodes && s.id == c.source && t.id == c.target
                            && BetweenContent(s.content, t.content) == Some(c.kind)
    ensures var connected := NewLayout(layout.nodes, layout.groups, layout.connections + [c]);
      && connected == Layout(layout.nodes, layout.groups, layout.connections + [c])
      && (WellFormed(connected) <==> c.source != c.target)
      && AddsConnection(layout, connected, c.source, c.target, all)
  {
    var connections := layout.connections + [c];
    MaxKeyIsUpperBound(all.connections, ConnectionKey);
    forall d <- layout.connections
      ensures ConnectionKey(d) < c.id
    {
      assert ConnectionKey(d) in Keys(layout.connections, ConnectionKey);
    }
    AppendKeepsAscending(layout.connections, c, ConnectionKey);
    NewLayoutOfAscending(layout.nodes, layout.groups, connections);
    JoinedByKind(c, layout.nodes);
    if c.source != c.target {
      AppendedConnectionsFit(layout.connections, c, layout.nodes);
    } else {
      assert c in connections && !ConnectionFits(c, layout.nodes);
    }
  }
}
