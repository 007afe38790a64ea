/** Duplicating a selection, cutting it out as a fragment, and pasting a fragment under fresh identifiers. */
module CanvasCopying {
  import opened Wrappers
  import opened StableSort
  import opened CanvasLayout
  import opened CanvasSelection

  const DUPLICATE_OFFSET: real := 40.0

  /** One more, but no more than the largest 32-bit integer. */
  function NextZ(z: int): int {
    if z >= I32_MAX then I32_MAX else z + 1
  }

  /** The largest z index, or 0 on an empty canvas. */
  function TopZ(nodes: seq<Node>): int {
    if nodes == [] then 0
    else if |nodes| == 1 then nodes[0].z
    else
      var rest := TopZ(nodes[1..]);
      if nodes[0].z > rest then nodes[0].z else rest
  }

  function CopyOf(n: Node, id: nat, z: int): Node {
    Node(id, n.content, n.x + DUPLICATE_OFFSET, n.y + DUPLICATE_OFFSET, n.width, n.height, z)
  }

  /** The copy has the content and the size of its original, and lies by the offset further right and further down. */
  predicate IsCopy(original: Node, copy: Node, offset: real) {
    && copy.content == original.content
    && copy.x == original.x + offset && copy.y == original.y + offset
    && copy.width == original.width && copy.height == original.height
  }

  // ----- One copying loop each for nodes, groups and connections -----

  function CopyNodes(nodes: seq<Node>, nextId: nat, nextZ: int): seq<Node> {
    if nodes == [] then []
    else [CopyOf(nodes[0], nextId, nextZ)] + CopyNodes(nodes[1..], SaturatingAdd(nextId, 1), NextZ(nextZ))
  }

  /** The old identifier of every copied node with its new one. */
  function CopyIds(nodes: seq<Node>, nextId: nat, ids: map<nat, nat>): map<nat, nat> {
    if nodes == [] then ids
    else CopyIds(nodes[1..], SaturatingAdd(nextId, 1), ids[nodes[0].id := nextId])
  }

  function Image(members: set<nat>, ids: map<nat, nat>): set<nat>
    requires members <= ids.Keys
  {
    set m <- members :: ids[m]
  }

  /** Groups all of whose members were copied. */
  function CopyGroups(groups: seq<Group>, ids: map<nat, nat>, nextId: nat): seq<Group> {
    if groups == [] then []
    else if groups[0].members <= ids.Keys then
      [Group(nextId, Image(groups[0].members, ids))] + CopyGroups(groups[1..], ids, SaturatingAdd(nextId, 1))
    else CopyGroups(groups[1..], ids, nextId)
  }

  /** Connections both of whose ends were copied. */
  function CopyConnections(connections: seq<Connection>, ids: map<nat, nat>, nextId: nat): seq<Connection> {
    if connections == [] then []
    else
      var c := connections[0];
      if c.source in ids && c.target in ids then
        [Connection(nextId, ids[c.source], ids[c.target], c.kind)]
        + CopyConnections(connections[1..], ids, SaturatingAdd(nextId, 1))
      else CopyConnections(connections[1..], ids, nextId)
  }

  /** The values of a map in ascending key order. */
  function ValuesByKey(ids: map<nat, nat>): seq<nat> {
    var keys := AscendingList(ids.Keys);
    seq(|keys|, i requires 0 <= i < |keys| => assert keys[i] in keys; ids[keys[i]])
  }

  /** A canvas with copies of some nodes, and of the groups and connections among them, and the new selection. */
  function WithCopies(layout: Layout, nodes: seq<Node>, groups: seq<Group>, connections: seq<Connection>,
                      all: Layout): (Layout, seq<nat>) {
    var nextNode := NextId(all.nodes, NodeKey);
    var ids := CopyIds(nodes, nextNode, map[]);
    (NewLayout(layout.nodes + CopyNodes(nodes, nextNode, NextZ(TopZ(layout.nodes))),
               layout.groups + CopyGroups(groups, ids, NextId(all.groups, GroupKey)),
               layout.connections + CopyConnections(connections, ids, NextId(all.connections, ConnectionKey))),
     ValuesByKey(ids))
  }

  function Chosen(selected: set<nat>): Node -> bool {
    (n: Node) => n.id in selected
  }

  function Enclosed(selected: set<nat>): Group -> bool {
    (g: Group) => g.members <= selected
  }

  function Internal(selected: set<nat>): Connection -> bool {
    (c: Connection) => c.source in selected && c.target in selected
  }

  function Duplicated(layout: Layout, selection: seq<nat>, all: Layout): (Layout, seq<nat>) {
    var selected := Expanded(layout, selection);
    if selected == {} then (layout, [])
    else WithCopies(layout, Filter(layout.nodes, Chosen(selected)), layout.groups, layout.connections, all)
  }

  function SelectionFragment(layout: Layout, selection: seq<nat>): Layout {
    var selected := Expanded(layout, selection);
    NewLayout(Filter(layout.nodes, Chosen(selected)), Filter(layout.groups, Enclosed(selected)),
              Filter(layout.connections, Internal(selected)))
  }

  function Pasted(layout: Layout, fragment: Layout, all: Layout): (Layout, seq<nat>) {
    if fragment.nodes == [] then (layout, [])
    else WithCopies(layout, fragment.nodes, fragment.groups, fragment.connections, all)
  }

  // ----- The loops -----

  method Duplicate(layout: Layout, selection: seq<nat>, all: Layout) returns (after: Layout, copied: seq<nat>)
    ensures (after, copied) == Duplicated(layout, selection, all)
  {
    var selected := ExpandedSelection(layout, selection);
    if selected == {} {
      return layout, [];
    }
    var nodes, ids := CopyChosenInto(layout.nodes, selected, NextId(all.nodes, NodeKey));
    var groups := CopyGroupsInto(layout.groups, layout.groups, ids, NextId(all.groups, GroupKey));
    var connections :=
      CopyConnectionsInto(layout.connections, layout.connections, ids, NextId(all.connections, ConnectionKey));
    return NewLayout(nodes, groups, connections), ValuesByKey(ids);
  }

  method PasteFragment(layout: Layout, fragment: Layout, all: Layout) returns (after: Layout, copied: seq<nat>)
    ensures (after, copied) == Pasted(layout, fragment, all)
  {
    if fragment.nodes == [] {
      return layout, [];
    }
    var nextNode, nextZ := NextId(all.nodes, NodeKey), NextZ(TopZ(layout.nodes));
    var ids: map<nat, nat> := map[];
    var nodes := layout.nodes;
    ghost var allIds := CopyIds(fragment.nodes, nextNode, map[]);
    ghost var allNodes := layout.nodes + CopyNodes(fragment.nodes, nextNode, nextZ);
    for i := 0 to |fragment.nodes|
      invariant nodes + CopyNodes(fragment.nodes[i..], nextNode, nextZ) == allNodes
      invariant CopyIds(fragment.nodes[i..], nextNode, ids) == allIds
    {
      var node := fragment.nodes[i];
      assert fragment.nodes[i..] == [node] + fragment.nodes[i + 1..];
      nodes := nodes + [CopyOf(node, nextNode, nextZ)];
      ids := ids[node.id := nextNode];
      nextNode, nextZ := SaturatingAdd(nextNode, 1), NextZ(nextZ);
    }
    assert nodes == allNodes && ids == allIds by {
      assert fragment.nodes[|fragment.nodes|..] == [];
      assert nodes + [] == nodes;
    }
    var groups := CopyGroupsInto(layout.groups, fragment.groups, ids, NextId(all.groups, GroupKey));
    var connections :=
      CopyConnectionsInto(layout.connections, fragment.connections, ids, NextId(all.connections, ConnectionKey));
    return NewLayout(nodes, groups, connections), ValuesByKey(ids);
  }

  lemma FilterStep(nodes: seq<Node>, i: nat, keep: Node -> bool)
    requires i < |nodes|
    ensures var rest := Filter(nodes[i + 1..], keep);
      if keep(nodes[i]) then Filter(nodes[i..], keep) != [] && Filter(nodes[i..], keep)[0] == nodes[i]
                             && Filter(nodes[i..], keep)[1..] == rest
      else Filter(nodes[i..], keep) == rest
  {
    assert nodes[i..][1..] == nodes[i + 1..];
  }

  ghost predicate AreShifted(originals: seq<Node>, copies: seq<Node>, offset: real) {
    |copies| == |originals| && forall i :: 0 <= i < |originals| ==> IsCopy(originals[i], copies[i], offset)
  }

  lemma {:induction false} CopiesAreShifted(nodes: seq<Node>, nextId: nat, nextZ: int)
    ensures AreShifted(nodes, CopyNodes(nodes, nextId, nextZ), DUPLICATE_OFFSET)
  {
    if nodes != [] {
      CopiesAreShifted(nodes[1..], SaturatingAdd(nextId, 1), NextZ(nextZ));
    }
  }

  method CopyChosenInto(start: seq<Node>, selected: set<nat>, nextId: nat)
    returns (nodes: seq<Node>, ids: map<nat, nat>)
    ensures |start| <= |nodes| && nodes[..|start|] == start
    ensures AreShifted(Filter(start, Chosen(selected)), nodes[|start|..], 40.0)
    ensures nodes == start + CopyNodes(Filter(start, Chosen(selected)), nextId, NextZ(TopZ(start)))
    ensures ids == CopyIds(Filter(start, Chosen(selected)), nextId, map[])
  {
    nodes, ids := start, map[];
    var nextNode, nextZ := nextId, NextZ(TopZ(start));
    ghost var chosen := Filter(start, Chosen(selected));
    for i := 0 to |start|
      invariant nodes + CopyNodes(Filter(start[i..], Chosen(selected)), nextNode, nextZ)
             == start + CopyNodes(chosen, nextId, NextZ(TopZ(start)))
      invariant CopyIds(Filter(start[i..], Chosen(selected)), nextNode, ids) == CopyIds(chosen, nextId, map[])
    {
      FilterStep(start, i, Chosen(selected));
      if start[i].id in selected {
        nodes := nodes + [CopyOf(start[i], nextNode, nextZ)];
        ids := ids[start[i].id := nextNode];
        nextNode, nextZ := SaturatingAdd(nextNode, 1), NextZ(nextZ);
      }
    }
    assert nodes + [] == nodes;
    CopiesAreShifted(chosen, nextId, NextZ(TopZ(start)));
    assert nodes[|start|..] == CopyNodes(chosen, nextId, NextZ(TopZ(start)));
  }

  method CopyGroupsInto(start: seq<Group>, source: seq<Group>, ids: map<nat, nat>, nextId: nat)
    returns (groups: seq<Group>)
    ensures groups == start + CopyGroups(source, ids, nextId)
  {
    groups := start;
    var nextGroup := nextId;
    for i := 0 to |source|
      invariant groups + CopyGroups(source[i..], ids, nextGroup) == start + CopyGroups(source, ids, nextId)
    {
      assert source[i..] == [source[i]] + source[i + 1..];
      if source[i].members <= ids.Keys {
        groups := groups + [Group(nextGroup, Image(source[i].members, ids))];
        nextGroup := SaturatingAdd(nextGroup, 1);
      }
    }
  }

  method CopyConnectionsInto(start: seq<Connection>, source: seq<Connection>, ids: map<nat, nat>, nextId: nat)
    returns (connections: seq<Connection>)
    ensures connections == start + CopyConnections(source, ids, nextId)
  {
    connections := start;
    var next := nextId;
    for i := 0 to |source|
      invariant connections + CopyConnections(source[i..], ids, next) == start + CopyConnections(source, ids, nextId)
    {
      var c := source[i];
      assert source[i..] == [c] + source[i + 1..];
      if c.source in ids && c.target in ids {
        connections := connections + [Connection(next, ids[c.source], ids[c.target], c.kind)];
        next := SaturatingAdd(next, 1);
      }
    }
  }

  // ----- Duplicating is cutting out and pasting -----

  lemma {:induction false} CopyIdsKeys(nodes: seq<Node>, nextId: nat, ids: map<nat, nat>)
    ensures CopyIds(nodes, nextId, ids).Keys == NodeIds(nodes) + ids.Keys
  {
    if nodes != [] {
      CopyIdsKeys(nodes[1..], SaturatingAdd(nextId, 1), ids[nodes[0].id := nextId]);
      assert nodes == [nodes[0]] + nodes[1..];
      assert NodeIds(nodes) == {nodes[0].id} + NodeIds(nodes[1..]) by {
        forall id
          ensures id in NodeIds(nodes) <==> id in {nodes[0].id} + NodeIds(nodes[1..])
        {
          if id in NodeIds(nodes) {
            var n :| n in nodes && NodeKey(n) == id;
            assert n == nodes[0] || n in nodes[1..];
          }
          if id in NodeIds(nodes[1..]) {
            var n :| n in nodes[1..] && NodeKey(n) == id;
            assert n in nodes;
          }
          assert nodes[0] in nodes && NodeKey(nodes[0]) == nodes[0].id;
        }
      }
    }
  }

  lemma {:induction false} CopyGroupsOfFiltered(groups: seq<Group>, selected: set<nat>, ids: map<nat, nat>, nextId: nat)
    requires forall g <- groups :: g.members <= selected <==> g.members <= ids.Keys
    ensures CopyGroups(Filter(groups, Enclosed(selected)), ids, nextId) == CopyGroups(groups, ids, nextId)
  {
    if groups != [] {
      assert groups[0] in groups;
      var next := if groups[0].members <= ids.Keys then SaturatingAdd(nextId, 1) else nextId;
      CopyGroupsOfFiltered(groups[1..], selected, ids, next);
      var tail := Filter(groups[1..], Enclosed(selected));
      if groups[0].members <= selected {
        assert Filter(groups, Enclosed(selected)) == [groups[0]] + tail;
      } else {
        assert Filter(groups, Enclosed(selected)) == tail;
      }
    }
  }

  lemma {:induction false} CopyConnectionsOfFiltered(connections: seq<Connection>, selected: set<nat>,
                                                     ids: map<nat, nat>, nextId: nat)
    requires forall c <- connections ::
      (c.source in selected <==> c.source in ids) && (c.target in selected <==> c.target in ids)
    ensures CopyConnections(Filter(connections, Internal(selected)), ids, nextId)
         == CopyConnections(connections, ids, nextId)
  {
    if connections != [] {
      var c := connections[0];
      assert c in connections;
      var next := if c.source in ids && c.target in ids then SaturatingAdd(nextId, 1) else nextId;
      CopyConnectionsOfFiltered(connections[1..], selected, ids, next);
      var tail := Filter(connections[1..], Internal(selected));
      if c.source in selected && c.target in selected {
        assert Filter(connections, Internal(selected)) == [c] + tail;
      } else {
        assert Filter(connections, Internal(selected)) == tail;
      }
    }
  }

  lemma ChosenIds(nodes: seq<Node>, selected: set<nat>)
    ensures NodeIds(Filter(nodes, Chosen(selected))) == NodeIds(nodes) * selected
  {
    forall id
      ensures id in NodeIds(Filter(nodes, Chosen(selected))) <==> id in NodeIds(nodes) * selected
    {
      if id in NodeIds(nodes) * selected {
        var n :| n in nodes && NodeKey(n) == id;
        assert n in Filter(nodes, Chosen(selected));
      }
    }
  }

  lemma NoCopies(layout: Layout, groups: seq<Group>, connections: seq<Connection>, all: Layout)
    requires WellFormed(layout) && forall g <- groups :: g.members != {}
    ensures WithCopies(layout, [], groups, connections, all) == (layout, [])
  {
    NoGroupCopies(groups, NextId(all.groups, GroupKey));
    NoConnectionCopies(connections, NextId(all.connections, ConnectionKey));
    var none: map<nat, nat> := map[];
    assert none.Keys == {} && ValuesByKey(none) == [];
    NewLayoutOfAscending(layout.nodes, layout.groups, layout.connections);
    assert layout.nodes + [] == layout.nodes;
    assert layout.groups + [] == layout.groups;
    assert layout.connections + [] == layout.connections;
  }

  lemma {:induction false} NoGroupCopies(groups: seq<Group>, nextId: nat)
    requires forall g <- groups :: g.members != {}
    ensures CopyGroups(groups, map[], nextId) == []
  {
    if groups != [] {
      assert groups[0] in groups;
      NoGroupCopies(groups[1..], nextId);
    }
  }

  lemma {:induction false} NoConnectionCopies(connections: seq<Connection>, nextId: nat)
    ensures CopyConnections(connections, map[], nextId) == []
  {
    if connections != [] {
      NoConnectionCopies(connections[1..], nextId);
    }
  }

  /** On a well-formed canvas the copied identifiers tell which groups and connections are copied just as the
      selection does. */
  lemma CopiesFollowSelection(layout: Layout, selected: set<nat>, nextId: nat)
    requires WellFormed(layout)
    ensures var ids := CopyIds(Filter(layout.nodes, Chosen(selected)), nextId, map[]);
      && (forall g <- layout.groups :: g.members <= selected <==> g.members <= ids.Keys)
      && (forall c <- layout.connections ::
            (c.source in selected <==> c.source in ids) && (c.target in selected <==> c.target in ids))
  {
    CopyIdsKeys(Filter(layout.nodes, Chosen(selected)), nextId, map[]);
    ChosenIds(layout.nodes, selected);
    forall c <- layout.connections
      ensures c.source in NodeIds(layout.nodes) && c.target in NodeIds(layout.nodes)
    {
      EndpointsExist(layout, c);
    }
  }

  lemma CopiesOfFragment(layout: Layout, selected: set<nat>, all: Layout)
    requires WellFormed(layout)
    ensures var nodes := Filter(layout.nodes, Chosen(selected));
      WithCopies(layout, nodes, Filter(layout.groups, Enclosed(selected)),
                 Filter(layout.connections, Internal(selected)), all)
        == WithCopies(layout, nodes, layout.groups, layout.connections, all)
  {
    var nextNode := NextId(all.nodes, NodeKey);
    var ids := CopyIds(Filter(layout.nodes, Chosen(selected)), nextNode, map[]);
    CopiesFollowSelection(layout, selected, nextNode);
    CopyGroupsOfFiltered(layout.groups, selected, ids, NextId(all.groups, GroupKey));
    CopyConnectionsOfFiltered(layout.connections, selected, ids, NextId(all.connections, ConnectionKey));
  }

  lemma NothingChosen(layout: Layout, all: Layout)
    requires WellFormed(layout)
    ensures WithCopies(layout, [], layout.groups, layout.connections, all) == (layout, [])
  {
    forall g <- layout.groups
      ensures g.members != {}
    {
      assert |g.members| >= 2;
    }
    NoCopies(layout, layout.groups, layout.connections, all);
  }

  /** What a copied selection pastes is its duplicate: the same canvas and the same new selection. */
  lemma DuplicateIsPasteOfFragment(layout: Layout, selection: seq<nat>, all: Layout)
    requires WellFormed(layout)
    ensures Duplicated(layout, selection, all) == Pasted(layout, SelectionFragment(layout, selection), all)
  {
    var selected := Expanded(layout, selection);
    var nodes := Filter(layout.nodes, Chosen(selected));
    FragmentIsFilter(layout, selection);
    if nodes == [] {
      NothingChosen(layout, all);
      assert Pasted(layout, SelectionFragment(layout, selection), all) == (layout, []);
    } else {
      assert nodes[0] in nodes && nodes[0].id in selected;
      assert selected != {};
      CopiesOfFragment(layout, selected, all);
    }
  }

  lemma EndpointsExist(layout: Layout, c: Connection)
    requires WellFormed(layout) && c in layout.connections
    ensures c.source in NodeIds(layout.nodes) && c.target in NodeIds(layout.nodes)
  {
    assert ConnectionFits(c, layout.nodes);
    var s, t :| s in layout.nodes && t in layout.nodes && s.id == c.source && t.id == c.target
                && BetweenContent(s.content, t.content) == Some(c.kind);
    assert NodeKey(s) == c.source && NodeKey(t) == c.target;
  }

  /** Cutting out a selection keeps its nodes, whole groups and internal connections, as a canvas of its own. */
  lemma FragmentIsFilter(layout: Layout, selection: seq<nat>)
    requires WellFormed(layout)
    ensures var selected := Expanded(layout, selection);
      SelectionFragment(layout, selection)
        == Layout(Filter(layout.nodes, Chosen(selected)), Filter(layout.groups, Enclosed(selected)),
                  Filter(layout.connections, Internal(selected)))
  {
    var selected := Expanded(layout, selection);
    FilterKeepsAscending(layout.nodes, Chosen(selected), NodeKey);
    FilterKeepsAscending(layout.groups, Enclosed(selected), GroupKey);
    FilterKeepsAscending(layout.connections, Internal(selected), ConnectionKey);
    NewLayoutOfAscending(Filter(layout.nodes, Chosen(selected)), Filter(layout.groups, Enclosed(selected)),
                         Filter(layout.connections, Internal(selected)));
  }
}
