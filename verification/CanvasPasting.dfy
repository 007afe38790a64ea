/** What pasting means: a fragment is embedded as an isomorphic copy under identifiers that are in use nowhere. */
module CanvasPasting {
  import opened Wrappers
  import opened StableSort
  import opened CanvasLayout
  import opened CanvasSelection
  import opened CanvasCopying
  import CanvasStacking

  /** The counters of a paste do not reach the end of their ranges. */
  ghost predicate HasRoom(layout: Layout, fragment: Layout, all: Layout) {
    && MaxKey(all.nodes, NodeKey) + |fragment.nodes| <= U64_MAX
    && MaxKey(all.groups, GroupKey) + |fragment.groups| <= U64_MAX
    && MaxKey(all.connections, ConnectionKey) + |fragment.connections| <= U64_MAX
    && TopZ(layout.nodes) + |fragment.nodes| <= I32_MAX
  }

  /** The renaming gives every node of the fragment a name of its own that no node of any floor has. */
  ghost predicate FreshRenaming(fragment: Layout, all: Layout, ids: map<nat, nat>) {
    && ids.Keys == NodeIds(fragment.nodes)
    && (forall a, b :: a in ids && b in ids && a != b ==> ids[a] != ids[b])
    && (forall a <- ids :: ids[a] !in NodeIds(all.nodes))
  }

  /** The largest z index on the canvas, or 0 when it is empty. */
  ghost predicate IsTop(nodes: seq<Node>, top: int) {
    if nodes == [] then top == 0 else (forall n <- nodes :: n.z <= top) && (exists n <- nodes :: n.z == top)
  }

  ghost predicate CopiesNodes(start: seq<Node>, fragment: seq<Node>, after: seq<Node>, ids: map<nat, nat>,
                              offset: real)
    requires ids.Keys == NodeIds(fragment)
  {
    && |after| == |start| + |fragment| && after[..|start|] == start
    && IsTop(start, TopZ(start))
    && forall i :: 0 <= i < |fragment| ==>
         var copy := after[|start| + i];
         && NodeKey(fragment[i]) in ids
         && IsCopy(fragment[i], copy, offset)
         && copy.id == ids[NodeKey(fragment[i])] && copy.z == TopZ(start) + 1 + i
  }

  ghost predicate CopiesGroups(start: seq<Group>, fragment: seq<Group>, after: seq<Group>, ids: map<nat, nat>,
                               used: set<nat>) {
    && |after| == |start| + |fragment| && after[..|start|] == start
    && forall i :: 0 <= i < |fragment| ==>
         && fragment[i].members <= ids.Keys
         && after[|start| + i].members == (set m <- fragment[i].members :: ids[m])
         && after[|start| + i].id !in used
  }

  ghost predicate CopiesConnections(start: seq<Connection>, fragment: seq<Connection>, after: seq<Connection>,
                                    ids: map<nat, nat>, used: set<nat>) {
    && |after| == |start| + |fragment| && after[..|start|] == start
    && forall i :: 0 <= i < |fragment| ==>
         var copy := after[|start| + i];
         && fragment[i].source in ids && fragment[i].target in ids
         && copy == Connection(copy.id, ids[fragment[i].source], ids[fragment[i].target], fragment[i].kind)
         && copy.id !in used
  }

  /** The old canvas stays; the copies have the fragment's contents and sizes at one common offset, lie above
      everything old, and carry its groups and connections over along the renaming. */
  ghost predicate Embeds(layout: Layout, fragment: Layout, all: Layout, after: Layout, ids: map<nat, nat>,
                         offset: real) {
    && FreshRenaming(fragment, all, ids)
    && CopiesNodes(layout.nodes, fragment.nodes, after.nodes, ids, offset)
    && CopiesGroups(layout.groups, fragment.groups, after.groups, ids, Keys(all.groups, GroupKey))
    && CopiesConnections(layout.connections, fragment.connections, after.connections, ids,
                         Keys(all.connections, ConnectionKey))
  }

  // ----- The loops, element by element -----

  lemma {:induction false} TopZIsTop(nodes: seq<Node>)
    ensures IsTop(nodes, TopZ(nodes))
  {
    if |nodes| > 1 {
      TopZIsTop(nodes[1..]);
      assert nodes == [nodes[0]] + nodes[1..];
      assert nodes[0] in nodes;
    }
  }

  lemma {:induction false} CopyNodesAt(nodes: seq<Node>, nextId: nat, nextZ: int)
    requires nextId + |nodes| <= U64_MAX + 1 && nextZ + |nodes| <= I32_MAX + 1
    ensures |CopyNodes(nodes, nextId, nextZ)| == |nodes|
    ensures forall i :: 0 <= i < |nodes| ==>
      CopyNodes(nodes, nextId, nextZ)[i] == CopyOf(nodes[i], nextId + i, nextZ + i)
  {
    if |nodes| > 1 {
      CopyNodesAt(nodes[1..], nextId + 1, nextZ + 1);
    }
  }

  lemma {:induction false} CopyIdsAt(nodes: seq<Node>, nextId: nat, ids: map<nat, nat>)
    requires Ascending(nodes, NodeKey) && nextId + |nodes| <= U64_MAX + 1
    ensures var all := CopyIds(nodes, nextId, ids);
      && (forall i :: 0 <= i < |nodes| ==> NodeKey(nodes[i]) in all && all[NodeKey(nodes[i])] == nextId + i)
      && (forall k <- ids :: (forall n <- nodes :: n.id != k) ==> k in all && all[k] == ids[k])
  {
    if nodes != [] {
      var grown := ids[nodes[0].id := nextId];
      forall n <- nodes[1..]
        ensures n.id != nodes[0].id
      {
        var j :| 1 <= j < |nodes| && nodes[j] == n;
        assert NodeKey(nodes[0]) < NodeKey(nodes[j]);
      }
      if |nodes| > 1 {
        CopyIdsAt(nodes[1..], nextId + 1, grown);
      }
      assert nodes == [nodes[0]] + nodes[1..];
    }
  }

  lemma {:induction false} CopyGroupsAt(groups: seq<Group>, ids: map<nat, nat>, nextId: nat)
    requires forall g <- groups :: g.members <= ids.Keys
    requires nextId + |groups| <= U64_MAX + 1
    ensures |CopyGroups(groups, ids, nextId)| == |groups|
    ensures forall i :: 0 <= i < |groups| ==>
      groups[i].members <= ids.Keys
      && CopyGroups(groups, ids, nextId)[i] == Group(nextId + i, Image(groups[i].members, ids))
  {
    if groups != [] {
      assert groups[0] in groups;
      if |groups| > 1 {
        CopyGroupsAt(groups[1..], ids, nextId + 1);
      }
    }
  }

  lemma {:induction false} CopyConnectionsAt(connections: seq<Connection>, ids: map<nat, nat>, nextId: nat)
    requires forall c <- connections :: c.source in ids && c.target in ids
    requires nextId + |connections| <= U64_MAX + 1
    ensures |CopyConnections(connections, ids, nextId)| == |connections|
    ensures forall i :: 0 <= i < |connections| ==>
      connections[i].source in ids && connections[i].target in ids
      && CopyConnections(connections, ids, nextId)[i]
           == Connection(nextId + i, ids[connections[i].source], ids[connections[i].target], connections[i].kind)
  {
    if connections != [] {
      assert connections[0] in connections;
      if |connections| > 1 {
        CopyConnectionsAt(connections[1..], ids, nextId + 1);
      }
    }
  }

  /** The map that numbers keys consecutively. */
  ghost predicate Numbers(ids: map<nat, nat>, keys: seq<nat>, nextId: nat) {
    && (forall k :: k in ids <==> k in keys)
    && (forall i :: 0 <= i < |keys| ==> ids[keys[i]] == nextId + i)
  }

  /** The values of consecutively numbered keys, listed in key order. */
  lemma ValuesInOrder(ids: map<nat, nat>, keys: seq<nat>, nextId: nat)
    requires Numbers(ids, keys, nextId)
    requires forall i, j :: 0 <= i < j < |keys| ==> keys[i] < keys[j]
    ensures |ValuesByKey(ids)| == |keys|
    ensures forall i :: 0 <= i < |keys| ==> ValuesByKey(ids)[i] == nextId + i
  {
    AscendingListIsUnique(ids.Keys, keys);
  }

  // ----- The embedding -----

  function KeysOf(nodes: seq<Node>): seq<nat> {
    seq(|nodes|, i requires 0 <= i < |nodes| => nodes[i].id)
  }

  lemma KeysOfNodes(nodes: seq<Node>)
    requires Ascending(nodes, NodeKey)
    ensures forall i, j :: 0 <= i < j < |KeysOf(nodes)| ==> KeysOf(nodes)[i] < KeysOf(nodes)[j]
    ensures forall k :: k in NodeIds(nodes) <==> k in KeysOf(nodes)
  {
    var keys := KeysOf(nodes);
    forall i, j | 0 <= i < j < |keys|
      ensures keys[i] < keys[j]
    {
      assert NodeKey(nodes[i]) < NodeKey(nodes[j]);
    }
    forall k
      ensures k in NodeIds(nodes) <==> k in keys
    {
      if k in NodeIds(nodes) {
        var n :| n in nodes && NodeKey(n) == k;
        var i :| 0 <= i < |nodes| && nodes[i] == n;
        assert keys[i] == k;
      }
      if k in keys {
        var i :| 0 <= i < |keys| && keys[i] == k;
        assert nodes[i] in nodes && NodeKey(nodes[i]) == k;
      }
    }
  }

  lemma CopiedIdsAreNumbered(nodes: seq<Node>, nextId: nat)
    requires Ascending(nodes, NodeKey) && nextId + |nodes| <= U64_MAX + 1
    ensures Numbers(CopyIds(nodes, nextId, map[]), KeysOf(nodes), nextId)
  {
    var ids, keys := CopyIds(nodes, nextId, map[]), KeysOf(nodes);
    CopyIdsKeys(nodes, nextId, map[]);
    CopyIdsAt(nodes, nextId, map[]);
    KeysOfNodes(nodes);
    forall i | 0 <= i < |keys|
      ensures ids[keys[i]] == nextId + i
    {
      assert NodeKey(nodes[i]) == keys[i];
    }
  }

  lemma NumberedIsFresh(fragment: Layout, all: Layout, ids: map<nat, nat>)
    requires WellFormed(fragment)
    requires Numbers(ids, KeysOf(fragment.nodes), MaxKey(all.nodes, NodeKey) + 1)
    ensures FreshRenaming(fragment, all, ids)
  {
    var keys := KeysOf(fragment.nodes);
    KeysOfNodes(fragment.nodes);
    MaxKeyIsUpperBound(all.nodes, NodeKey);
    forall a, b | a in ids && b in ids && a != b
      ensures ids[a] != ids[b] && ids[a] !in NodeIds(all.nodes)
    {
      var i :| 0 <= i < |keys| && keys[i] == a;
      var j :| 0 <= j < |keys| && keys[j] == b;
    }
    forall a <- ids
      ensures ids[a] !in NodeIds(all.nodes)
    {
      var i :| 0 <= i < |keys| && keys[i] == a;
    }
  }

  lemma InternalEnds(fragment: Layout, ids: map<nat, nat>)
    requires WellFormed(fragment) && ids.Keys == NodeIds(fragment.nodes)
    ensures forall g <- fragment.groups :: g.members <= ids.Keys
    ensures forall c <- fragment.connections :: c.source in ids && c.target in ids
  {
    forall c <- fragment.connections
      ensures c.source in ids && c.target in ids
    {
      EndpointsExist(fragment, c);
    }
  }

  lemma CopiedNodeAt(start: seq<Node>, nodes: seq<Node>, ids: map<nat, nat>, nextId: nat, i: nat)
    requires Numbers(ids, KeysOf(nodes), nextId) && i < |nodes|
    requires nextId + |nodes| <= U64_MAX + 1 && TopZ(start) + |nodes| <= I32_MAX
    ensures |CopyNodes(nodes, nextId, NextZ(TopZ(start)))| == |nodes|
    ensures NodeKey(nodes[i]) in ids
    ensures CopyNodes(nodes, nextId, NextZ(TopZ(start)))[i]
         == CopyOf(nodes[i], ids[NodeKey(nodes[i])], TopZ(start) + 1 + i)
  {
    var keys := KeysOf(nodes);
    CopyNodesAt(nodes, nextId, TopZ(start) + 1);
    assert keys[i] == NodeKey(nodes[i]) && keys[i] in keys;
  }

  ghost predicate AreCopies(top: int, nodes: seq<Node>, copies: seq<Node>, ids: map<nat, nat>) {
    && |copies| == |nodes|
    && forall i :: 0 <= i < |nodes| ==>
         NodeKey(nodes[i]) in ids && copies[i] == CopyOf(nodes[i], ids[NodeKey(nodes[i])], top + 1 + i)
  }

  lemma CopiedNodes(start: seq<Node>, nodes: seq<Node>, ids: map<nat, nat>, nextId: nat)
    requires Numbers(ids, KeysOf(nodes), nextId)
    requires nodes != [] && nextId + |nodes| <= U64_MAX + 1 && TopZ(start) + |nodes| <= I32_MAX
    ensures AreCopies(TopZ(start), nodes, CopyNodes(nodes, nextId, NextZ(TopZ(start))), ids)
  {
    var copies := CopyNodes(nodes, nextId, NextZ(TopZ(start)));
    CopiedNodeAt(start, nodes, ids, nextId, 0);
    forall i | 0 <= i < |nodes|
      ensures NodeKey(nodes[i]) in ids
      ensures copies[i] == CopyOf(nodes[i], ids[NodeKey(nodes[i])], TopZ(start) + 1 + i)
    {
      CopiedNodeAt(start, nodes, ids, nextId, i);
    }
  }

  lemma AppendedCopies(start: seq<Node>, nodes: seq<Node>, copies: seq<Node>, ids: map<nat, nat>)
    requires ids.Keys == NodeIds(nodes) && AreCopies(TopZ(start), nodes, copies, ids)
    ensures CopiesNodes(start, nodes, start + copies, ids, DUPLICATE_OFFSET)
  {
    TopZIsTop(start);
    assert (start + copies)[..|start|] == start;
    assert forall i :: 0 <= i < |copies| ==> (start + copies)[|start| + i] == copies[i];
  }

  lemma AppendedNodes(start: seq<Node>, nodes: seq<Node>, ids: map<nat, nat>, nextId: nat)
    requires ids.Keys == NodeIds(nodes) && Numbers(ids, KeysOf(nodes), nextId)
    requires nodes != [] && nextId + |nodes| <= U64_MAX + 1 && TopZ(start) + |nodes| <= I32_MAX
    ensures CopiesNodes(start, nodes, start + CopyNodes(nodes, nextId, NextZ(TopZ(start))), ids, DUPLICATE_OFFSET)
  {
    CopiedNodes(start, nodes, ids, nextId);
    AppendedCopies(start, nodes, CopyNodes(nodes, nextId, NextZ(TopZ(start))), ids);
  }

  lemma AppendedGroups(start: seq<Group>, groups: seq<Group>, ids: map<nat, nat>, all: seq<Group>)
    requires forall g <- groups :: g.members <= ids.Keys
    requires MaxKey(all, GroupKey) + |groups| <= U64_MAX
    ensures CopiesGroups(start, groups, start + CopyGroups(groups, ids, NextId(all, GroupKey)), ids, Keys(all, GroupKey))
  {
    if groups != [] {
      CopyGroupsAt(groups, ids, NextId(all, GroupKey));
    }
    MaxKeyIsUpperBound(all, GroupKey);
  }

  lemma AppendedConnections(start: seq<Connection>, connections: seq<Connection>, ids: map<nat, nat>,
                            all: seq<Connection>)
    requires forall c <- connections :: c.source in ids && c.target in ids
    requires MaxKey(all, ConnectionKey) + |connections| <= U64_MAX
    ensures CopiesConnections(start, connections,
                              start + CopyConnections(connections, ids, NextId(all, ConnectionKey)), ids,
                              Keys(all, ConnectionKey))
  {
    if connections != [] {
      CopyConnectionsAt(connections, ids, NextId(all, ConnectionKey));
    }
    MaxKeyIsUpperBound(all, ConnectionKey);
  }

  // ----- The result is a canvas again -----

  lemma ConcatAscending<T>(start: seq<T>, more: seq<T>, key: T -> nat, bound: nat)
    requires Ascending(start, key) && Ascending(more, key)
    requires (forall x <- start :: key(x) <= bound) && (forall x <- more :: key(x) > bound)
    ensures Ascending(start + more, key)
  {
    var both := start + more;
    forall i, j | 0 <= i < j < |both|
      ensures key(both[i]) < key(both[j])
    {
      assert i < |start| ==> both[i] in start;
      assert j >= |start| ==> both[j] in more;
    }
  }

  lemma OldKeysAreBounded<T>(part: seq<T>, all: seq<T>, key: T -> nat)
    requires Keys(part, key) <= Keys(all, key)
    ensures forall x <- part :: key(x) <= MaxKey(all, key)
  {
    MaxKeyIsUpperBound(all, key);
    forall x <- part
      ensures key(x) <= MaxKey(all, key)
    {
      assert key(x) in Keys(part, key);
    }
  }

  lemma NodesAscend(layout: Layout, fragment: Layout, all: Layout)
    requires WellFormed(layout) && Within(layout, all) && HasRoom(layout, fragment, all)
    ensures Ascending(layout.nodes + CopyNodes(fragment.nodes, NextId(all.nodes, NodeKey), NextZ(TopZ(layout.nodes))),
                      NodeKey)
  {
    CopyNodesAt(fragment.nodes, NextId(all.nodes, NodeKey), NextZ(TopZ(layout.nodes)));
    OldKeysAreBounded(layout.nodes, all.nodes, NodeKey);
    ConcatAscending(layout.nodes, CopyNodes(fragment.nodes, NextId(all.nodes, NodeKey), NextZ(TopZ(layout.nodes))),
                    NodeKey, MaxKey(all.nodes, NodeKey));
  }

  lemma GroupsAscend(layout: Layout, fragment: Layout, all: Layout, ids: map<nat, nat>)
    requires WellFormed(layout) && Within(layout, all) && HasRoom(layout, fragment, all)
    requires forall g <- fragment.groups :: g.members <= ids.Keys
    ensures Ascending(layout.groups + CopyGroups(fragment.groups, ids, NextId(all.groups, GroupKey)), GroupKey)
  {
    CopyGroupsAt(fragment.groups, ids, NextId(all.groups, GroupKey));
    OldKeysAreBounded(layout.groups, all.groups, GroupKey);
    ConcatAscending(layout.groups, CopyGroups(fragment.groups, ids, NextId(all.groups, GroupKey)), GroupKey,
                    MaxKey(all.groups, GroupKey));
  }

  lemma ConnectionsAscend(layout: Layout, fragment: Layout, all: Layout, ids: map<nat, nat>)
    requires WellFormed(layout) && Within(layout, all) && HasRoom(layout, fragment, all)
    requires forall c <- fragment.connections :: c.source in ids && c.target in ids
    ensures Ascending(layout.connections
                      + CopyConnections(fragment.connections, ids, NextId(all.connections, ConnectionKey)), ConnectionKey)
  {
    CopyConnectionsAt(fragment.connections, ids, NextId(all.connections, ConnectionKey));
    OldKeysAreBounded(layout.connections, all.connections, ConnectionKey);
    ConcatAscending(layout.connections,
                    CopyConnections(fragment.connections, ids, NextId(all.connections, ConnectionKey)), ConnectionKey,
                    MaxKey(all.connections, ConnectionKey));
  }

  lemma ImageSize(members: set<nat>, ids: map<nat, nat>)
    requires members <= ids.Keys
    requires forall a, b :: a in ids && b in ids && a != b ==> ids[a] != ids[b]
    ensures |Image(members, ids)| == |members|
  {
    if members != {} {
      var m :| m in members;
      ImageSize(members - {m}, ids);
      assert Image(members, ids) == Image(members - {m}, ids) + {ids[m]};
    }
  }

  /** A group of the result is an old one among old nodes, or a copy as large as its original among new nodes. */
  lemma GroupAt(layout: Layout, fragment: Layout, all: Layout, after: Layout, ids: map<nat, nat>, offset: real, i: nat)
    requires WellFormed(layout) && WellFormed(fragment) && Within(layout, all)
    requires Embeds(layout, fragment, all, after, ids, offset) && i < |after.groups|
    ensures after.groups[i].members <= NodeIds(after.nodes) && |after.groups[i].members| >= 2
    ensures var n := |layout.groups|;
            if i < n then after.groups[i] == layout.groups[i] && after.groups[i].members <= NodeIds(all.nodes)
            else fragment.groups[i - n].members <= ids.Keys
                 && after.groups[i].members == Image(fragment.groups[i - n].members, ids)
                 && after.groups[i].members !! NodeIds(all.nodes)
  {
    var n := |layout.groups|;
    AfterIds(layout, fragment, all, after, ids, offset);
    if i < n {
      assert after.groups[i] == after.groups[..n][i];
      assert layout.groups[i] in layout.groups;
    } else {
      assert fragment.groups[i - n] in fragment.groups;
      assert after.groups[i] == after.groups[n + (i - n)];
      ImageSize(fragment.groups[i - n].members, ids);
    }
  }

  lemma ImagesAreApart(a: set<nat>, b: set<nat>, ids: map<nat, nat>)
    requires a <= ids.Keys && b <= ids.Keys && a !! b
    requires forall k, l :: k in ids && l in ids && k != l ==> ids[k] != ids[l]
    ensures Image(a, ids) !! Image(b, ids)
  {
  }

  /** Copied groups are disjoint from each other, from the old ones, and as large as their originals. */
  lemma CopiedGroupsFit(layout: Layout, fragment: Layout, all: Layout, after: Layout, ids: map<nat, nat>, offset: real)
    requires WellFormed(layout) && WellFormed(fragment) && Within(layout, all)
    requires Embeds(layout, fragment, all, after, ids, offset)
    ensures GroupsFit(after.groups, NodeIds(after.nodes))
  {
    var n := |layout.groups|;
    forall i | 0 <= i < |after.groups|
      ensures after.groups[i].members <= NodeIds(after.nodes) && |after.groups[i].members| >= 2
    {
      GroupAt(layout, fragment, all, after, ids, offset, i);
    }
    forall i, j | 0 <= i < j < |after.groups|
      ensures after.groups[i].members !! after.groups[j].members
    {
      GroupAt(layout, fragment, all, after, ids, offset, i);
      GroupAt(layout, fragment, all, after, ids, offset, j);
      if i >= n {
        ImagesAreApart(fragment.groups[i - n].members, fragment.groups[j - n].members, ids);
      }
    }
  }

  lemma AfterIds(layout: Layout, fragment: Layout, all: Layout, after: Layout, ids: map<nat, nat>, offset: real)
    requires Embeds(layout, fragment, all, after, ids, offset)
    ensures NodeIds(layout.nodes) <= NodeIds(after.nodes)
    ensures forall a <- ids :: ids[a] in NodeIds(after.nodes)
  {
    var n := |layout.nodes|;
    forall id <- NodeIds(layout.nodes)
      ensures id in NodeIds(after.nodes)
    {
      var m :| m in layout.nodes && NodeKey(m) == id;
      var i :| 0 <= i < n && layout.nodes[i] == m;
      assert after.nodes[..n][i] in after.nodes;
    }
    forall a <- ids
      ensures ids[a] in NodeIds(after.nodes)
    {
      var m :| m in fragment.nodes && NodeKey(m) == a;
      var i :| 0 <= i < |fragment.nodes| && fragment.nodes[i] == m;
      assert NodeKey(after.nodes[n + i]) == ids[a] && after.nodes[n + i] in after.nodes;
    }
  }

  ghost predicate HasNode(nodes: seq<Node>, id: nat, content: Content) {
    exists n <- nodes :: n.id == id && n.content == content
  }

  /** Under its new name, each node is listed with the content of its original. */
  ghost predicate AreListed(nodes: seq<Node>, after: seq<Node>, ids: map<nat, nat>) {
    forall s <- nodes :: s.id in ids && HasNode(after, ids[s.id], s.content)
  }

  lemma CopiesAreListed(start: seq<Node>, fragment: seq<Node>, after: seq<Node>, ids: map<nat, nat>, offset: real)
    requires ids.Keys == NodeIds(fragment) && CopiesNodes(start, fragment, after, ids, offset)
    ensures AreListed(fragment, after, ids)
  {
    forall s <- fragment
      ensures s.id in ids && HasNode(after, ids[s.id], s.content)
    {
      var i :| 0 <= i < |fragment| && fragment[i] == s;
      assert NodeKey(fragment[i]) == s.id;
      assert after[|start| + i] in after;
    }
  }

  /** A copied connection joins the copies of its ends, which differ and have the same contents. */
  lemma CopiedConnectionFits(nodes: seq<Node>, after: seq<Node>, ids: map<nat, nat>, c: Connection, copy: Connection)
    requires AreListed(nodes, after, ids) && ConnectionFits(c, nodes)
    requires c.source in ids && c.target in ids && ids[c.source] != ids[c.target]
    requires copy == Connection(copy.id, ids[c.source], ids[c.target], c.kind)
    ensures ConnectionFits(copy, after)
  {
    var s, t :| s in nodes && t in nodes && s.id == c.source && t.id == c.target
                && BetweenContent(s.content, t.content) == Some(c.kind);
    var s' :| s' in after && s'.id == ids[s.id] && s'.content == s.content;
    var t' :| t' in after && t'.id == ids[t.id] && t'.content == t.content;
  }

  lemma CopiedPairsDiffer(start: seq<Connection>, fragment: Layout, all: Layout, after: seq<Connection>,
                          ids: map<nat, nat>, used: set<nat>, i: nat, j: nat)
    requires FreshRenaming(fragment, all, ids)
    requires CopiesConnections(start, fragment.connections, after, ids, used)
    requires ConnectionsFit(fragment.connections, fragment.nodes)
    requires |start| <= i < j < |after|
    ensures after[i].source != after[j].source || after[i].target != after[j].target
  {
    var c, d := fragment.connections[i - |start|], fragment.connections[j - |start|];
    assert after[i] == after[|start| + (i - |start|)] && after[j] == after[|start| + (j - |start|)];
    assert c.source != d.source || c.target != d.target;
  }

  lemma CopiedConnectionAt(start: seq<Connection>, fragment: Layout, all: Layout, after: Layout, ids: map<nat, nat>,
                           used: set<nat>, i: nat)
    requires ConnectionsFit(fragment.connections, fragment.nodes) && AreListed(fragment.nodes, after.nodes, ids)
    requires FreshRenaming(fragment, all, ids)
    requires CopiesConnections(start, fragment.connections, after.connections, ids, used)
    requires |start| <= i < |after.connections|
    ensures ConnectionFits(after.connections[i], after.nodes)
    ensures after.connections[i].source !in NodeIds(all.nodes)
  {
    var c := fragment.connections[i - |start|];
    assert after.connections[i] == after.connections[|start| + (i - |start|)];
    assert c in fragment.connections && ConnectionFits(c, fragment.nodes);
    CopiedConnectionFits(fragment.nodes, after.nodes, ids, c, after.connections[i]);
  }

  /** Each connection of the result is an old one between old nodes or a copy between new nodes. */
  lemma ConnectionAt(layout: Layout, fragment: Layout, all: Layout, after: Layout, ids: map<nat, nat>, offset: real,
                     i: nat)
    requires WellFormed(layout) && WellFormed(fragment) && Within(layout, all)
    requires Embeds(layout, fragment, all, after, ids, offset) && i < |after.connections|
    ensures ConnectionFits(after.connections[i], after.nodes)
    ensures i < |layout.connections| <==> after.connections[i].source in NodeIds(all.nodes)
    ensures i < |layout.connections| ==> after.connections[i] == layout.connections[i]
  {
    var n := |layout.connections|;
    if i < n {
      assert after.connections[i] == after.connections[..n][i];
      OldConnectionFits(layout, after, after.connections[i]);
      EndpointsExist(layout, after.connections[i]);
    } else {
      CopiesAreListed(layout.nodes, fragment.nodes, after.nodes, ids, offset);
      CopiedConnectionAt(layout.connections, fragment, all, after, ids, Keys(all.connections, ConnectionKey), i);
    }
  }

  lemma CopiedConnectionsFit(layout: Layout, fragment: Layout, all: Layout, after: Layout, ids: map<nat, nat>,
                             offset: real)
    requires WellFormed(layout) && WellFormed(fragment) && Within(layout, all)
    requires Embeds(layout, fragment, all, after, ids, offset)
    ensures ConnectionsFit(after.connections, after.nodes)
  {
    var n := |layout.connections|;
    forall c <- after.connections
      ensures ConnectionFits(c, after.nodes)
    {
      var i :| 0 <= i < |after.connections| && after.connections[i] == c;
      ConnectionAt(layout, fragment, all, after, ids, offset, i);
    }
    forall i, j | 0 <= i < j < |after.connections|
      ensures after.connections[i].source != after.connections[j].source
           || after.connections[i].target != after.connections[j].target
    {
      ConnectionAt(layout, fragment, all, after, ids, offset, i);
      ConnectionAt(layout, fragment, all, after, ids, offset, j);
      if i >= n {
        CopiedPairsDiffer(layout.connections, fragment, all, after.connections, ids,
                          Keys(all.connections, ConnectionKey), i, j);
      }
    }
  }

  lemma OldConnectionFits(layout: Layout, after: Layout, c: Connection)
    requires WellFormed(layout) && c in layout.connections
    requires |after.nodes| >= |layout.nodes| && after.nodes[..|layout.nodes|] == layout.nodes
    ensures ConnectionFits(c, after.nodes)
  {
    assert ConnectionFits(c, layout.nodes);
    assert forall m :: m in layout.nodes ==> m in after.nodes[..|layout.nodes|];
  }

  // ----- Main results -----

  /** The pasted canvas is already in identifier order: what is appended stays at the end. */
  lemma PastedUnfolds(layout: Layout, fragment: Layout, all: Layout, ids: map<nat, nat>)
    requires WellFormed(layout) && Within(layout, all) && HasRoom(layout, fragment, all) && fragment.nodes != []
    requires ids == CopyIds(fragment.nodes, NextId(all.nodes, NodeKey), map[])
    requires forall g <- fragment.groups :: g.members <= ids.Keys
    requires forall c <- fragment.connections :: c.source in ids && c.target in ids
    ensures Pasted(layout, fragment, all).0 == Layout(
              layout.nodes + CopyNodes(fragment.nodes, NextId(all.nodes, NodeKey), NextZ(TopZ(layout.nodes))),
              layout.groups + CopyGroups(fragment.groups, ids, NextId(all.groups, GroupKey)),
              layout.connections + CopyConnections(fragment.connections, ids, NextId(all.connections, ConnectionKey)))
  {
    NodesAscend(layout, fragment, all);
    GroupsAscend(layout, fragment, all, ids);
    ConnectionsAscend(layout, fragment, all, ids);
    NewLayoutOfAscending(
      layout.nodes + CopyNodes(fragment.nodes, NextId(all.nodes, NodeKey), NextZ(TopZ(layout.nodes))),
      layout.groups + CopyGroups(fragment.groups, ids, NextId(all.groups, GroupKey)),
      layout.connections + CopyConnections(fragment.connections, ids, NextId(all.connections, ConnectionKey)));
  }

  /** The new selection lists the copies in the order of their originals. */
  ghost predicate SelectsCopies(fragment: Layout, copied: seq<nat>, ids: map<nat, nat>) {
    && |copied| == |fragment.nodes|
    && forall i :: 0 <= i < |copied| ==>
         NodeKey(fragment.nodes[i]) in ids && copied[i] == ids[NodeKey(fragment.nodes[i])]
  }

  lemma CopiesAreSelected(fragment: Layout, ids: map<nat, nat>, nextNode: nat)
    requires Ascending(fragment.nodes, NodeKey) && Numbers(ids, KeysOf(fragment.nodes), nextNode)
    ensures SelectsCopies(fragment, ValuesByKey(ids), ids)
  {
    var keys := KeysOf(fragment.nodes);
    KeysOfNodes(fragment.nodes);
    ValuesInOrder(ids, keys, nextNode);
    forall i | 0 <= i < |keys|
      ensures NodeKey(fragment.nodes[i]) in ids && ValuesByKey(ids)[i] == ids[NodeKey(fragment.nodes[i])]
    {
      assert keys[i] == NodeKey(fragment.nodes[i]) && keys[i] in keys;
    }
  }

  lemma PastedEmbeds(layout: Layout, fragment: Layout, all: Layout, ids: map<nat, nat>)
    requires WellFormed(layout) && WellFormed(fragment) && Within(layout, all)
    requires HasRoom(layout, fragment, all) && fragment.nodes != []
    requires ids == CopyIds(fragment.nodes, NextId(all.nodes, NodeKey), map[])
    requires FreshRenaming(fragment, all, ids)
    ensures Embeds(layout, fragment, all, Pasted(layout, fragment, all).0, ids, DUPLICATE_OFFSET)
  {
    var nextNode := NextId(all.nodes, NodeKey);
    CopiedIdsAreNumbered(fragment.nodes, nextNode);
    InternalEnds(fragment, ids);
    AppendedNodes(layout.nodes, fragment.nodes, ids, nextNode);
    AppendedGroups(layout.groups, fragment.groups, ids, all.groups);
    AppendedConnections(layout.connections, fragment.connections, ids, all.connections);
    PastedUnfolds(layout, fragment, all, ids);
  }

  lemma PastedIsWellFormed(layout: Layout, fragment: Layout, all: Layout, ids: map<nat, nat>)
    requires WellFormed(layout) && WellFormed(fragment) && Within(layout, all)
    requires HasRoom(layout, fragment, all) && fragment.nodes != []
    requires ids == CopyIds(fragment.nodes, NextId(all.nodes, NodeKey), map[])
    requires Embeds(layout, fragment, all, Pasted(layout, fragment, all).0, ids, DUPLICATE_OFFSET)
    ensures WellFormed(Pasted(layout, fragment, all).0)
  {
    var after := Pasted(layout, fragment, all).0;
    InternalEnds(fragment, ids);
    PastedUnfolds(layout, fragment, all, ids);
    NodesAscend(layout, fragment, all);
    GroupsAscend(layout, fragment, all, ids);
    ConnectionsAscend(layout, fragment, all, ids);
    CopiedGroupsFit(layout, fragment, all, after, ids, DUPLICATE_OFFSET);
    CopiedConnectionsFit(layout, fragment, all, after, ids, DUPLICATE_OFFSET);
  }

  /** Pasting embeds an isomorphic copy of the fragment under fresh identifiers, selects exactly the copies, in
      the fragment's order, leaves everything old in place, and gives a canvas the domain accepts. */
  lemma PasteEmbeds(layout: Layout, fragment: Layout, all: Layout) returns (ids: map<nat, nat>)
    requires WellFormed(layout) && WellFormed(fragment) && Within(layout, all)
    requires HasRoom(layout, fragment, all) && fragment.nodes != []
    ensures var (after, copied) := Pasted(layout, fragment, all);
      && Embeds(layout, fragment, all, after, ids, 40.0)
      && WellFormed(after)
      && SelectsCopies(fragment, copied, ids)
  {
    var nextNode := NextId(all.nodes, NodeKey);
    ids := CopyIds(fragment.nodes, nextNode, map[]);
    CopiedIdsAreNumbered(fragment.nodes, nextNode);
    NumberedIsFresh(fragment, all, ids);
    PastedEmbeds(layout, fragment, all, ids);
    PastedIsWellFormed(layout, fragment, all, ids);
    CopiesAreSelected(fragment, ids, nextNode);
  }

  function CopyAt(layout: Layout, after: Layout, i: nat): Node
    requires |layout.nodes| + i < |after.nodes|
  {
    after.nodes[|layout.nodes| + i]
  }

  /** Of every two copies the one above is the copy of the one above. */
  ghost predicate KeepsStacking(layout: Layout, fragment: Layout, after: Layout)
    requires |after.nodes| == |layout.nodes| + |fragment.nodes|
  {
    forall i, j :: 0 <= i < |fragment.nodes| && 0 <= j < |fragment.nodes| ==>
      (CanvasStacking.DepthOrder(fragment.nodes[i], fragment.nodes[j])
       <==> CanvasStacking.DepthOrder(CopyAt(layout, after, i), CopyAt(layout, after, j)))
  }

  /** No node of the fragment lies above one with a higher identifier. */
  ghost predicate IsStackedById(fragment: Layout) {
    forall i, j :: 0 <= i < j < |fragment.nodes| ==> fragment.nodes[i].z <= fragment.nodes[j].z
  }

  /** A paste stacks the copies in identifier order, whatever the order of the originals: their mutual stacking is
      kept if and only if the originals were stacked in identifier order already. */
  lemma PasteKeepsStackingIff(layout: Layout, fragment: Layout, all: Layout)
    requires WellFormed(layout) && WellFormed(fragment) && Within(layout, all)
    requires HasRoom(layout, fragment, all) && fragment.nodes != []
    ensures var after := Pasted(layout, fragment, all).0;
      && |after.nodes| == |layout.nodes| + |fragment.nodes|
      && (KeepsStacking(layout, fragment, after) <==> IsStackedById(fragment))
  {
    var ids := PasteEmbeds(layout, fragment, all);
    CopiesAreNumbered(layout, fragment, Pasted(layout, fragment, all).0, ids, DUPLICATE_OFFSET);
    CopiesStackById(layout, fragment, Pasted(layout, fragment, all).0);
  }

  lemma CopiesStackById(layout: Layout, fragment: Layout, after: Layout)
    requires Ascending(fragment.nodes, NodeKey)
    requires FreshNumbers(layout, fragment, after)
    ensures KeepsStacking(layout, fragment, after) <==> IsStackedById(fragment)
  {
    if IsStackedById(fragment) {
      forall i, j | 0 <= i < |fragment.nodes| && 0 <= j < |fragment.nodes|
        ensures CanvasStacking.DepthOrder(fragment.nodes[i], fragment.nodes[j])
           <==> CanvasStacking.DepthOrder(CopyAt(layout, after, i), CopyAt(layout, after, j))
      {
        PairStacks(layout, fragment, after, i, j);
      }
    } else {
      var i, j :| 0 <= i < j < |fragment.nodes| && fragment.nodes[i].z > fragment.nodes[j].z;
      PairStacks(layout, fragment, after, i, j);
    }
  }

  /** The copies are numbered upwards in the order of their originals. */
  ghost predicate FreshNumbers(layout: Layout, fragment: Layout, after: Layout) {
    && |after.nodes| == |layout.nodes| + |fragment.nodes|
    && forall i :: 0 <= i < |fragment.nodes| ==> CopyAt(layout, after, i).z == TopZ(layout.nodes) + 1 + i
  }

  lemma CopiesAreNumbered(layout: Layout, fragment: Layout, after: Layout, ids: map<nat, nat>, offset: real)
    requires ids.Keys == NodeIds(fragment.nodes) && CopiesNodes(layout.nodes, fragment.nodes, after.nodes, ids, offset)
    ensures FreshNumbers(layout, fragment, after)
  {
    forall i | 0 <= i < |fragment.nodes|
      ensures CopyAt(layout, after, i).z == TopZ(layout.nodes) + 1 + i
    {
      assert NodeKey(fragment.nodes[i]) in ids;
    }
  }

  lemma PairStacks(layout: Layout, fragment: Layout, after: Layout, i: nat, j: nat)
    requires Ascending(fragment.nodes, NodeKey) && FreshNumbers(layout, fragment, after)
    requires i < |fragment.nodes| && j < |fragment.nodes|
    ensures i != j ==>
      (CanvasStacking.DepthOrder(CopyAt(layout, after, i), CopyAt(layout, after, j)) <==> i < j)
    ensures i == j ==> CanvasStacking.DepthOrder(fragment.nodes[i], fragment.nodes[j])
    ensures i < j ==> (CanvasStacking.DepthOrder(fragment.nodes[i], fragment.nodes[j])
                       <==> fragment.nodes[i].z <= fragment.nodes[j].z)
    ensures j < i ==> (CanvasStacking.DepthOrder(fragment.nodes[i], fragment.nodes[j])
                       <==> fragment.nodes[i].z < fragment.nodes[j].z)
  {
    if i < j {
      assert NodeKey(fragment.nodes[i]) < NodeKey(fragment.nodes[j]);
    } else if j < i {
      assert NodeKey(fragment.nodes[j]) < NodeKey(fragment.nodes[i]);
    }
  }

  /** Two nodes of which the first lies above the second come out the other way round. */
  lemma PasteCanRestack()
    ensures var note := (id: nat, z: int) => Node(id, Owned(""), 0.0, 0.0, 240.0, 160.0, z);
      var fragment, empty := Layout([note(1, 1), note(2, 0)], [], []), Layout([], [], []);
      var after := Pasted(empty, fragment, empty).0;
      && CanvasStacking.DepthOrder(fragment.nodes[1], fragment.nodes[0])
      && |after.nodes| == 2 && !CanvasStacking.DepthOrder(after.nodes[1], after.nodes[0])
  {
    var note := (id: nat, z: int) => Node(id, Owned(""), 0.0, 0.0, 240.0, 160.0, z);
    var fragment, empty := Layout([note(1, 1), note(2, 0)], [], []), Layout([], [], []);
    assert WellFormed(fragment);
    var ids := PasteEmbeds(empty, fragment, empty);
    assert NodeKey(fragment.nodes[0]) in ids && NodeKey(fragment.nodes[1]) in ids;
  }

  /** A fragment cut out of a canvas is a canvas. */
  lemma FragmentKeepsWellFormed(layout: Layout, selection: seq<nat>)
    requires WellFormed(layout)
    ensures WellFormed(SelectionFragment(layout, selection))
  {
    var selected := Expanded(layout, selection);
    var nodes := Filter(layout.nodes, Chosen(selected));
    FragmentIsFilter(layout, selection);
    FilterKeepsAscending(layout.nodes, Chosen(selected), NodeKey);
    FilterKeepsAscending(layout.groups, Enclosed(selected), GroupKey);
    FilterKeepsAscending(layout.connections, Internal(selected), ConnectionKey);
    FilterKeepsGroupsFit(layout.groups, Enclosed(selected), NodeIds(layout.nodes));
    ChosenIds(layout.nodes, selected);
    assert forall g <- Filter(layout.groups, Enclosed(selected)) :: g.members <= selected;
    forall c | c in layout.connections && Internal(selected)(c)
      ensures ConnectionFits(c, nodes)
    {
      assert ConnectionFits(c, layout.nodes);
    }
    FilterKeepsConnectionsFit(layout.connections, Internal(selected), layout.nodes, nodes);
  }

  /** The fragment holds the group-expanded selection, the groups among it and the connections inside it. */
  ghost predicate CutsOut(layout: Layout, selection: seq<nat>, fragment: Layout) {
    var selected := Expanded(layout, selection);
    && (forall n :: n in fragment.nodes <==> n in layout.nodes && n.id in selected)
    && (forall g :: g in fragment.groups <==> g in layout.groups && g.members <= selected)
    && (forall c :: c in fragment.connections
          <==> c in layout.connections && c.source in selected && c.target in selected)
  }

  /** A copy of what the selection cuts out is embedded and selected; when no selected node exists nothing changes. */
  ghost predicate CopiesSelection(layout: Layout, selection: seq<nat>, all: Layout, after: Layout, copied: seq<nat>,
                                  fragment: Layout, ids: map<nat, nat>) {
    && CutsOut(layout, selection, fragment)
    && if fragment.nodes == [] then after == layout && copied == []
       else Embeds(layout, fragment, all, after, ids, 40.0) && SelectsCopies(fragment, copied, ids)
  }

  /** Duplicating embeds a copy of the selected nodes with their whole groups, of the groups among them and of the
      connections between them, as pasting does. */
  lemma DuplicateEmbeds(layout: Layout, selection: seq<nat>, all: Layout) returns (ids: map<nat, nat>)
    requires WellFormed(layout) && Within(layout, all)
    requires HasRoom(layout, SelectionFragment(layout, selection), all)
    ensures var (after, copied) := Duplicated(layout, selection, all);
      && WellFormed(after)
      && CopiesSelection(layout, selection, all, after, copied, SelectionFragment(layout, selection), ids)
  {
    var fragment := SelectionFragment(layout, selection);
    DuplicateIsPasteOfFragment(layout, selection, all);
    FragmentIsFilter(layout, selection);
    FragmentKeepsWellFormed(layout, selection);
    ids := map[];
    if fragment.nodes != [] {
      ids := PasteEmbeds(layout, fragment, all);
    }
  }

  /** Duplicating the selection keeps the canvas well-formed. */
  lemma DuplicateKeepsWellFormed(layout: Layout, selection: seq<nat>, all: Layout)
    requires WellFormed(layout) && Within(layout, all)
    requires HasRoom(layout, SelectionFragment(layout, selection), all)
    ensures WellFormed(Duplicated(layout, selection, all).0)
  {
    var fragment := SelectionFragment(layout, selection);
    DuplicateIsPasteOfFragment(layout, selection, all);
    FragmentKeepsWellFormed(layout, selection);
    if fragment.nodes != [] {
      var ids := PasteEmbeds(layout, fragment, all);
    }
  }
}
