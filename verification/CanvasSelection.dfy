/** Growing a selection to whole groups: members of a group move, align and restack together. */
module CanvasSelection {
  import opened CanvasLayout

  function ExpandFrom(groups: seq<Group>, selected: set<nat>): set<nat> {
    if groups == [] then selected
    else
      ExpandFrom(groups[1..], if groups[0].members * selected != {} then selected + groups[0].members else selected)
  }

  function Expanded(layout: Layout, selection: seq<nat>): set<nat> {
    ExpandFrom(layout.groups, IdSet(selection))
  }

  method ExpandedSelection(layout: Layout, selection: seq<nat>) returns (expanded: set<nat>)
    ensures expanded == Expanded(layout, selection)
  {
    expanded := IdSet(selection);
    var groups := layout.groups;
    for i := 0 to |groups|
      invariant ExpandFrom(groups[i..], expanded) == Expanded(layout, selection)
    {
      assert groups[i..][1..] == groups[i + 1..];
      if groups[i].members * expanded != {} {
        expanded := expanded + groups[i].members;
      }
    }
  }

  /** A group is selected as a whole or not at all. */
  ghost predicate GroupClosed(groups: seq<Group>, selected: set<nat>) {
    forall g <- groups :: g.members * selected != {} ==> g.members <= selected
  }

  ghost predicate Disjoint(groups: seq<Group>) {
    forall i, j :: 0 <= i < j < |groups| ==> groups[i].members !! groups[j].members
  }

  /** The expansion adds exactly the groups that the selection touches. */
  lemma {:induction false} ExpandFromAddsTouchedGroups(groups: seq<Group>, selected: set<nat>)
    requires Disjoint(groups)
    ensures forall id :: id in ExpandFrom(groups, selected) <==>
      id in selected || exists g <- groups :: id in g.members && g.members * selected != {}
  {
    if groups != [] {
      var head, rest := groups[0], groups[1..];
      var grown := if head.members * selected != {} then selected + head.members else selected;
      assert groups == [head] + rest;
      ExpandFromAddsTouchedGroups(rest, grown);
      forall g <- rest
        ensures g.members * grown == g.members * selected
      {
        assert head.members !! g.members;
      }
    }
  }

  /** On disjoint groups the expansion is the least selection of whole groups that contains the given one. */
  lemma ExpandedIsLeastGroupClosed(layout: Layout, selection: seq<nat>)
    requires Disjoint(layout.groups)
    ensures var expanded := Expanded(layout, selection);
      && (forall id <- selection :: id in expanded)
      && GroupClosed(layout.groups, expanded)
      && (forall other: set<nat> ::
            GroupClosed(layout.groups, other) && (forall id <- selection :: id in other) ==> expanded <= other)
  {
    var groups, expanded := layout.groups, Expanded(layout, selection);
    var start := IdSet(selection);
    ExpandFromAddsTouchedGroups(groups, start);
    forall g <- groups | g.members * expanded != {}
      ensures g.members <= expanded
    {
      var id :| id in g.members * expanded;
      if id !in start {
        var h :| h in groups && id in h.members && h.members * start != {};
        var i :| 0 <= i < |groups| && groups[i] == g;
        var j :| 0 <= j < |groups| && groups[j] == h;
        assert i == j;
      } else {
        assert id in g.members * start;
      }
    }
    forall other: set<nat> | GroupClosed(groups, other) && forall id <- selection :: id in other
      ensures expanded <= other
    {
      forall id <- expanded
        ensures id in other
      {
        if id !in start {
          var h :| h in groups && id in h.members && h.members * start != {};
          var touched :| touched in h.members * start;
          assert touched in h.members * other;
        }
      }
    }
  }

  /** Expanding twice is expanding once. */
  lemma ExpandFromIsIdempotent(groups: seq<Group>, selected: set<nat>)
    requires Disjoint(groups)
    ensures ExpandFrom(groups, ExpandFrom(groups, selected)) == ExpandFrom(groups, selected)
  {
    var once := ExpandFrom(groups, selected);
    ExpandFromAddsTouchedGroups(groups, selected);
    ExpandFromAddsTouchedGroups(groups, once);
    forall g <- groups, id | id in g.members && g.members * once != {}
      ensures id in once
    {
      var hit :| hit in g.members * once;
      if hit in selected {
        assert hit in g.members * selected;
      } else {
        var h :| h in groups && hit in h.members && h.members * selected != {};
        var i :| 0 <= i < |groups| && groups[i] == g;
        var j :| 0 <= j < |groups| && groups[j] == h;
        assert i == j;
      }
    }
  }

  /** Only nodes of the canvas are added to a selection. */
  lemma ExpandedStaysOnCanvas(layout: Layout, selection: seq<nat>)
    requires WellFormed(layout)
    requires forall id <- selection :: id in NodeIds(layout.nodes)
    ensures Expanded(layout, selection) <= NodeIds(layout.nodes)
  {
    ExpandFromAddsTouchedGroups(layout.groups, IdSet(selection));
  }
}
