/** Which parts of a card show text: the card's rectangle inside the canvas, less the cards above it. A
    rectangle is the half-open set of points from its top left corner; coordinates are reals. */
module Occlusion {
  import opened Wrappers
  import opened StableSort
  import opened CanvasLayout
  import CanvasStacking

  const MAX_VISIBLE_REGIONS: nat := 4

  datatype Rect = Rect(x: real, y: real, width: real, height: real)

  datatype Point = Point(x: real, y: real)

  predicate Covers(r: Rect, p: Point) {
    r.x <= p.x < r.x + r.width && r.y <= p.y < r.y + r.height
  }

  predicate CoveredBy(regions: seq<Rect>, p: Point) {
    exists r <- regions :: Covers(r, p)
  }

  function Max(a: real, b: real): real {
    if a >= b then a else b
  }

  function Min(a: real, b: real): real {
    if a <= b then a else b
  }

  /** The library's intersection: present exactly when the overlap has positive width and height. */
  function Intersection(a: Rect, b: Rect): Option<Rect> {
    var x, y := Max(a.x, b.x), Max(a.y, b.y);
    var width := Min(a.x + a.width, b.x + b.width) - x;
    var height := Min(a.y + a.height, b.y + b.height) - y;
    if width > 0.0 && height > 0.0 then Some(Rect(x, y, width, height)) else None
  }

  predicate HasArea(r: Rect) {
    r.width > 0.0 && r.height > 0.0
  }

  lemma IntersectionIsCommonPoints(a: Rect, b: Rect, p: Point)
    ensures Covers(a, p) && Covers(b, p) <==>
      Intersection(a, b).Some? && Covers(Intersection(a, b).value, p)
  {}

  // ----- Subtracting one rectangle -----

  function Strip(present: bool, strip: Rect): seq<Rect> {
    if present then [strip] else []
  }

  /** Above, below, left and right of the overlap. */
  function Remainder(rect: Rect, occluder: Rect): seq<Rect> {
    var overlap := Intersection(rect, occluder);
    if overlap.None? then [rect]
    else
      var o := overlap.value;
      var rectBottom, rectRight := rect.y + rect.height, rect.x + rect.width;
      var bottom, right := o.y + o.height, o.x + o.width;
      Strip(o.y > rect.y, Rect(rect.x, rect.y, rect.width, o.y - rect.y))
      + Strip(bottom < rectBottom, Rect(rect.x, bottom, rect.width, rectBottom - bottom))
      + Strip(o.x > rect.x, Rect(rect.x, o.y, o.x - rect.x, o.height))
      + Strip(right < rectRight, Rect(right, o.y, rectRight - right, o.height))
  }

  method Subtract(rect: Rect, occluder: Rect) returns (parts: seq<Rect>)
    ensures parts == Remainder(rect, occluder)
  {
    var overlap := Intersection(rect, occluder);
    if overlap.None? || overlap.value.width <= 0.0 || overlap.value.height <= 0.0 {
      return [rect];
    }
    var o := overlap.value;
    parts := [];
    var rectBottom, rectRight := rect.y + rect.height, rect.x + rect.width;
    var bottom, right := o.y + o.height, o.x + o.width;
    if o.y > rect.y {
      parts := parts + [Rect(rect.x, rect.y, rect.width, o.y - rect.y)];
    }
    if bottom < rectBottom {
      parts := parts + [Rect(rect.x, bottom, rect.width, rectBottom - bottom)];
    }
    if o.x > rect.x {
      parts := parts + [Rect(rect.x, o.y, o.x - rect.x, o.height)];
    }
    if right < rectRight {
      parts := parts + [Rect(right, o.y, rectRight - right, o.height)];
    }
  }

  ghost predicate Apart(a: Rect, b: Rect) {
    forall p :: !(Covers(a, p) && Covers(b, p))
  }

  ghost predicate PairwiseApart(regions: seq<Rect>) {
    forall i, j :: 0 <= i < j < |regions| ==> Apart(regions[i], regions[j])
  }

  /** What is left of a rectangle is exactly its points outside the occluder, in at most four disjoint pieces. */
  lemma RemainderIsDifference(rect: Rect, occluder: Rect)
    ensures forall p :: CoveredBy(Remainder(rect, occluder), p) <==> Covers(rect, p) && !Covers(occluder, p)
    ensures PairwiseApart(Remainder(rect, occluder))
    ensures |Remainder(rect, occluder)| <= 4
  {
    var parts := Remainder(rect, occluder);
    var overlap := Intersection(rect, occluder);
    forall p
      ensures CoveredBy(parts, p) <==> Covers(rect, p) && !Covers(occluder, p)
    {
      if overlap.None? {
        assert rect in parts;
        IntersectionIsCommonPoints(rect, occluder, p);
      } else {
        RemainderAt(rect, occluder, p);
      }
    }
  }

  lemma RemainderAt(rect: Rect, occluder: Rect, p: Point)
    requires Intersection(rect, occluder).Some?
    ensures CoveredBy(Remainder(rect, occluder), p) <==> Covers(rect, p) && !Covers(occluder, p)
  {
    var parts, o := Remainder(rect, occluder), Intersection(rect, occluder).value;
    var bottom, right := o.y + o.height, o.x + o.width;
    var above := Rect(rect.x, rect.y, rect.width, o.y - rect.y);
    var below := Rect(rect.x, bottom, rect.width, rect.y + rect.height - bottom);
    var left := Rect(rect.x, o.y, o.x - rect.x, o.height);
    var beside := Rect(right, o.y, rect.x + rect.width - right, o.height);
    assert forall r :: r in parts <==>
      (r == above && o.y > rect.y) || (r == below && bottom < rect.y + rect.height)
      || (r == left && o.x > rect.x) || (r == beside && right < rect.x + rect.width);
    IntersectionIsCommonPoints(rect, occluder, p);
    if Covers(rect, p) && !Covers(occluder, p) {
      if p.y < o.y {
        assert Covers(above, p) && above in parts;
      } else if p.y >= bottom {
        assert Covers(below, p) && below in parts;
      } else if p.x < o.x {
        assert Covers(left, p) && left in parts;
      } else {
        assert Covers(beside, p) && beside in parts;
      }
    }
  }

  // ----- Subtracting a list of rectangles -----

  function SplitAll(regions: seq<Rect>, occluder: Rect): seq<Rect> {
    if regions == [] then [] else Remainder(regions[0], occluder) + SplitAll(regions[1..], occluder)
  }

  function Truncate(regions: seq<Rect>): seq<Rect> {
    if |regions| > MAX_VISIBLE_REGIONS then regions[..MAX_VISIBLE_REGIONS] else regions
  }

  function Uncovered(regions: seq<Rect>, occluders: seq<Rect>): seq<Rect>
    decreases occluders
  {
    if occluders == [] then regions else Uncovered(Truncate(SplitAll(regions, occluders[0])), occluders[1..])
  }

  function VisibleRegions(rect: Rect, within: Rect, occluders: seq<Rect>): seq<Rect> {
    var inside := Intersection(rect, within);
    if inside.None? then [] else Filter(Uncovered([inside.value], occluders), HasArea)
  }

  method SplitRegions(regions: seq<Rect>, occluder: Rect) returns (split: seq<Rect>)
    ensures split == SplitAll(regions, occluder)
  {
    split := [];
    for i := 0 to |regions|
      invariant split + SplitAll(regions[i..], occluder) == SplitAll(regions, occluder)
    {
      var parts := Subtract(regions[i], occluder);
      assert regions[i..][1..] == regions[i + 1..];
      split := split + parts;
    }
    assert split + [] == split;
  }

  method ComputeVisibleRegions(rect: Rect, within: Rect, occluders: seq<Rect>) returns (visible: seq<Rect>)
    ensures visible == VisibleRegions(rect, within, occluders)
  {
    var inside := Intersection(rect, within);
    if inside.None? {
      return [];
    }
    var regions := [inside.value];
    var i := 0;
    while i < |occluders|
      invariant 0 <= i <= |occluders|
      invariant Uncovered(regions, occluders[i..]) == Uncovered([inside.value], occluders)
    {
      if regions == [] {
        NothingStaysNothing(occluders[i..]);
        break;
      }
      var split := SplitRegions(regions, occluders[i]);
      assert occluders[i..][1..] == occluders[i + 1..];
      if |split| > MAX_VISIBLE_REGIONS {
        split := split[..MAX_VISIBLE_REGIONS];
      }
      regions := split;
      i := i + 1;
    }
    assert i == |occluders| ==> occluders[i..] == [];
    visible := Filter(regions, HasArea);
  }

  lemma {:induction false} NothingStaysNothing(occluders: seq<Rect>)
    ensures Uncovered([], occluders) == []
  {
    if occluders != [] {
      NothingStaysNothing(occluders[1..]);
    }
  }

  // ----- What the regions are -----

  lemma ConcatCovers(a: seq<Rect>, b: seq<Rect>, p: Point)
    ensures CoveredBy(a + b, p) <==> CoveredBy(a, p) || CoveredBy(b, p)
  {
    if CoveredBy(a, p) {
      var r :| r in a && Covers(r, p);
      assert r in a + b;
    }
    if CoveredBy(b, p) {
      var r :| r in b && Covers(r, p);
      assert r in a + b;
    }
  }

  lemma {:induction false} SplitAllCovers(regions: seq<Rect>, occluder: Rect, p: Point)
    ensures CoveredBy(SplitAll(regions, occluder), p) <==> CoveredBy(regions, p) && !Covers(occluder, p)
  {
    if regions != [] {
      SplitAllCovers(regions[1..], occluder, p);
      RemainderIsDifference(regions[0], occluder);
      ConcatCovers(Remainder(regions[0], occluder), SplitAll(regions[1..], occluder), p);
      ConcatCovers([regions[0]], regions[1..], p);
      assert regions == [regions[0]] + regions[1..];
      assert CoveredBy([regions[0]], p) <==> Covers(regions[0], p) by {
        assert regions[0] in [regions[0]];
      }
    }
  }

  lemma {:induction false} SplitAllApart(regions: seq<Rect>, occluder: Rect)
    requires PairwiseApart(regions)
    ensures PairwiseApart(SplitAll(regions, occluder))
  {
    if regions != [] {
      var parts, rest := Remainder(regions[0], occluder), SplitAll(regions[1..], occluder);
      SplitAllApart(regions[1..], occluder);
      RemainderIsDifference(regions[0], occluder);
      forall i, j | 0 <= i < |parts| && 0 <= j < |rest|
        ensures Apart(parts[i], rest[j])
      {
        forall p
          ensures !(Covers(parts[i], p) && Covers(rest[j], p))
        {
          assert Covers(parts[i], p) ==> CoveredBy(parts, p);
          assert Covers(rest[j], p) ==> CoveredBy(rest, p);
          SplitAllCovers(regions[1..], occluder, p);
          HeadIsApart(regions, p);
        }
      }
    }
  }

  lemma HeadIsApart(regions: seq<Rect>, p: Point)
    requires regions != [] && PairwiseApart(regions)
    ensures !(Covers(regions[0], p) && CoveredBy(regions[1..], p))
  {
    if CoveredBy(regions[1..], p) {
      var r :| r in regions[1..] && Covers(r, p);
      var k :| 1 <= k < |regions| && regions[k] == r;
      assert Apart(regions[0], regions[k]);
    }
  }

  /** No cut ever has to drop pieces. */
  predicate NeverTruncates(regions: seq<Rect>, occluders: seq<Rect>)
    decreases occluders
  {
    occluders == []
    || (|SplitAll(regions, occluders[0])| <= 4
        && NeverTruncates(SplitAll(regions, occluders[0]), occluders[1..]))
  }

  lemma {:induction false} UncoveredIsSound(regions: seq<Rect>, occluders: seq<Rect>, p: Point)
    ensures CoveredBy(Uncovered(regions, occluders), p) ==> CoveredBy(regions, p) && !CoveredBy(occluders, p)
    ensures NeverTruncates(regions, occluders) && CoveredBy(regions, p) && !CoveredBy(occluders, p) ==>
      CoveredBy(Uncovered(regions, occluders), p)
    decreases occluders
  {
    if occluders != [] {
      var split := SplitAll(regions, occluders[0]);
      SplitAllCovers(regions, occluders[0], p);
      UncoveredIsSound(Truncate(split), occluders[1..], p);
      ConcatCovers([occluders[0]], occluders[1..], p);
      assert occluders == [occluders[0]] + occluders[1..];
      assert CoveredBy([occluders[0]], p) <==> Covers(occluders[0], p) by {
        assert occluders[0] in [occluders[0]];
      }
      assert CoveredBy(Truncate(split), p) ==> CoveredBy(split, p);
    }
  }

  lemma {:induction false} UncoveredIsApart(regions: seq<Rect>, occluders: seq<Rect>)
    requires PairwiseApart(regions) && |regions| <= MAX_VISIBLE_REGIONS
    ensures PairwiseApart(Uncovered(regions, occluders)) && |Uncovered(regions, occluders)| <= MAX_VISIBLE_REGIONS
    decreases occluders
  {
    if occluders != [] {
      SplitAllApart(regions, occluders[0]);
      UncoveredIsApart(Truncate(SplitAll(regions, occluders[0])), occluders[1..]);
    }
  }

  lemma FilterCovers(regions: seq<Rect>, p: Point)
    ensures CoveredBy(Filter(regions, HasArea), p) <==> CoveredBy(regions, p)
  {
    if CoveredBy(regions, p) {
      var r :| r in regions && Covers(r, p);
      assert r in Filter(regions, HasArea);
    }
  }

  lemma {:induction false} FilterIsShorter(regions: seq<Rect>)
    ensures |Filter(regions, HasArea)| <= |regions|
  {
    if regions != [] {
      FilterIsShorter(regions[1..]);
    }
  }

  /** At most four pairwise disjoint rectangles of positive area, inside the canvas, showing only points of the
      card that no card above covers; and all of those points, unless some cut had more than four pieces. */
  lemma VisibleRegionsAreUncovered(rect: Rect, within: Rect, occluders: seq<Rect>)
    ensures var visible := VisibleRegions(rect, within, occluders);
      && |visible| <= 4
      && PairwiseApart(visible)
      && (forall r <- visible :: HasArea(r))
      && (forall p :: CoveredBy(visible, p) ==> Covers(rect, p) && Covers(within, p) && !CoveredBy(occluders, p))
      && (Intersection(rect, within).Some? && NeverTruncates([Intersection(rect, within).value], occluders) ==>
            forall p :: Covers(rect, p) && Covers(within, p) && !CoveredBy(occluders, p) ==> CoveredBy(visible, p))
      && (Intersection(rect, within).None? ==> forall p :: !(Covers(rect, p) && Covers(within, p)))
  {
    var inside := Intersection(rect, within);
    forall p
      ensures Covers(rect, p) && Covers(within, p) <==> inside.Some? && Covers(inside.value, p)
    {
      IntersectionIsCommonPoints(rect, within, p);
    }
    if inside.Some? {
      var start := [inside.value];
      var uncovered := Uncovered(start, occluders);
      UncoveredIsApart(start, occluders);
      FilterKeepsPairwise(uncovered, HasArea, (a, b) => Apart(a, b));
      FilterIsShorter(uncovered);
      forall p
        ensures CoveredBy(VisibleRegions(rect, within, occluders), p) <==> CoveredBy(uncovered, p)
        ensures CoveredBy(start, p) <==> Covers(inside.value, p)
      {
        FilterCovers(uncovered, p);
        UncoveredIsSound(start, occluders, p);
        assert inside.value in start;
      }
      forall p
        ensures CoveredBy(uncovered, p) ==> Covers(inside.value, p) && !CoveredBy(occluders, p)
        ensures NeverTruncates(start, occluders) && Covers(inside.value, p) && !CoveredBy(occluders, p) ==>
          CoveredBy(uncovered, p)
      {
        UncoveredIsSound(start, occluders, p);
      }
    }
  }

  /** Every region that is left shows a point of the card that nothing covers. */
  lemma VisibleRegionShowsPoint(rect: Rect, within: Rect, occluders: seq<Rect>) returns (p: Point)
    requires VisibleRegions(rect, within, occluders) != []
    ensures Covers(rect, p) && Covers(within, p) && !CoveredBy(occluders, p)
  {
    var visible := VisibleRegions(rect, within, occluders);
    VisibleRegionsAreUncovered(rect, within, occluders);
    p := Point(visible[0].x, visible[0].y);
    assert visible[0] in visible && Covers(visible[0], p);
    assert CoveredBy(visible, p);
  }

  /** A card hidden by the cards above it, by one or by several together, shows no text at all. */
  lemma CoveredCardIsHidden(rect: Rect, within: Rect, occluders: seq<Rect>)
    requires forall p :: Covers(rect, p) && Covers(within, p) ==> CoveredBy(occluders, p)
    ensures VisibleRegions(rect, within, occluders) == []
  {
    if VisibleRegions(rect, within, occluders) != [] {
      var p := VisibleRegionShowsPoint(rect, within, occluders);
    }
  }

  // ----- When every uncovered point is shown -----

  /** The regions show all points of the starting regions that no occluder covers. */
  ghost predicate Exact(regions: seq<Rect>, occluders: seq<Rect>) {
    forall p :: CoveredBy(Uncovered(regions, occluders), p) <==> CoveredBy(regions, p) && !CoveredBy(occluders, p)
  }

  ghost predicate AllHaveArea(regions: seq<Rect>) {
    forall r <- regions :: HasArea(r)
  }

  lemma {:induction false} SplitAllHasArea(regions: seq<Rect>, occluder: Rect)
    requires AllHaveArea(regions)
    ensures AllHaveArea(SplitAll(regions, occluder))
  {
    if regions != [] {
      assert regions == [regions[0]] + regions[1..];
      SplitAllHasArea(regions[1..], occluder);
    }
  }

  /** A dropped piece takes a point with it. */
  lemma TruncationLosesPoint(split: seq<Rect>) returns (p: Point)
    requires AllHaveArea(split) && PairwiseApart(split) && |split| > MAX_VISIBLE_REGIONS
    ensures CoveredBy(split, p) && !CoveredBy(Truncate(split), p)
  {
    var dropped := split[MAX_VISIBLE_REGIONS];
    assert dropped in split;
    p := Point(dropped.x, dropped.y);
    assert Covers(dropped, p);
    forall r <- Truncate(split)
      ensures !Covers(r, p)
    {
      var i :| 0 <= i < MAX_VISIBLE_REGIONS && split[i] == r;
      assert Apart(split[i], split[MAX_VISIBLE_REGIONS]);
    }
  }

  lemma ExactOnOne(regions: seq<Rect>, occluder: Rect)
    requires AllHaveArea(regions) && PairwiseApart(regions)
    ensures Exact(regions, [occluder]) <==> |SplitAll(regions, occluder)| <= 4
  {
    var split := SplitAll(regions, occluder);
    SplitAllHasArea(regions, occluder);
    SplitAllApart(regions, occluder);
    assert Uncovered(regions, [occluder]) == Truncate(split);
    assert occluder in [occluder];
    forall p
      ensures CoveredBy(split, p) <==> CoveredBy(regions, p) && !CoveredBy([occluder], p)
    {
      SplitAllCovers(regions, occluder, p);
    }
    if |split| > MAX_VISIBLE_REGIONS {
      var p := TruncationLosesPoint(split);
      assert CoveredBy(split, p) && !CoveredBy(Uncovered(regions, [occluder]), p);
    }
  }

  lemma ExactShift(regions: seq<Rect>, occluder: Rect, rest: seq<Rect>)
    requires |SplitAll(regions, occluder)| <= MAX_VISIBLE_REGIONS
    ensures Exact(regions, [occluder] + rest) <==> Exact(SplitAll(regions, occluder), rest)
  {
    var split := SplitAll(regions, occluder);
    assert ([occluder] + rest)[1..] == rest;
    forall p
      ensures CoveredBy(split, p) && !CoveredBy(rest, p)
         <==> CoveredBy(regions, p) && !CoveredBy([occluder] + rest, p)
    {
      SplitAllCovers(regions, occluder, p);
      ConcatCovers([occluder], rest, p);
      assert occluder in [occluder];
    }
  }

  /** All uncovered points are shown after each further occluder of the list, and not just after the last, if and
      only if no cut along the way has more than four pieces. */
  lemma {:induction false} ExactIffNeverTruncates(regions: seq<Rect>, occluders: seq<Rect>)
    requires AllHaveArea(regions) && PairwiseApart(regions)
    ensures NeverTruncates(regions, occluders) <==> forall k :: 0 <= k <= |occluders| ==> Exact(regions, occluders[..k])
    decreases occluders
  {
    if occluders == [] {
      assert occluders[..0] == [];
    } else {
      var split, rest := SplitAll(regions, occluders[0]), occluders[1..];
      ExactOnOne(regions, occluders[0]);
      assert occluders[..1] == [occluders[0]];
      if |split| <= MAX_VISIBLE_REGIONS {
        SplitAllHasArea(regions, occluders[0]);
        SplitAllApart(regions, occluders[0]);
        ExactIffNeverTruncates(split, rest);
        forall k | 0 <= k <= |rest|
          ensures Exact(regions, occluders[..k + 1]) <==> Exact(split, rest[..k])
        {
          ExactShift(regions, occluders[0], rest[..k]);
          assert occluders[..k + 1] == [occluders[0]] + rest[..k];
        }
        ExactIffShifted(regions, split, occluders);
      } else {
        assert !Exact(regions, occluders[..1]);
      }
    }
  }

  lemma ExactIffShifted(regions: seq<Rect>, split: seq<Rect>, occluders: seq<Rect>)
    requires occluders != []
    requires forall k :: 0 <= k <= |occluders[1..]| ==>
      (Exact(regions, occluders[..k + 1]) <==> Exact(split, occluders[1..][..k]))
    ensures (forall k :: 0 <= k <= |occluders| ==> Exact(regions, occluders[..k]))
       <==> (forall k :: 0 <= k <= |occluders[1..]| ==> Exact(split, occluders[1..][..k]))
  {
    assert occluders[..0] == [];
    assert Exact(regions, []);
    if forall k :: 0 <= k <= |occluders[1..]| ==> Exact(split, occluders[1..][..k]) {
      forall k | 0 <= k <= |occluders|
        ensures Exact(regions, occluders[..k])
      {
        if k > 0 {
          assert Exact(split, occluders[1..][..k - 1]);
        }
      }
    }
    if forall k :: 0 <= k <= |occluders| ==> Exact(regions, occluders[..k]) {
      forall k | 0 <= k <= |occluders[1..]|
        ensures Exact(split, occluders[1..][..k])
      {
        assert Exact(regions, occluders[..k + 1]);
      }
    }
  }

  // ----- What a dropped piece costs -----

  /** The pieces left by all occluders, with none dropped. */
  function Unbounded(regions: seq<Rect>, occluders: seq<Rect>): seq<Rect>
    decreases occluders
  {
    if occluders == [] then regions else Unbounded(SplitAll(regions, occluders[0]), occluders[1..])
  }

  lemma {:induction false} UnboundedCovers(regions: seq<Rect>, occluders: seq<Rect>, p: Point)
    ensures CoveredBy(Unbounded(regions, occluders), p) <==> CoveredBy(regions, p) && !CoveredBy(occluders, p)
    decreases occluders
  {
    if occluders != [] {
      SplitAllCovers(regions, occluders[0], p);
      UnboundedCovers(SplitAll(regions, occluders[0]), occluders[1..], p);
      FirstOrRestCovers(occluders, p);
    }
  }

  lemma FirstOrRestCovers(regions: seq<Rect>, p: Point)
    requires regions != []
    ensures CoveredBy(regions, p) <==> Covers(regions[0], p) || CoveredBy(regions[1..], p)
  {
    assert regions[0] in [regions[0]];
    assert regions == [regions[0]] + regions[1..];
    ConcatCovers([regions[0]], regions[1..], p);
  }

  lemma {:induction false} UnboundedHasArea(regions: seq<Rect>, occluders: seq<Rect>)
    requires AllHaveArea(regions)
    ensures AllHaveArea(Unbounded(regions, occluders))
    decreases occluders
  {
    if occluders != [] {
      SplitAllHasArea(regions, occluders[0]);
      UnboundedHasArea(SplitAll(regions, occluders[0]), occluders[1..]);
    }
  }

  /** The occluders together leave nothing of the piece. */
  predicate IsHidden(piece: Rect, occluders: seq<Rect>) {
    Unbounded([piece], occluders) == []
  }

  lemma HiddenIffCovered(piece: Rect, occluders: seq<Rect>)
    requires HasArea(piece)
    ensures IsHidden(piece, occluders) <==> forall p :: Covers(piece, p) ==> CoveredBy(occluders, p)
  {
    var left := Unbounded([piece], occluders);
    assert piece in [piece];
    UnboundedHasArea([piece], occluders);
    forall p
      ensures CoveredBy(left, p) <==> Covers(piece, p) && !CoveredBy(occluders, p)
    {
      UnboundedCovers([piece], occluders, p);
    }
    if left != [] {
      var p := Point(left[0].x, left[0].y);
      assert left[0] in left && Covers(left[0], p);
      assert CoveredBy(left, p);
    }
  }

  /** What is left out of the pieces of a cut: all after the fourth. */
  function Dropped(split: seq<Rect>): seq<Rect> {
    if |split| > 4 then split[4..] else []
  }

  /** Whenever a cut drops pieces, the occluders still to come hide each of them anyway. */
  predicate DropsOnlyHidden(regions: seq<Rect>, occluders: seq<Rect>)
    decreases occluders
  {
    occluders == []
    || (var split := SplitAll(regions, occluders[0]);
        && (forall piece <- Dropped(split) :: IsHidden(piece, occluders[1..]))
        && DropsOnlyHidden(Truncate(split), occluders[1..]))
  }

  lemma KeptOrDropped(split: seq<Rect>, p: Point)
    requires PairwiseApart(split)
    ensures CoveredBy(split, p) <==> CoveredBy(Truncate(split), p) || CoveredBy(Dropped(split), p)
    ensures !(CoveredBy(Truncate(split), p) && CoveredBy(Dropped(split), p))
  {
    assert split == Truncate(split) + Dropped(split);
    ConcatCovers(Truncate(split), Dropped(split), p);
    forall kept <- Truncate(split), dropped <- Dropped(split)
      ensures Apart(kept, dropped)
    {
      var i :| 0 <= i < MAX_VISIBLE_REGIONS && split[i] == kept;
      var j :| MAX_VISIBLE_REGIONS <= j < |split| && split[j] == dropped;
      assert Apart(split[i], split[j]);
    }
  }

  lemma DroppedAreHiddenIffCovered(split: seq<Rect>, rest: seq<Rect>)
    requires AllHaveArea(split)
    ensures (forall piece <- Dropped(split) :: IsHidden(piece, rest))
       <==> (forall p :: CoveredBy(Dropped(split), p) ==> CoveredBy(rest, p))
  {
    forall piece <- Dropped(split)
      ensures IsHidden(piece, rest) <==> forall p :: Covers(piece, p) ==> CoveredBy(rest, p)
    {
      assert piece in split;
      HiddenIffCovered(piece, rest);
    }
  }

  /** One cut is harmless exactly when what it drops is covered later and what it keeps is cut exactly. */
  lemma ExactOnFirst(regions: seq<Rect>, occluders: seq<Rect>)
    requires PairwiseApart(regions) && occluders != []
    ensures var split, rest := SplitAll(regions, occluders[0]), occluders[1..];
      Exact(regions, occluders) <==>
        (forall p :: CoveredBy(Dropped(split), p) ==> CoveredBy(rest, p)) && Exact(Truncate(split), rest)
  {
    var split, rest := SplitAll(regions, occluders[0]), occluders[1..];
    var shown := Uncovered(Truncate(split), rest);
    assert shown == Uncovered(regions, occluders);
    SplitAllApart(regions, occluders[0]);
    forall p
      ensures CoveredBy(regions, p) && !CoveredBy(occluders, p)
         <==> (CoveredBy(Truncate(split), p) || CoveredBy(Dropped(split), p)) && !CoveredBy(rest, p)
      ensures CoveredBy(shown, p) ==> CoveredBy(Truncate(split), p) && !CoveredBy(rest, p)
      ensures !(CoveredBy(Truncate(split), p) && CoveredBy(Dropped(split), p))
    {
      SplitAllCovers(regions, occluders[0], p);
      KeptOrDropped(split, p);
      FirstOrRestCovers(occluders, p);
      UncoveredIsSound(Truncate(split), rest, p);
    }
  }

  /** Every uncovered point is shown at the end of the list if and only if each piece dropped on the way was going
      to be hidden by the rest of the list. */
  lemma {:induction false} ExactIffDropsOnlyHidden(regions: seq<Rect>, occluders: seq<Rect>)
    requires AllHaveArea(regions) && PairwiseApart(regions)
    ensures Exact(regions, occluders) <==> DropsOnlyHidden(regions, occluders)
    decreases occluders
  {
    if occluders != [] {
      var split := SplitAll(regions, occluders[0]);
      SplitAllHasArea(regions, occluders[0]);
      SplitAllApart(regions, occluders[0]);
      ExactOnFirst(regions, occluders);
      DroppedAreHiddenIffCovered(split, occluders[1..]);
      ExactIffDropsOnlyHidden(Truncate(split), occluders[1..]);
    }
  }

  /** The regions of a card show exactly its points on the canvas that no occluder covers. */
  ghost predicate ShowsAllUncovered(rect: Rect, within: Rect, occluders: seq<Rect>) {
    forall p :: CoveredBy(VisibleRegions(rect, within, occluders), p)
           <==> Covers(rect, p) && Covers(within, p) && !CoveredBy(occluders, p)
  }

  predicate LosesNothing(rect: Rect, within: Rect, occluders: seq<Rect>) {
    var inside := Intersection(rect, within);
    inside.None? || DropsOnlyHidden([inside.value], occluders)
  }

  /** The visible regions show all uncovered points if and only if every piece that the cap drops is hidden by the
      occluders that follow. */
  lemma ShowsAllIffLosesNothing(rect: Rect, within: Rect, occluders: seq<Rect>)
    ensures ShowsAllUncovered(rect, within, occluders) <==> LosesNothing(rect, within, occluders)
  {
    var inside := Intersection(rect, within);
    forall p
      ensures Covers(rect, p) && Covers(within, p) <==> inside.Some? && Covers(inside.value, p)
    {
      IntersectionIsCommonPoints(rect, within, p);
    }
    if inside.Some? {
      var start := [inside.value];
      ExactIffDropsOnlyHidden(start, occluders);
      forall p
        ensures CoveredBy(VisibleRegions(rect, within, occluders), p) <==> CoveredBy(Uncovered(start, occluders), p)
        ensures CoveredBy(start, p) <==> Covers(inside.value, p)
      {
        FilterCovers(Uncovered(start, occluders), p);
        assert inside.value in start;
      }
    }
  }

  lemma FirstCut()
    ensures Remainder(Rect(0.0, 0.0, 100.0, 100.0), Rect(20.0, 20.0, 10.0, 10.0))
         == [Rect(0.0, 0.0, 100.0, 20.0), Rect(0.0, 30.0, 100.0, 70.0), Rect(0.0, 20.0, 20.0, 10.0),
             Rect(30.0, 20.0, 70.0, 10.0)]
  {}

  lemma SecondCut()
    ensures var second := Rect(60.0, 20.0, 10.0, 10.0);
      && Remainder(Rect(0.0, 0.0, 100.0, 20.0), second) == [Rect(0.0, 0.0, 100.0, 20.0)]
      && Remainder(Rect(0.0, 30.0, 100.0, 70.0), second) == [Rect(0.0, 30.0, 100.0, 70.0)]
      && Remainder(Rect(0.0, 20.0, 20.0, 10.0), second) == [Rect(0.0, 20.0, 20.0, 10.0)]
      && Remainder(Rect(30.0, 20.0, 70.0, 10.0), second)
           == [Rect(30.0, 20.0, 30.0, 10.0), Rect(70.0, 20.0, 30.0, 10.0)]
  {}

  lemma SplitFour(a: Rect, b: Rect, c: Rect, d: Rect, occluder: Rect)
    ensures SplitAll([a, b, c, d], occluder)
         == Remainder(a, occluder) + (Remainder(b, occluder) + (Remainder(c, occluder) + Remainder(d, occluder)))
  {
    assert [a, b, c, d][1..] == [b, c, d] && [b, c, d][1..] == [c, d] && [c, d][1..] == [d] && [d][1..] == [];
    assert SplitAll([d], occluder) == Remainder(d, occluder);
    assert SplitAll([c, d], occluder) == Remainder(c, occluder) + SplitAll([d], occluder);
    assert SplitAll([b, c, d], occluder) == Remainder(b, occluder) + SplitAll([c, d], occluder);
  }

  lemma TwoOccluders(regions: seq<Rect>, first: Rect, second: Rect)
    ensures Uncovered(regions, [first, second]) == Truncate(SplitAll(Truncate(SplitAll(regions, first)), second))
  {
    var once := Truncate(SplitAll(regions, first));
    assert [first, second][1..] == [second] && [second][1..] == [];
    assert Uncovered(once, [second]) == Uncovered(Truncate(SplitAll(once, second)), []);
  }

  lemma SplitOne(a: Rect, occluder: Rect)
    ensures SplitAll([a], occluder) == Remainder(a, occluder)
  {
    assert [a][1..] == [];
  }

  /** A first cut into four pieces, the last of which a second cut splits in two, keeps only its first part. */
  lemma FifthPieceIsDropped(card: Rect, first: Rect, second: Rect, a: Rect, b: Rect, c: Rect, d: Rect, e: Rect, f: Rect)
    requires Remainder(card, first) == [a, b, c, d]
    requires Remainder(a, second) == [a] && Remainder(b, second) == [b] && Remainder(c, second) == [c]
    requires Remainder(d, second) == [e, f]
    ensures Uncovered([card], [first, second]) == [a, b, c, e]
  {
    SplitOne(card, first);
    SplitFour(a, b, c, d, second);
    TwoOccluders([card], first, second);
  }

  lemma PointIsLost(card: Rect, canvas: Rect, above: seq<Rect>, p: Point)
    requires Intersection(card, canvas) == Some(card)
    requires Covers(card, p) && !CoveredBy(above, p) && !CoveredBy(Uncovered([card], above), p)
    ensures Covers(canvas, p) && !CoveredBy(VisibleRegions(card, canvas, above), p)
    ensures !LosesNothing(card, canvas, above)
  {
    IntersectionIsCommonPoints(card, canvas, p);
    FilterCovers(Uncovered([card], above), p);
    ShowsAllIffLosesNothing(card, canvas, above);
  }

  lemma NoneOfFour(a: Rect, b: Rect, c: Rect, d: Rect, p: Point)
    requires !Covers(a, p) && !Covers(b, p) && !Covers(c, p) && !Covers(d, p)
    ensures !CoveredBy([a, b, c, d], p)
  {
    assert forall r :: r in [a, b, c, d] ==> r == a || r == b || r == c || r == d;
  }

  lemma NoneOfTwo(a: Rect, b: Rect, p: Point)
    requires !Covers(a, p) && !Covers(b, p)
    ensures !CoveredBy([a, b], p)
  {
    assert forall r :: r in [a, b] ==> r == a || r == b;
  }

  /** The point lies on the card and the canvas and under no other card, but carries no text. */
  ghost predicate HidesVisiblePoint(card: Rect, canvas: Rect, above: seq<Rect>, p: Point) {
    && Covers(card, p) && Covers(canvas, p) && !CoveredBy(above, p)
    && !CoveredBy(VisibleRegions(card, canvas, above), p)
    && !LosesNothing(card, canvas, above)
  }

  /** The second card cuts the last of the four pieces that the first leaves, and the point lies on what is fifth. */
  ghost predicate CutsFifthPiece(card: Rect, canvas: Rect, first: Rect, second: Rect,
                                 a: Rect, b: Rect, c: Rect, d: Rect, e: Rect, f: Rect, p: Point) {
    && Intersection(card, canvas) == Some(card)
    && Remainder(card, first) == [a, b, c, d]
    && Remainder(a, second) == [a] && Remainder(b, second) == [b] && Remainder(c, second) == [c]
    && Remainder(d, second) == [e, f]
    && Covers(card, p) && !Covers(first, p) && !Covers(second, p)
    && !Covers(a, p) && !Covers(b, p) && !Covers(c, p) && !Covers(e, p)
  }

  /** A cut into five pieces, the fifth dropped, with nothing else over a point of it. */
  lemma FifthPieceIsLost(card: Rect, canvas: Rect, first: Rect, second: Rect,
                         a: Rect, b: Rect, c: Rect, d: Rect, e: Rect, f: Rect, p: Point)
    requires CutsFifthPiece(card, canvas, first, second, a, b, c, d, e, f, p)
    ensures HidesVisiblePoint(card, canvas, [first, second], p)
  {
    FifthPieceIsDropped(card, first, second, a, b, c, d, e, f);
    NoneOfFour(a, b, c, e, p);
    NoneOfTwo(first, second, p);
    PointIsLost(card, canvas, [first, second], p);
  }

  lemma SmallCardsCutFifthPiece()
    ensures CutsFifthPiece(Rect(0.0, 0.0, 100.0, 100.0), Rect(0.0, 0.0, 800.0, 600.0),
                           Rect(20.0, 20.0, 10.0, 10.0), Rect(60.0, 20.0, 10.0, 10.0),
                           Rect(0.0, 0.0, 100.0, 20.0), Rect(0.0, 30.0, 100.0, 70.0), Rect(0.0, 20.0, 20.0, 10.0),
                           Rect(30.0, 20.0, 70.0, 10.0), Rect(30.0, 20.0, 30.0, 10.0), Rect(70.0, 20.0, 30.0, 10.0),
                           Point(80.0, 25.0))
  {
    FirstCut();
    SecondCut();
  }

  /** Two small cards side by side over a large one are enough to lose a strip of the large one that nothing
      covers: the point (80, 25) carries no text. */
  lemma TruncationHidesVisiblePoint()
    ensures HidesVisiblePoint(Rect(0.0, 0.0, 100.0, 100.0), Rect(0.0, 0.0, 800.0, 600.0),
                              [Rect(20.0, 20.0, 10.0, 10.0), Rect(60.0, 20.0, 10.0, 10.0)], Point(80.0, 25.0))
  {
    SmallCardsCutFifthPiece();
    FifthPieceIsLost(Rect(0.0, 0.0, 100.0, 100.0), Rect(0.0, 0.0, 800.0, 600.0),
                     Rect(20.0, 20.0, 10.0, 10.0), Rect(60.0, 20.0, 10.0, 10.0),
                     Rect(0.0, 0.0, 100.0, 20.0), Rect(0.0, 30.0, 100.0, 70.0), Rect(0.0, 20.0, 20.0, 10.0),
                     Rect(30.0, 20.0, 70.0, 10.0), Rect(30.0, 20.0, 30.0, 10.0), Rect(70.0, 20.0, 30.0, 10.0),
                     Point(80.0, 25.0));
  }

  /** A cut into five pieces, the fifth dropped, under a third card over all of them. */
  lemma FifthPieceIsHidden(card: Rect, canvas: Rect, first: Rect, second: Rect,
                           a: Rect, b: Rect, c: Rect, d: Rect, e: Rect, f: Rect)
    requires Remainder(card, first) == [a, b, c, d]
    requires Remainder(a, second) == [a] && Remainder(b, second) == [b] && Remainder(c, second) == [c]
    requires Remainder(d, second) == [e, f]
    ensures !NeverTruncates([card], [first, second, card]) && LosesNothing(card, canvas, [first, second, card])
  {
    var above := [first, second, card];
    SplitOne(card, first);
    SplitFour(a, b, c, d, second);
    assert |SplitAll([a, b, c, d], second)| == 5;
    assert above[1..][0] == second;
    assert card in above;
    CoveredCardIsHidden(card, canvas, above);
    ShowsAllIffLosesNothing(card, canvas, above);
  }

  /** Dropping a piece can be harmless: with a third card over all of it, the same fifth piece is dropped and
      nothing is lost. */
  lemma TruncationCanBeHarmless()
    ensures var card, canvas := Rect(0.0, 0.0, 100.0, 100.0), Rect(0.0, 0.0, 800.0, 600.0);
      var above := [Rect(20.0, 20.0, 10.0, 10.0), Rect(60.0, 20.0, 10.0, 10.0), card];
      !NeverTruncates([card], above) && LosesNothing(card, canvas, above)
  {
    FirstCut();
    SecondCut();
    FifthPieceIsHidden(Rect(0.0, 0.0, 100.0, 100.0), Rect(0.0, 0.0, 800.0, 600.0),
                       Rect(20.0, 20.0, 10.0, 10.0), Rect(60.0, 20.0, 10.0, 10.0),
                       Rect(0.0, 0.0, 100.0, 20.0), Rect(0.0, 30.0, 100.0, 70.0), Rect(0.0, 20.0, 20.0, 10.0),
                       Rect(30.0, 20.0, 70.0, 10.0), Rect(30.0, 20.0, 30.0, 10.0), Rect(70.0, 20.0, 30.0, 10.0));
  }

  // ----- Drawing all cards -----

  datatype DrawnText = DrawnText(node: Node, regions: seq<Rect>)

  function Rects(nodes: seq<Node>, screen: Node -> Rect): seq<Rect> {
    seq(|nodes|, i requires 0 <= i < |nodes| => screen(nodes[i]))
  }

  /** Each card, back to front, with the part of it that the cards behind it in the list leave visible. */
  function DrawList(nodes: seq<Node>, screen: Node -> Rect, canvas: Rect): seq<DrawnText> {
    if nodes == [] then []
    else
      var regions := VisibleRegions(screen(nodes[0]), canvas, Rects(nodes[1..], screen));
      (if regions == [] then [] else [DrawnText(nodes[0], regions)]) + DrawList(nodes[1..], screen, canvas)
  }

  method DrawOne(shown: seq<Node>, index: nat, screen: Node -> Rect, rects: seq<Rect>, canvas: Rect)
    returns (step: seq<DrawnText>)
    requires index < |shown| && rects == Rects(shown, screen)
    ensures DrawList(shown[index..], screen, canvas) == step + DrawList(shown[index + 1..], screen, canvas)
  {
    var regions := ComputeVisibleRegions(rects[index], canvas, rects[index + 1..]);
    step := if regions == [] then [] else [DrawnText(shown[index], regions)];
    assert shown[index..][1..] == shown[index + 1..];
    assert rects[index + 1..] == Rects(shown[index + 1..], screen);
  }

  lemma Reassociate<T>(a: seq<T>, b: seq<T>, c: seq<T>)
    ensures a + (b + c) == (a + b) + c
  {}

  method DrawSorted(shown: seq<Node>, screen: Node -> Rect, canvas: Rect) returns (drawn: seq<DrawnText>)
    ensures drawn == DrawList(shown, screen, canvas)
  {
    var rects := Rects(shown, screen);
    ghost var whole, rest := DrawList(shown, screen, canvas), DrawList(shown, screen, canvas);
    assert shown[0..] == shown;
    drawn := [];
    for index := 0 to |shown|
      invariant rest == DrawList(shown[index..], screen, canvas) && drawn + rest == whole
    {
      var step := DrawOne(shown, index, screen, rects, canvas);
      rest := DrawList(shown[index + 1..], screen, canvas);
      Reassociate(drawn, step, rest);
      drawn := drawn + step;
    }
    assert shown[|shown|..] == [];
    assert drawn + [] == drawn;
  }

  /** The camera is a placement of nodes on the screen and a choice of those near the viewport. */
  method DrawNodes(nodes: seq<Node>, onScreen: Node -> bool, screen: Node -> Rect, canvas: Rect)
    returns (drawn: seq<DrawnText>)
    ensures drawn == DrawList(Sort(Filter(nodes, onScreen), CanvasStacking.DepthOrder), screen, canvas)
  {
    var shown := Filter(nodes, onScreen);
    shown := Sort(shown, CanvasStacking.DepthOrder);
    drawn := DrawSorted(shown, screen, canvas);
  }

  /** Drawn text of the i-th card lies on that card, on the canvas, and off every later card of the list. */
  ghost predicate OccludedAt(nodes: seq<Node>, screen: Node -> Rect, canvas: Rect, d: DrawnText, i: nat) {
    && i < |nodes| && nodes[i] == d.node
    && (forall p :: CoveredBy(d.regions, p) ==> Covers(screen(d.node), p) && Covers(canvas, p))
    && (forall p, j :: CoveredBy(d.regions, p) && i < j < |nodes| ==> !Covers(screen(nodes[j]), p))
  }

  lemma {:induction false} DrawListIsOccluded(nodes: seq<Node>, screen: Node -> Rect, canvas: Rect, d: DrawnText)
    returns (i: nat)
    requires d in DrawList(nodes, screen, canvas)
    ensures OccludedAt(nodes, screen, canvas, d, i)
  {
    var occluders := Rects(nodes[1..], screen);
    var regions := VisibleRegions(screen(nodes[0]), canvas, occluders);
    if d == DrawnText(nodes[0], regions) && regions != [] {
      i := 0;
      VisibleRegionsAreUncovered(screen(nodes[0]), canvas, occluders);
      forall p, j | CoveredBy(d.regions, p) && 0 < j < |nodes|
        ensures !Covers(screen(nodes[j]), p)
      {
        assert occluders[j - 1] == screen(nodes[j]) && occluders[j - 1] in occluders;
      }
    } else {
      var k := DrawListIsOccluded(nodes[1..], screen, canvas, d);
      i := k + 1;
      forall p, j | CoveredBy(d.regions, p) && i < j < |nodes|
        ensures !Covers(screen(nodes[j]), p)
      {
        assert nodes[j] == nodes[1..][j - 1];
      }
    }
  }

  lemma SortedOnScreen(nodes: seq<Node>, onScreen: Node -> bool)
    ensures var sorted := Sort(Filter(nodes, onScreen), CanvasStacking.DepthOrder);
      && Sorted(sorted, CanvasStacking.DepthOrder)
      && forall n :: n in sorted <==> n in nodes && onScreen(n)
  {
    CanvasStacking.OrdersAreTotal({}, CanvasStacking.Front);
    SortSorts(Filter(nodes, onScreen), CanvasStacking.DepthOrder);
    SortKeepsElements(Filter(nodes, onScreen), CanvasStacking.DepthOrder);
  }

  lemma OccludedIsBeneath(sorted: seq<Node>, screen: Node -> Rect, canvas: Rect, d: DrawnText, i: nat, p: Point, n: Node)
    requires Sorted(sorted, CanvasStacking.DepthOrder) && OccludedAt(sorted, screen, canvas, d, i)
    requires CoveredBy(d.regions, p) && n in sorted && Covers(screen(n), p) && n != d.node
    ensures CanvasStacking.DepthOrder(n, d.node)
  {
    var k :| 0 <= k < |sorted| && sorted[k] == n;
    assert k < i;
  }

  lemma TopmostInList(sorted: seq<Node>, screen: Node -> Rect, canvas: Rect, d: DrawnText, p: Point)
    requires Sorted(sorted, CanvasStacking.DepthOrder)
    requires d in DrawList(sorted, screen, canvas) && CoveredBy(d.regions, p)
    ensures d.node in sorted && Covers(screen(d.node), p) && Covers(canvas, p)
    ensures forall n <- sorted :: Covers(screen(n), p) && n != d.node ==> CanvasStacking.DepthOrder(n, d.node)
  {
    var i := DrawListIsOccluded(sorted, screen, canvas, d);
    assert sorted[i] in sorted;
    forall n <- sorted | Covers(screen(n), p) && n != d.node
      ensures CanvasStacking.DepthOrder(n, d.node)
    {
      OccludedIsBeneath(sorted, screen, canvas, d, i, p, n);
    }
  }

  /** A point carries text only of the topmost card that covers it: no card on screen that covers the point has
      a higher z index, or the same one and a higher identifier. */
  lemma TextBelongsToTopmostCard(nodes: seq<Node>, onScreen: Node -> bool, screen: Node -> Rect, canvas: Rect,
                                 d: DrawnText, p: Point)
    requires d in DrawList(Sort(Filter(nodes, onScreen), CanvasStacking.DepthOrder), screen, canvas)
    requires CoveredBy(d.regions, p)
    ensures d.node in nodes && onScreen(d.node) && Covers(screen(d.node), p) && Covers(canvas, p)
    ensures forall n <- nodes :: onScreen(n) && Covers(screen(n), p) && n != d.node ==>
      CanvasStacking.DepthOrder(n, d.node)
  {
    SortedOnScreen(nodes, onScreen);
    TopmostInList(Sort(Filter(nodes, onScreen), CanvasStacking.DepthOrder), screen, canvas, d, p);
  }

  /** No point carries text from two cards. */
  lemma TextIsDisjoint(nodes: seq<Node>, onScreen: Node -> bool, screen: Node -> Rect, canvas: Rect,
                       a: DrawnText, b: DrawnText)
    requires a.node.id != b.node.id
    requires a in DrawList(Sort(Filter(nodes, onScreen), CanvasStacking.DepthOrder), screen, canvas)
    requires b in DrawList(Sort(Filter(nodes, onScreen), CanvasStacking.DepthOrder), screen, canvas)
    ensures forall p :: !(CoveredBy(a.regions, p) && CoveredBy(b.regions, p))
  {
    if p :| CoveredBy(a.regions, p) && CoveredBy(b.regions, p) {
      TextBelongsToTopmostCard(nodes, onScreen, screen, canvas, a, p);
      TextBelongsToTopmostCard(nodes, onScreen, screen, canvas, b, p);
    }
  }

  /** The i-th card of the list carries text at the point. */
  ghost predicate CarriesText(drawn: seq<DrawnText>, n: Node, p: Point) {
    exists d <- drawn :: d.node == n && CoveredBy(d.regions, p)
  }

  lemma {:induction false} DrawnAreListed(nodes: seq<Node>, screen: Node -> Rect, canvas: Rect, d: DrawnText)
    requires d in DrawList(nodes, screen, canvas)
    ensures d.node in nodes
  {
    var regions := VisibleRegions(screen(nodes[0]), canvas, Rects(nodes[1..], screen));
    if !(regions != [] && d == DrawnText(nodes[0], regions)) {
      DrawnAreListed(nodes[1..], screen, canvas, d);
    }
  }

  /** Each card of the list carries text on exactly its own visible regions. */
  lemma {:induction false} CarriesItsRegions(nodes: seq<Node>, screen: Node -> Rect, canvas: Rect, i: nat, p: Point)
    requires i < |nodes| && Distinct(nodes)
    ensures CarriesText(DrawList(nodes, screen, canvas), nodes[i], p)
       <==> CoveredBy(VisibleRegions(screen(nodes[i]), canvas, Rects(nodes[i + 1..], screen)), p)
  {
    var regions := VisibleRegions(screen(nodes[0]), canvas, Rects(nodes[1..], screen));
    var first := if regions == [] then [] else [DrawnText(nodes[0], regions)];
    var rest := DrawList(nodes[1..], screen, canvas);
    assert forall d :: d in first + rest <==> d in first || d in rest;
    assert forall d :: d in first <==> regions != [] && d == DrawnText(nodes[0], regions);
    if i == 0 {
      forall d <- rest
        ensures d.node != nodes[0]
      {
        DrawnAreListed(nodes[1..], screen, canvas, d);
      }
    } else {
      CarriesItsRegions(nodes[1..], screen, canvas, i - 1, p);
      assert nodes[1..][i..] == nodes[i + 1..];
      assert nodes[0].id != nodes[i].id;
    }
  }

  /** The card is the highest on screen that covers the point. */
  ghost predicate IsTopmost(nodes: seq<Node>, onScreen: Node -> bool, screen: Node -> Rect, n: Node, p: Point) {
    && Covers(screen(n), p)
    && forall m <- nodes :: onScreen(m) && Covers(screen(m), p) && m != n ==>
         m.z < n.z || (m.z == n.z && m.id <= n.id)
  }

  /** In depth order, being topmost at a point is not being covered by a later card there. */
  lemma TopmostIsUncovered(sorted: seq<Node>, screen: Node -> Rect, i: nat, p: Point)
    requires Sorted(sorted, CanvasStacking.DepthOrder) && Distinct(sorted) && i < |sorted|
    ensures (forall m <- sorted :: Covers(screen(m), p) && m != sorted[i] ==> CanvasStacking.DepthOrder(m, sorted[i]))
       <==> !CoveredBy(Rects(sorted[i + 1..], screen), p)
  {
    var later := Rects(sorted[i + 1..], screen);
    if CoveredBy(later, p) {
      var r :| r in later && Covers(r, p);
      var k :| 0 <= k < |later| && later[k] == r;
      var m := sorted[i + 1 + k];
      assert m in sorted && Covers(screen(m), p) && m.id != sorted[i].id;
      assert CanvasStacking.DepthOrder(sorted[i], m);
    } else {
      forall k | i < k < |sorted|
        ensures !Covers(screen(sorted[k]), p)
      {
        assert later[k - i - 1] in later;
      }
      forall m <- sorted | Covers(screen(m), p) && m != sorted[i]
        ensures CanvasStacking.DepthOrder(m, sorted[i])
      {
        var k :| 0 <= k < |sorted| && sorted[k] == m;
        assert k < i;
      }
    }
  }

  /** A card carries text at exactly the canvas points where it is topmost, if and only if the cap loses nothing
      of it. */
  lemma CardShowsWhereTopmost(nodes: seq<Node>, onScreen: Node -> bool, screen: Node -> Rect, canvas: Rect, i: nat)
    requires Ascending(nodes, NodeKey)
    requires i < |Sort(Filter(nodes, onScreen), CanvasStacking.DepthOrder)|
    ensures var sorted := Sort(Filter(nodes, onScreen), CanvasStacking.DepthOrder);
      (forall p :: CarriesText(DrawList(sorted, screen, canvas), sorted[i], p)
              <==> Covers(canvas, p) && IsTopmost(nodes, onScreen, screen, sorted[i], p))
      <==> LosesNothing(screen(sorted[i]), canvas, Rects(sorted[i + 1..], screen))
  {
    var sorted := Sort(Filter(nodes, onScreen), CanvasStacking.DepthOrder);
    var n, above := sorted[i], Rects(sorted[i + 1..], screen);
    SortedOnScreen(nodes, onScreen);
    FilterKeepsAscending(nodes, onScreen, NodeKey);
    AscendingIsDistinct(Filter(nodes, onScreen));
    SortKeepsDistinct(Filter(nodes, onScreen), CanvasStacking.DepthOrder);
    forall p
      ensures CarriesText(DrawList(sorted, screen, canvas), n, p) <==> CoveredBy(VisibleRegions(screen(n), canvas, above), p)
      ensures IsTopmost(nodes, onScreen, screen, n, p) <==> Covers(screen(n), p) && !CoveredBy(above, p)
    {
      CarriesItsRegions(sorted, screen, canvas, i, p);
      TopmostIsUncovered(sorted, screen, i, p);
    }
    ShowsAllIffLosesNothing(screen(n), canvas, above);
  }

  // ----- Clipping text to the regions -----

  function Clip(region: Rect, bounds: Rect): seq<Rect> {
    var clip := Intersection(region, bounds);
    if clip.None? then [] else [clip.value]
  }

  function Clips(regions: seq<Rect>, bounds: Rect): seq<Rect> {
    if regions == [] then [] else Clip(regions[0], bounds) + Clips(regions[1..], bounds)
  }

  method ClipText(regions: seq<Rect>, bounds: Rect) returns (clips: seq<Rect>)
    ensures clips == Clips(regions, bounds)
  {
    clips := [];
    ghost var whole, rest := Clips(regions, bounds), Clips(regions, bounds);
    assert regions[0..] == regions;
    for i := 0 to |regions|
      invariant rest == Clips(regions[i..], bounds) && clips + rest == whole
    {
      assert regions[i..][1..] == regions[i + 1..];
      ghost var more := Clips(regions[i + 1..], bounds);
      assert rest == Clip(regions[i], bounds) + more;
      ghost var before := clips;
      var clip := Intersection(regions[i], bounds);
      if clip.Some? && !(clip.value.width <= 0.0 || clip.value.height <= 0.0) {
        clips := clips + [clip.value];
      }
      Reassociate(before, Clip(regions[i], bounds), more);
      rest := more;
    }
    assert clips + [] == clips;
  }

  /** Text is painted exactly where its own bounds meet the visible regions of its card. */
  lemma {:induction false} ClipsStayInRegions(regions: seq<Rect>, bounds: Rect, p: Point)
    ensures CoveredBy(Clips(regions, bounds), p) <==> CoveredBy(regions, p) && Covers(bounds, p)
  {
    if regions != [] {
      var clip := Intersection(regions[0], bounds);
      var first := Clip(regions[0], bounds);
      ClipsStayInRegions(regions[1..], bounds, p);
      IntersectionIsCommonPoints(regions[0], bounds, p);
      ConcatCovers(first, Clips(regions[1..], bounds), p);
      ConcatCovers([regions[0]], regions[1..], p);
      assert regions == [regions[0]] + regions[1..];
      assert regions[0] in [regions[0]];
      assert CoveredBy(first, p) <==> clip.Some? && Covers(clip.value, p) by {
        if clip.Some? {
          assert clip.value in first;
        }
      }
    }
  }
}
