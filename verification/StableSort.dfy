/** Stable sorting by a key order, as `sort_by_key` does it, and the smallest element of a set. */
module StableSort {

  ghost predicate TotalPreorder<T(!new)>(le: (T, T) -> bool) {
    && (forall a, b :: le(a, b) || le(b, a))
    && (forall a, b, c :: le(a, b) && le(b, c) ==> le(a, c))
  }

  predicate Sorted<T>(s: seq<T>, le: (T, T) -> bool) {
    forall i, j :: 0 <= i < j < |s| ==> le(s[i], s[j])
  }

  function Insert<T>(x: T, s: seq<T>, le: (T, T) -> bool): seq<T> {
    if s == [] || le(x, s[0]) then [x] + s else [s[0]] + Insert(x, s[1..], le)
  }

  function Sort<T>(s: seq<T>, le: (T, T) -> bool): seq<T> {
    if s == [] then [] else Insert(s[0], Sort(s[1..], le), le)
  }

  /** Order by `first`, and within its ties by `second`. */
  function Lexicographic<T>(first: (T, T) -> bool, second: (T, T) -> bool): (T, T) -> bool {
    (a, b) => first(a, b) && (first(b, a) ==> second(a, b))
  }

  lemma {:induction false} InsertKeepsElements<T>(x: T, s: seq<T>, le: (T, T) -> bool)
    ensures multiset(Insert(x, s, le)) == multiset{x} + multiset(s)
  {
    if s != [] {
      assert s == [s[0]] + s[1..];
      InsertKeepsElements(x, s[1..], le);
    }
  }

  lemma {:induction false} SortKeepsElements<T>(s: seq<T>, le: (T, T) -> bool)
    ensures multiset(Sort(s, le)) == multiset(s)
    ensures |Sort(s, le)| == |s|
    ensures forall x :: x in Sort(s, le) <==> x in s
  {
    if s != [] {
      assert s == [s[0]] + s[1..];
      SortKeepsElements(s[1..], le);
      InsertKeepsElements(s[0], Sort(s[1..], le), le);
    }
    assert |multiset(Sort(s, le))| == |multiset(s)|;
    assert forall x :: x in Sort(s, le) <==> x in multiset(Sort(s, le));
  }

  lemma {:induction false} InsertSorts<T(!new)>(x: T, s: seq<T>, le: (T, T) -> bool)
    requires TotalPreorder(le) && Sorted(s, le)
    ensures Sorted(Insert(x, s, le), le)
  {
    if s != [] && !le(x, s[0]) {
      InsertSorts(x, s[1..], le);
      InsertKeepsElements(x, s[1..], le);
      var rest := Insert(x, s[1..], le);
      forall i | 0 <= i < |rest|
        ensures le(s[0], rest[i])
      {
        assert rest[i] in multiset(rest);
        assert rest[i] == x || rest[i] in s[1..];
      }
    }
  }

  lemma {:induction false} SortSorts<T(!new)>(s: seq<T>, le: (T, T) -> bool)
    requires TotalPreorder(le)
    ensures Sorted(Sort(s, le), le)
  {
    if s != [] {
      SortSorts(s[1..], le);
      InsertSorts(s[0], Sort(s[1..], le), le);
    }
  }

  /** Sorting what is already in order changes nothing. */
  lemma {:induction false} SortOfSorted<T>(s: seq<T>, le: (T, T) -> bool)
    requires Sorted(s, le)
    ensures Sort(s, le) == s
  {
    if s != [] {
      SortOfSorted(s[1..], le);
      assert s[1..] != [] ==> le(s[0], s[1]);
    }
  }

  lemma {:induction false} InsertIsStable<T(!new)>(x: T, s: seq<T>, key: (T, T) -> bool, tie: (T, T) -> bool)
    requires TotalPreorder(key) && TotalPreorder(tie)
    requires Sorted(s, Lexicographic(key, tie))
    requires forall y :: y in s ==> tie(x, y)
    ensures Sorted(Insert(x, s, key), Lexicographic(key, tie))
  {
    if s != [] {
      if key(x, s[0]) {
        forall i | 0 <= i < |s|
          ensures Lexicographic(key, tie)(x, s[i])
        {
          assert i > 0 ==> Lexicographic(key, tie)(s[0], s[i]);
          assert s[i] in s;
        }
      } else {
        InsertIsStable(x, s[1..], key, tie);
        InsertKeepsElements(x, s[1..], key);
        var rest := Insert(x, s[1..], key);
        forall i | 0 <= i < |rest|
          ensures Lexicographic(key, tie)(s[0], rest[i])
        {
          assert rest[i] in multiset(rest);
          assert rest[i] == x || rest[i] in s[1..];
        }
      }
    }
  }

  /** Stability: sorting by a key keeps an earlier order among elements with the same key. */
  lemma {:induction false} SortIsStable<T(!new)>(s: seq<T>, key: (T, T) -> bool, tie: (T, T) -> bool)
    requires TotalPreorder(key) && TotalPreorder(tie)
    requires Sorted(s, tie)
    ensures Sorted(Sort(s, key), Lexicographic(key, tie))
  {
    if s != [] {
      SortIsStable(s[1..], key, tie);
      SortKeepsElements(s[1..], key);
      InsertIsStable(s[0], Sort(s[1..], key), key, tie);
    }
  }

  // ----- Smallest elements -----

  lemma SmallestOf(s: set<nat>) returns (m: nat)
    requires s != {}
    ensures m in s && forall x :: x in s ==> m <= x
  {
    var some :| some in s;
    var others := s - {some};
    if others == {} {
      m := some;
    } else {
      m := SmallestOf(others);
      m := if some < m then some else m;
    }
    forall x | x in s
      ensures m <= x
    {
      assert x == some || x in others;
    }
  }

  lemma SmallestExists(s: set<nat>)
    requires s != {}
    ensures exists m :: m in s && forall x :: x in s ==> m <= x
  {
    var m := SmallestOf(s);
  }

  function Smallest(s: set<nat>): (m: nat)
    requires s != {}
    ensures m in s && forall x :: x in s ==> m <= x
  {
    SmallestExists(s);
    var m :| m in s && forall x :: x in s ==> m <= x;
    m
  }

  /** The elements of a set in ascending order. */
  function AscendingList(s: set<nat>): (list: seq<nat>)
    ensures forall x :: x in list ==> x in s
  {
    if s == {} then [] else [Smallest(s)] + AscendingList(s - {Smallest(s)})
  }

  /** There is only one way to list a set in ascending order. */
  lemma {:induction false} AscendingListIsUnique(s: set<nat>, list: seq<nat>)
    requires forall i, j :: 0 <= i < j < |list| ==> list[i] < list[j]
    requires forall x :: x in s <==> x in list
    ensures AscendingList(s) == list
    decreases |list|
  {
    if list == [] {
      assert s == {};
    } else {
      assert list[0] in s;
      var m := Smallest(s);
      var i :| 0 <= i < |list| && list[i] == m;
      assert i == 0;
      assert list == [m] + list[1..];
      AscendingListIsUnique(s - {m}, list[1..]);
    }
  }
}
