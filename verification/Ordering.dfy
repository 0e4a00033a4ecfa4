/** The library's stable sort, as the function it computes, and what that means. */
module Ordering {
  function Insert<T>(x: T, s: seq<T>, rank: T -> int): seq<T> {
    if s == [] || rank(x) <= rank(s[0]) then [x] + s else [s[0]] + Insert(x, s[1..], rank)
  }

  function StableSort<T>(s: seq<T>, rank: T -> int): seq<T> {
    if s == [] then [] else Insert(s[0], StableSort(s[1..], rank), rank)
  }

  predicate Sorted<T>(s: seq<T>, rank: T -> int) {
    forall i, j | 0 <= i < j < |s| :: rank(s[i]) <= rank(s[j])
  }

  /** The elements of one rank, in order. */
  function Only<T>(s: seq<T>, rank: T -> int, r: int): seq<T> {
    if s == [] then [] else (if rank(s[0]) == r then [s[0]] else []) + Only(s[1..], rank, r)
  }

  lemma {:induction false} InsertPermutes<T>(x: T, s: seq<T>, rank: T -> int)
    ensures multiset(Insert(x, s, rank)) == multiset{x} + multiset(s)
    decreases s
  {
    if s != [] && rank(x) > rank(s[0]) {
      InsertPermutes(x, s[1..], rank);
      assert s == [s[0]] + s[1..];
    }
  }

  lemma {:induction false} ConsSorted<T>(x: T, s: seq<T>, rank: T -> int)
    requires Sorted(s, rank) && forall y <- s :: rank(x) <= rank(y)
    ensures Sorted([x] + s, rank)
  {
    var t := [x] + s;
    forall i, j | 0 <= i < j < |t| ensures rank(t[i]) <= rank(t[j]) {
      assert t[j] == s[j - 1];
      if i > 0 {
        assert t[i] == s[i - 1];
      }
    }
  }

  lemma {:induction false} InsertSorted<T>(x: T, s: seq<T>, rank: T -> int)
    requires Sorted(s, rank)
    ensures Sorted(Insert(x, s, rank), rank)
    decreases s
  {
    if s == [] || rank(x) <= rank(s[0]) {
      ConsSorted(x, s, rank);
    } else {
      InsertSorted(x, s[1..], rank);
      InsertPermutes(x, s[1..], rank);
      var t := Insert(x, s[1..], rank);
      forall y <- t ensures rank(s[0]) <= rank(y) {
        assert y in multiset(t);
        if y != x {
          assert y in s[1..];
        }
      }
      ConsSorted(s[0], t, rank);
    }
  }

  lemma OnlyCons<T>(x: T, s: seq<T>, rank: T -> int, r: int)
    ensures Only([x] + s, rank, r) == (if rank(x) == r then [x] else []) + Only(s, rank, r)
  {
    assert ([x] + s)[1..] == s;
  }

  lemma {:induction false} InsertStable<T>(x: T, s: seq<T>, rank: T -> int, r: int)
    requires Sorted(s, rank)
    ensures Only(Insert(x, s, rank), rank, r) == (if rank(x) == r then [x] else []) + Only(s, rank, r)
    decreases s
  {
    hide Only;
    if s == [] || rank(x) <= rank(s[0]) {
      OnlyCons(x, s, rank, r);
    } else {
      InsertStable(x, s[1..], rank, r);
      OnlyCons(s[0], Insert(x, s[1..], rank), rank, r);
      OnlyCons(s[0], s[1..], rank, r);
      assert s == [s[0]] + s[1..];
    }
  }

  /** The result is in order, holds the same elements, and keeps equals in the order they came. */
  lemma {:induction false} SortIsStable<T>(s: seq<T>, rank: T -> int)
    ensures Sorted(StableSort(s, rank), rank)
    ensures multiset(StableSort(s, rank)) == multiset(s)
    ensures forall r :: Only(StableSort(s, rank), rank, r) == Only(s, rank, r)
    decreases s
  {
    if s != [] {
      SortIsStable(s[1..], rank);
      InsertSorted(s[0], StableSort(s[1..], rank), rank);
      InsertPermutes(s[0], StableSort(s[1..], rank), rank);
      assert s == [s[0]] + s[1..];
      forall r ensures Only(StableSort(s, rank), rank, r) == Only(s, rank, r) {
        InsertStable(s[0], StableSort(s[1..], rank), rank, r);
      }
    }
  }
}
