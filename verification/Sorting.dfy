/** The stable sort of Java lists and streams, by a number computed from each element. */
module Sorting {
  function Insert<T>(key: T -> int, x: T, sorted: seq<T>): seq<T> {
    if sorted == [] || key(x) < key(sorted[0]) then [x] + sorted
    else [sorted[0]] + Insert(key, x, sorted[1..])
  }

  function SortBy<T>(key: T -> int, xs: seq<T>): seq<T> {
    if xs == [] then [] else Insert(key, xs[|xs| - 1], SortBy(key, xs[..|xs| - 1]))
  }

  predicate SortedBy<T>(key: T -> int, xs: seq<T>) {
    forall i, j :: 0 <= i < j < |xs| ==> key(xs[i]) <= key(xs[j])
  }

  lemma {:induction false} InsertKeepsAll<T>(key: T -> int, x: T, sorted: seq<T>)
    ensures multiset(Insert(key, x, sorted)) == multiset(sorted) + multiset{x}
    decreases |sorted|
  {
    if sorted != [] && key(x) >= key(sorted[0]) {
      InsertKeepsAll(key, x, sorted[1..]);
      assert sorted == [sorted[0]] + sorted[1..];
    }
  }

  lemma {:induction false} InsertKeepsSorted<T>(key: T -> int, x: T, sorted: seq<T>)
    requires SortedBy(key, sorted)
    ensures SortedBy(key, Insert(key, x, sorted))
    ensures forall y :: y in Insert(key, x, sorted) ==> y == x || y in sorted
    decreases |sorted|
  {
    if sorted != [] && key(x) >= key(sorted[0]) {
      InsertKeepsSorted(key, x, sorted[1..]);
      var rest := Insert(key, x, sorted[1..]);
      forall k | 0 <= k < |rest| ensures key(sorted[0]) <= key(rest[k]) { assert rest[k] in rest; }
    }
  }

  lemma {:induction false} SortIs<T>(key: T -> int, xs: seq<T>)
    ensures SortedBy(key, SortBy(key, xs))
    ensures multiset(SortBy(key, xs)) == multiset(xs)
    ensures |SortBy(key, xs)| == |xs|
    ensures forall x :: x in SortBy(key, xs) <==> x in xs
    decreases |xs|
  {
    if xs != [] {
      var front, last := xs[..|xs| - 1], xs[|xs| - 1];
      SortIs(key, front);
      InsertKeepsAll(key, last, SortBy(key, front));
      InsertKeepsSorted(key, last, SortBy(key, front));
      assert xs == front + [last];
    }
    assert |multiset(SortBy(key, xs))| == |multiset(xs)|;
    forall x ensures x in SortBy(key, xs) <==> x in xs {
      assert x in multiset(SortBy(key, xs)) <==> x in multiset(xs);
    }
  }

  lemma {:induction false} InsertLast<T>(key: T -> int, x: T, sorted: seq<T>)
    requires forall y :: y in sorted ==> key(y) <= key(x)
    ensures Insert(key, x, sorted) == sorted + [x]
    decreases |sorted|
  {
    if sorted != [] {
      InsertLast(key, x, sorted[1..]);
      assert sorted == [sorted[0]] + sorted[1..];
    }
  }

  lemma {:induction false} SortOfSorted<T>(key: T -> int, xs: seq<T>)
    requires SortedBy(key, xs)
    ensures SortBy(key, xs) == xs
    decreases |xs|
  {
    if xs != [] {
      var front, last := xs[..|xs| - 1], xs[|xs| - 1];
      SortOfSorted(key, front);
      InsertLast(key, last, front);
      assert xs == front + [last];
    }
  }

  // ---------------------------------------------------------------- equal keys keep their order

  /** The elements of one key, in order. */
  function WithKey<T>(key: T -> int, xs: seq<T>, k: int): seq<T> {
    if xs == [] then [] else WithKey(key, xs[..|xs| - 1], k) + if key(xs[|xs| - 1]) == k then [xs[|xs| - 1]] else []
  }

  lemma {:induction false} WithKeyOfCons<T>(key: T -> int, x: T, xs: seq<T>, k: int)
    ensures WithKey(key, [x] + xs, k) == (if key(x) == k then [x] else []) + WithKey(key, xs, k)
    decreases |xs|
  {
    var all := [x] + xs;
    if xs == [] {
      assert all[..0] == [] && all == [x];
    } else {
      assert all[..|all| - 1] == [x] + xs[..|xs| - 1] && all[|all| - 1] == xs[|xs| - 1];
      WithKeyOfCons(key, x, xs[..|xs| - 1], k);
    }
  }

  lemma {:induction false} NoneWithKey<T>(key: T -> int, xs: seq<T>, k: int)
    requires forall x :: x in xs ==> key(x) != k
    ensures WithKey(key, xs, k) == []
    decreases |xs|
  {
    if xs != [] { NoneWithKey(key, xs[..|xs| - 1], k); }
  }

  /** An element goes behind those of its own key. */
  lemma {:induction false} InsertGoesLast<T>(key: T -> int, x: T, sorted: seq<T>, k: int)
    requires SortedBy(key, sorted)
    ensures WithKey(key, Insert(key, x, sorted), k) == WithKey(key, sorted, k) + if key(x) == k then [x] else []
    decreases |sorted|
  {
    if sorted == [] || key(x) < key(sorted[0]) {
      WithKeyOfCons(key, x, sorted, k);
      if key(x) == k { NoneWithKey(key, sorted, k); }
    } else {
      assert sorted == [sorted[0]] + sorted[1..];
      WithKeyOfCons(key, sorted[0], sorted[1..], k);
      WithKeyOfCons(key, sorted[0], Insert(key, x, sorted[1..]), k);
      InsertGoesLast(key, x, sorted[1..], k);
    }
  }

  /** The sort is stable. */
  lemma {:induction false} SortIsStable<T>(key: T -> int, xs: seq<T>, k: int)
    ensures WithKey(key, SortBy(key, xs), k) == WithKey(key, xs, k)
    decreases |xs|
  {
    if xs != [] {
      var front := xs[..|xs| - 1];
      SortIs(key, front);
      SortIsStable(key, front, k);
      InsertGoesLast(key, xs[|xs| - 1], SortBy(key, front), k);
    }
  }

  /** By the first key, and among equals by the second. */
  predicate SortedByBoth<T>(key: T -> int, rank: T -> int, xs: seq<T>) {
    forall i, j :: 0 <= i < j < |xs| ==>
      key(xs[i]) < key(xs[j]) || (key(xs[i]) == key(xs[j]) && rank(xs[i]) < rank(xs[j]))
  }

  lemma {:induction false} InsertKeepsBoth<T>(key: T -> int, rank: T -> int, x: T, sorted: seq<T>)
    requires SortedByBoth(key, rank, sorted) && forall y :: y in sorted ==> rank(y) < rank(x)
    ensures SortedByBoth(key, rank, Insert(key, x, sorted))
    ensures forall y :: y in Insert(key, x, sorted) ==> y == x || y in sorted
    decreases |sorted|
  {
    if sorted != [] && key(x) >= key(sorted[0]) {
      InsertKeepsBoth(key, rank, x, sorted[1..]);
      var rest := Insert(key, x, sorted[1..]);
      assert sorted[0] in sorted;
      forall k | 0 <= k < |rest|
        ensures key(sorted[0]) < key(rest[k]) || (key(sorted[0]) == key(rest[k]) && rank(sorted[0]) < rank(rest[k]))
      {
        assert rest[k] in rest;
      }
    }
  }

  /** A list that rises by one key, sorted by another: among equals it still rises. */
  lemma {:induction false} SortOfRising<T>(key: T -> int, rank: T -> int, xs: seq<T>)
    requires forall i, j :: 0 <= i < j < |xs| ==> rank(xs[i]) < rank(xs[j])
    ensures SortedByBoth(key, rank, SortBy(key, xs))
    decreases |xs|
  {
    if xs != [] {
      var front, last := xs[..|xs| - 1], xs[|xs| - 1];
      SortOfRising(key, rank, front);
      SortIs(key, front);
      forall y | y in SortBy(key, front) ensures rank(y) < rank(last) {
        assert y in multiset(front);
        var k :| 0 <= k < |front| && front[k] == y;
        assert xs[k] == y;
      }
      InsertKeepsBoth(key, rank, last, SortBy(key, front));
    }
  }
}
