/**
 * `Array.prototype.sort(compare)`: a stable sort driven by a comparator that
 * returns a negative, zero or positive number. The model is a stable
 * insertion sort. Every comparator the source passes is antisymmetric
 * (swapping the arguments flips the sign), which is all the sortedness
 * guarantee below needs; the top-k lemmas add the key-based case.
 */
module Sorting {
  import opened Common

  ghost predicate Antisymmetric<T(!new)>(cmp: (T, T) -> int) {
    forall x, y :: cmp(x, y) > 0 ==> cmp(y, x) < 0
  }

  /** Every element compares `<= 0` with its successor. */
  ghost predicate AdjacentSorted<T>(s: seq<T>, cmp: (T, T) -> int) {
    forall i :: 0 <= i < |s| - 1 ==> cmp(s[i], s[i + 1]) <= 0
  }

  /** Insert `x` after the leading run that compares `<= 0` with it (so equal elements keep their order). */
  function Insert<T(!new)>(s: seq<T>, x: T, cmp: (T, T) -> int): (r: seq<T>)
    requires Antisymmetric(cmp) && AdjacentSorted(s, cmp)
    ensures AdjacentSorted(r, cmp)
    ensures multiset(r) == multiset(s) + multiset{x}
    ensures |r| == |s| + 1
    ensures r[0] == x || (s != [] && r[0] == s[0])
  {
    if s == [] then [x]
    else if cmp(s[0], x) > 0 then
      assert cmp(x, s[0]) < 0;
      ConsSorted(x, s, cmp);
      [x] + s
    else
      TailSorted(s, cmp);
      var rest := Insert(s[1..], x, cmp);
      InsertAfterHead(s, x, rest, cmp);
      [s[0]] + rest
  }

  /** The head that stays in front of the insertion keeps the result sorted and a permutation. */
  lemma InsertAfterHead<T>(s: seq<T>, x: T, rest: seq<T>, cmp: (T, T) -> int)
    requires s != [] && AdjacentSorted(s, cmp) && cmp(s[0], x) <= 0
    requires AdjacentSorted(rest, cmp) && multiset(rest) == multiset(s[1..]) + multiset{x}
    requires |rest| == |s| && (rest[0] == x || (|s| > 1 && rest[0] == s[1]))
    ensures AdjacentSorted([s[0]] + rest, cmp)
    ensures multiset([s[0]] + rest) == multiset(s) + multiset{x}
  {
    assert multiset(s) == multiset{s[0]} + multiset(s[1..]) by {
      assert s == [s[0]] + s[1..];
    }
    ConsSorted(s[0], rest, cmp);
  }

  /** A sorted sequence stays sorted without its head. */
  lemma TailSorted<T>(s: seq<T>, cmp: (T, T) -> int)
    requires s != [] && AdjacentSorted(s, cmp)
    ensures AdjacentSorted(s[1..], cmp)
  {
    var tail := s[1..];
    forall i | 0 <= i < |tail| - 1
      ensures cmp(tail[i], tail[i + 1]) <= 0
    {
      assert tail[i] == s[i + 1] && tail[i + 1] == s[i + 2];
    }
  }

  /** An element that compares `<= 0` with the head of a sorted sequence can go in front. */
  lemma ConsSorted<T>(h: T, s: seq<T>, cmp: (T, T) -> int)
    requires s != [] && AdjacentSorted(s, cmp) && cmp(h, s[0]) <= 0
    ensures AdjacentSorted([h] + s, cmp)
  {
    var r := [h] + s;
    forall i | 0 <= i < |r| - 1
      ensures cmp(r[i], r[i + 1]) <= 0
    {
      if i > 0 {
        assert r[i] == s[i - 1] && r[i + 1] == s[i];
      }
    }
  }

  /** `s.slice().sort(cmp)`: a sorted permutation of `s`. */
  function SortBy<T(!new)>(s: seq<T>, cmp: (T, T) -> int): (r: seq<T>)
    requires Antisymmetric(cmp)
    ensures AdjacentSorted(r, cmp)
    ensures multiset(r) == multiset(s)
    ensures |r| == |s|
  {
    if s == [] then []
    else
      assert s == s[..|s| - 1] + [s[|s| - 1]];
      Insert(SortBy(s[..|s| - 1], cmp), s[|s| - 1], cmp)
  }

  /** Comparator of `.sort((a, b) => key(b) - key(a))`: descending by an integer key. */
  function Descending<T>(key: T -> int): (T, T) -> int {
    (a: T, b: T) => key(b) - key(a)
  }

  /** Comparator of `.sort((a, b) => key(a) - key(b))`: ascending by an integer key. */
  function Ascending<T>(key: T -> int): (T, T) -> int {
    (a: T, b: T) => key(a) - key(b)
  }

  lemma KeyComparatorsAntisymmetric<T(!new)>(key: T -> int)
    ensures Antisymmetric(Descending(key)) && Antisymmetric(Ascending(key))
  {
  }

  /** Sorting by a descending key orders the whole sequence, not just neighbours. */
  lemma {:induction false} DescendingSortedGlobally<T>(s: seq<T>, key: T -> int)
    requires AdjacentSorted(s, Descending(key))
    ensures forall i, j :: 0 <= i <= j < |s| ==> key(s[i]) >= key(s[j])
  {
    if |s| > 1 {
      DescendingSortedGlobally(s[1..], key);
      assert forall j :: 1 <= j < |s| ==> s[j] == s[1..][j - 1];
      assert key(s[0]) >= key(s[1]);
    }
  }

  lemma {:induction false} AscendingSortedGlobally<T>(s: seq<T>, key: T -> int)
    requires AdjacentSorted(s, Ascending(key))
    ensures forall i, j :: 0 <= i <= j < |s| ==> key(s[i]) <= key(s[j])
  {
    if |s| > 1 {
      AscendingSortedGlobally(s[1..], key);
      assert forall j :: 1 <= j < |s| ==> s[j] == s[1..][j - 1];
      assert key(s[0]) <= key(s[1]);
    }
  }

  /** No two elements share a key. */
  predicate UniqueBy<T, K(==)>(s: seq<T>, key: T -> K) {
    forall i, j :: 0 <= i < j < |s| ==> key(s[i]) != key(s[j])
  }

  lemma {:induction false} InsertUniqueBy<T(!new), K>(s: seq<T>, x: T, cmp: (T, T) -> int, key: T -> K)
    requires Antisymmetric(cmp) && AdjacentSorted(s, cmp) && UniqueBy(s, key)
    requires forall y :: y in s ==> key(y) != key(x)
    ensures UniqueBy(Insert(s, x, cmp), key)
  {
    if s != [] && cmp(s[0], x) <= 0 {
      var tail := s[1..];
      TailSorted(s, cmp);
      UniqueByTail(s, key);
      InsertUniqueBy(tail, x, cmp, key);
      var rest := Insert(tail, x, cmp);
      forall y | y in rest
        ensures key(y) != key(s[0])
      {
        assert y in multiset(rest);
        if y != x {
          assert y in tail;
        }
      }
      assert Insert(s, x, cmp) == [s[0]] + rest;
      UniqueByCons(s[0], rest, key);
    } else {
      assert Insert(s, x, cmp) == [x] + s;
      UniqueByCons(x, s, key);
    }
  }

  /** The tail of a sequence with unique keys has unique keys, none the head's. */
  lemma UniqueByTail<T, K>(s: seq<T>, key: T -> K)
    requires s != [] && UniqueBy(s, key)
    ensures UniqueBy(s[1..], key) && forall y :: y in s[1..] ==> key(y) != key(s[0])
  {
    var tail := s[1..];
    forall i, j | 0 <= i < j < |tail|
      ensures key(tail[i]) != key(tail[j])
    {
      assert tail[i] == s[i + 1] && tail[j] == s[j + 1];
    }
    forall y | y in tail
      ensures key(y) != key(s[0])
    {
      var k :| 0 <= k < |tail| && tail[k] == y;
      assert s[k + 1] == y;
    }
  }

  /** An element whose key no element of `s` has can go in front of `s`. */
  lemma UniqueByCons<T, K>(h: T, s: seq<T>, key: T -> K)
    requires UniqueBy(s, key) && forall y :: y in s ==> key(y) != key(h)
    ensures UniqueBy([h] + s, key)
  {
    var r := [h] + s;
    forall i, j | 0 <= i < j < |r|
      ensures key(r[i]) != key(r[j])
    {
      assert r[j] == s[j - 1];
      if i > 0 {
        assert r[i] == s[i - 1];
      }
    }
  }

  /** Sorting keeps keys unique: a sort only reorders. */
  lemma {:induction false} SortByUniqueBy<T(!new), K>(s: seq<T>, cmp: (T, T) -> int, key: T -> K)
    requires Antisymmetric(cmp) && UniqueBy(s, key)
    ensures UniqueBy(SortBy(s, cmp), key)
  {
    if s != [] {
      var front := s[..|s| - 1];
      var last := s[|s| - 1];
      SortByUniqueBy(front, cmp, key);
      var sorted := SortBy(front, cmp);
      forall y | y in sorted
        ensures key(y) != key(last)
      {
        assert y in multiset(front);
        var k :| 0 <= k < |front| && front[k] == y;
        assert s[k] == y;
      }
      InsertUniqueBy(sorted, last, cmp, key);
    }
  }

  /**
   * A comparator that orders neighbours by the difference of an integer key
   * orders the whole sequence by that key.
   */
  lemma AscendingByKey<T>(s: seq<T>, cmp: (T, T) -> int, key: T -> int)
    requires AdjacentSorted(s, cmp)
    requires forall i :: 0 <= i < |s| - 1 ==> cmp(s[i], s[i + 1]) == key(s[i]) - key(s[i + 1])
    ensures forall i, j :: 0 <= i <= j < |s| ==> key(s[i]) <= key(s[j])
  {
    assert AdjacentSorted(s, Ascending(key));
    AscendingSortedGlobally(s, key);
  }

  /**
   * `.sort(descending by key).slice(0, k)`: the result is in non-increasing key
   * order and no element left out has a larger key than one kept.
   */
  lemma TopByKey<T(!new)>(s: seq<T>, key: T -> int, k: nat)
    ensures var sorted := SortBy(s, Descending(key));
            var top := Take(sorted, k);
            && multiset(sorted) == multiset(s)
            && (forall i, j :: 0 <= i <= j < |top| ==> key(top[i]) >= key(top[j]))
            && (forall i, j :: 0 <= i < |top| <= j < |sorted| ==> key(sorted[i]) >= key(sorted[j]))
  {
    KeyComparatorsAntisymmetric(key);
    DescendingSortedGlobally(SortBy(s, Descending(key)), key);
  }

  /**
   * What `.sort(descending by key).slice(0, k)` keeps: at most `k` elements
   * of `s`, all of them when there are no more than `k`, largest key
   * first, and no element left out has a larger key than one kept.
   */
  lemma TopByKeyMembers<T(!new)>(s: seq<T>, key: T -> int, k: nat)
    ensures var top := Take(SortBy(s, Descending(key)), k);
            && |top| <= k
            && (|s| <= k ==> |top| == |s|)
            && (forall x :: x in top ==> x in s)
            && (forall x :: x in s && x !in top ==> forall i :: 0 <= i < |top| ==> key(x) <= key(top[i]))
            && (forall i, j :: 0 <= i <= j < |top| ==> key(top[i]) >= key(top[j]))
  {
    KeyComparatorsAntisymmetric(key);
    TopFromInput(s, key, k);
    TopLeftOut(s, key, k);
    TopByKey(s, key, k);
  }

  /** Every element kept comes from the input. */
  lemma TopFromInput<T(!new)>(s: seq<T>, key: T -> int, k: nat)
    ensures var top := Take(SortBy(s, Descending(key)), k);
            forall x :: x in top ==> x in s
  {
    KeyComparatorsAntisymmetric(key);
    var sorted := SortBy(s, Descending(key));
    var top := Take(sorted, k);
    forall x | x in top
      ensures x in s
    {
      var i :| 0 <= i < |top| && top[i] == x;
      assert sorted[i] == x;
      assert x in multiset(sorted);
    }
  }

  /** No element left out has a larger key than one kept. */
  lemma TopLeftOut<T(!new)>(s: seq<T>, key: T -> int, k: nat)
    ensures var top := Take(SortBy(s, Descending(key)), k);
            forall x :: x in s && x !in top ==> forall i :: 0 <= i < |top| ==> key(x) <= key(top[i])
  {
    KeyComparatorsAntisymmetric(key);
    var sorted := SortBy(s, Descending(key));
    var top := Take(sorted, k);
    assert forall i, j :: 0 <= i < |top| <= j < |sorted| ==> key(top[i]) >= key(sorted[j]) by {
      TopByKey(s, key, k);
      forall i, j | 0 <= i < |top| <= j < |sorted|
        ensures key(top[i]) >= key(sorted[j])
      {
        assert top[i] == sorted[i];
      }
    }
    forall x | x in s && x !in top
      ensures forall i :: 0 <= i < |top| ==> key(x) <= key(top[i])
    {
      assert x in multiset(sorted);
      var j :| 0 <= j < |sorted| && sorted[j] == x;
      assert j >= |top|;
    }
  }

  function Identity(x: int): int {
    x
  }

  /** Sorting distinct numbers in ascending order makes them rise strictly and keeps them all. */
  lemma SortedDistinctInts(s: seq<int>)
    requires NoDuplicates(s)
    ensures var r := SortBy(s, Ascending(Identity));
            && (forall i, j :: 0 <= i < j < |r| ==> r[i] < r[j])
            && (forall x :: x in r <==> x in s)
  {
    KeyComparatorsAntisymmetric(Identity);
    var r := SortBy(s, Ascending(Identity));
    AscendingSortedGlobally(r, Identity);
    assert UniqueBy(s, Identity);
    SortByUniqueBy(s, Ascending(Identity), Identity);
    forall i, j | 0 <= i < j < |r|
      ensures r[i] < r[j]
    {
      assert Identity(r[i]) <= Identity(r[j]) && Identity(r[i]) != Identity(r[j]);
    }
    forall x
      ensures x in r <==> x in s
    {
      assert x in r <==> x in multiset(r);
    }
  }
}
