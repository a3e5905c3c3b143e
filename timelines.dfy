/**
 * The day-by-day cumulative timelines shared by `computeTimeline` and
 * `computeLiveTimeline` in src/core/insightsEngine.ts: items are grouped by
 * the day they fall on, the days are sorted, and each day gets the running
 * totals of two weights.
 *
 * Timestamps are milliseconds since the epoch and a day is the
 * `YYYY-MM-DD` prefix of `toISOString`, which is the day number below; the
 * text order of those prefixes is the numeric order of day numbers for the
 * years 0 to 9999.
 */
module Timelines {
  import opened Common
  import Sorting

  const DAY_MS: int := 24 * 60 * 60 * 1000

  /** The day of `new Date(ms).toISOString().split('T')[0]`, as a day number. */
  function DayOf(ms: int): int {
    ms / DAY_MS
  }

  /** The days on which the items fall, in the order a `Map` keyed by day first meets them. */
  function DistinctDays<T>(items: seq<T>, day: T -> int): (r: seq<int>)
    ensures NoDuplicates(r)
  {
    if items == [] then [] else Adjoin(DistinctDays(items[..|items| - 1], day), day(items[|items| - 1]))
  }

  lemma {:induction false} DistinctDaysMembers<T>(items: seq<T>, day: T -> int, d: int)
    ensures d in DistinctDays(items, day) <==> exists i :: 0 <= i < |items| && day(items[i]) == d
  {
    if items != [] {
      var front := items[..|items| - 1];
      DistinctDaysMembers(front, day, d);
      assert forall i :: 0 <= i < |front| ==> front[i] == items[i];
    }
  }

  /** `Array.from(dayMap.entries()).sort(...)` by day: the distinct days, earliest first. */
  function SortedDays<T>(items: seq<T>, day: T -> int): seq<int> {
    Sorting.KeyComparatorsAntisymmetric(Sorting.Identity);
    Sorting.SortBy(DistinctDays(items, day), Sorting.Ascending(Sorting.Identity))
  }

  /** The sorted days rise strictly, and the day of every item is among them. */
  lemma SortedDaysCover<T>(items: seq<T>, day: T -> int)
    ensures var days := SortedDays(items, day);
            && (forall i, j :: 0 <= i < j < |days| ==> days[i] < days[j])
            && (forall i :: 0 <= i < |items| ==> day(items[i]) in days)
  {
    var days := SortedDays(items, day);
    Sorting.SortedDistinctInts(DistinctDays(items, day));
    forall i | 0 <= i < |items|
      ensures day(items[i]) in days
    {
      DistinctDaysMembers(items, day, day(items[i]));
    }
  }

  /** Every sorted day is the day of some item. */
  lemma SortedDaysFromItems<T>(items: seq<T>, day: T -> int, k: nat)
    requires k < |SortedDays(items, day)|
    ensures exists i :: 0 <= i < |items| && day(items[i]) == SortedDays(items, day)[k]
  {
    var days := SortedDays(items, day);
    Sorting.KeyComparatorsAntisymmetric(Sorting.Identity);
    assert days[k] in multiset(DistinctDays(items, day));
    DistinctDaysMembers(items, day, days[k]);
  }

  /** Total weight of the items that fall on day `d`. */
  function DaySum<T>(items: seq<T>, day: T -> int, w: T -> nat, d: int): nat {
    if items == [] then 0
    else DaySum(items[..|items| - 1], day, w, d) + (if day(items[|items| - 1]) == d then w(items[|items| - 1]) else 0)
  }

  /** Total weight of the items that fall on day `d` or before. */
  function SumUpTo<T>(items: seq<T>, day: T -> int, w: T -> nat, d: int): nat {
    if items == [] then 0
    else SumUpTo(items[..|items| - 1], day, w, d) + (if day(items[|items| - 1]) <= d then w(items[|items| - 1]) else 0)
  }

  lemma DaySumSnoc<T>(items: seq<T>, x: T, day: T -> int, w: T -> nat, d: int)
    ensures DaySum(items + [x], day, w, d) == DaySum(items, day, w, d) + (if day(x) == d then w(x) else 0)
  {
    assert (items + [x])[..|items|] == items;
  }

  lemma {:induction false} DaySumNone<T>(items: seq<T>, day: T -> int, w: T -> nat, d: int)
    requires forall i :: 0 <= i < |items| ==> day(items[i]) != d
    ensures DaySum(items, day, w, d) == 0
  {
    if items != [] {
      DaySumNone(items[..|items| - 1], day, w, d);
    }
  }

  /** Moving the bound from `prev` to the next day with items adds that day's weight. */
  lemma {:induction false} SumUpToStep<T>(items: seq<T>, day: T -> int, w: T -> nat, prev: int, d: int)
    requires prev < d
    requires forall i :: 0 <= i < |items| ==> !(prev < day(items[i]) < d)
    ensures SumUpTo(items, day, w, d) == SumUpTo(items, day, w, prev) + DaySum(items, day, w, d)
  {
    if items != [] {
      SumUpToStep(items[..|items| - 1], day, w, prev, d);
    }
  }

  /** Up to the earliest day with items, only that day counts. */
  lemma {:induction false} SumUpToFirst<T>(items: seq<T>, day: T -> int, w: T -> nat, d: int)
    requires forall i :: 0 <= i < |items| ==> day(items[i]) >= d
    ensures SumUpTo(items, day, w, d) == DaySum(items, day, w, d)
  {
    if items != [] {
      SumUpToFirst(items[..|items| - 1], day, w, d);
    }
  }

  /** A later bound never counts less. */
  lemma {:induction false} SumUpToMonotone<T>(items: seq<T>, day: T -> int, w: T -> nat, d1: int, d2: int)
    requires d1 <= d2
    ensures SumUpTo(items, day, w, d1) <= SumUpTo(items, day, w, d2)
  {
    if items != [] {
      SumUpToMonotone(items[..|items| - 1], day, w, d1, d2);
    }
  }

  /** A bound past every item counts every item. */
  lemma {:induction false} SumUpToAll<T>(items: seq<T>, day: T -> int, w: T -> nat, d: int)
    requires forall i :: 0 <= i < |items| ==> day(items[i]) <= d
    ensures SumUpTo(items, day, w, d) == SumBy(items, (x: T) => w(x) as int)
  {
    if items != [] {
      SumUpToAll(items[..|items| - 1], day, w, d);
    }
  }

  /** One point of a timeline: the running totals up to and including `day`. */
  datatype Point = Point(day: int, completed: nat, failed: nat, total: nat)

  /** The point for `d`: the weights of the items up to and including that day. */
  function PointOn<T>(items: seq<T>, day: T -> int, done: T -> nat, failed: T -> nat, d: int): (p: Point)
    ensures p.day == d && p.total == p.completed + p.failed
  {
    var c := SumUpTo(items, day, done, d);
    var f := SumUpTo(items, day, failed, d);
    Point(d, c, f, c + f)
  }

  /** The points for the given days, in their order. */
  function PointsOn<T>(items: seq<T>, day: T -> int, done: T -> nat, failed: T -> nat, days: seq<int>): (r: seq<Point>)
    ensures |r| == |days|
  {
    if days == [] then []
    else PointsOn(items, day, done, failed, days[..|days| - 1]) + [PointOn(items, day, done, failed, days[|days| - 1])]
  }

  lemma {:induction false} PointsOnAt<T>(items: seq<T>, day: T -> int, done: T -> nat, failed: T -> nat, days: seq<int>, k: nat)
    requires k < |days|
    ensures PointsOn(items, day, done, failed, days)[k] == PointOn(items, day, done, failed, days[k])
  {
    if k < |days| - 1 {
      PointsOnAt(items, day, done, failed, days[..|days| - 1], k);
    }
  }

  /** The timeline of the items: per day with items, earliest first, the weights so far. */
  function Cumulative<T>(items: seq<T>, day: T -> int, done: T -> nat, failed: T -> nat): seq<Point> {
    PointsOn(items, day, done, failed, SortedDays(items, day))
  }

  /** The days of a timeline's points are the sorted days. */
  lemma CumulativeDayAt<T>(items: seq<T>, day: T -> int, done: T -> nat, failed: T -> nat)
    ensures var r := Cumulative(items, day, done, failed);
            var days := SortedDays(items, day);
            |r| == |days| && forall k :: 0 <= k < |r| ==> r[k].day == days[k]
  {
    forall k | 0 <= k < |SortedDays(items, day)|
      ensures Cumulative(items, day, done, failed)[k].day == SortedDays(items, day)[k]
    {
      PointsOnAt(items, day, done, failed, SortedDays(items, day), k);
    }
  }

  /** There are days exactly when there are items. */
  lemma SortedDaysEmpty<T>(items: seq<T>, day: T -> int)
    ensures SortedDays(items, day) == [] <==> items == []
  {
    if items != [] {
      DistinctDaysMembers(items, day, day(items[0]));
    }
  }

  /** A timeline has points exactly when there are items. */
  lemma CumulativeEmpty<T>(items: seq<T>, day: T -> int, done: T -> nat, failed: T -> nat)
    ensures Cumulative(items, day, done, failed) == [] <==> items == []
  {
    SortedDaysEmpty(items, day);
  }

  /** The points of a timeline are in strictly increasing day order. */
  lemma CumulativeOrdered<T>(items: seq<T>, day: T -> int, done: T -> nat, failed: T -> nat)
    ensures var r := Cumulative(items, day, done, failed);
            forall i, j :: 0 <= i < j < |r| ==> r[i].day < r[j].day
  {
    CumulativeDayAt(items, day, done, failed);
    SortedDaysCover(items, day);
  }

  /** Every item's day has a point. */
  lemma CumulativeCoversItems<T>(items: seq<T>, day: T -> int, done: T -> nat, failed: T -> nat)
    ensures var r := Cumulative(items, day, done, failed);
            forall i :: 0 <= i < |items| ==> exists k :: 0 <= k < |r| && r[k].day == day(items[i])
  {
    var r := Cumulative(items, day, done, failed);
    var days := SortedDays(items, day);
    CumulativeDayAt(items, day, done, failed);
    SortedDaysCover(items, day);
    forall i | 0 <= i < |items|
      ensures exists k :: 0 <= k < |r| && r[k].day == day(items[i])
    {
      var k :| 0 <= k < |days| && days[k] == day(items[i]);
      assert r[k].day == days[k];
    }
  }

  /** Every point is the day of some item. */
  lemma CumulativeFromItems<T>(items: seq<T>, day: T -> int, done: T -> nat, failed: T -> nat)
    ensures var r := Cumulative(items, day, done, failed);
            forall k :: 0 <= k < |r| ==> exists i :: 0 <= i < |items| && day(items[i]) == r[k].day
  {
    var r := Cumulative(items, day, done, failed);
    CumulativeDayAt(items, day, done, failed);
    forall k | 0 <= k < |r|
      ensures exists i :: 0 <= i < |items| && day(items[i]) == r[k].day
    {
      SortedDaysFromItems(items, day, k);
    }
  }

  /** The point of a timeline for its `k`-th day. */
  lemma CumulativeAt<T>(items: seq<T>, day: T -> int, done: T -> nat, failed: T -> nat, k: nat)
    requires k < |SortedDays(items, day)|
    ensures Cumulative(items, day, done, failed)[k] == PointOn(items, day, done, failed, SortedDays(items, day)[k])
  {
    PointsOnAt(items, day, done, failed, SortedDays(items, day), k);
  }

  /** The running totals of a timeline never decrease, and `total` is their sum. */
  lemma CumulativeMonotone<T>(items: seq<T>, day: T -> int, done: T -> nat, failed: T -> nat)
    ensures var r := Cumulative(items, day, done, failed);
            && (forall i, j :: 0 <= i <= j < |r| ==> r[i].completed <= r[j].completed && r[i].failed <= r[j].failed)
            && (forall k :: 0 <= k < |r| ==> r[k].total == r[k].completed + r[k].failed)
  {
    var r := Cumulative(items, day, done, failed);
    var days := SortedDays(items, day);
    SortedDaysCover(items, day);
    forall i, j | 0 <= i <= j < |r|
      ensures r[i].completed <= r[j].completed && r[i].failed <= r[j].failed
    {
      CumulativeAt(items, day, done, failed, i);
      CumulativeAt(items, day, done, failed, j);
      SumUpToMonotone(items, day, done, days[i], days[j]);
      SumUpToMonotone(items, day, failed, days[i], days[j]);
    }
    forall k | 0 <= k < |r|
      ensures r[k].total == r[k].completed + r[k].failed
    {
      CumulativeAt(items, day, done, failed, k);
    }
  }

  /** The last point of a timeline holds the weight of every item. */
  lemma CumulativeLast<T>(items: seq<T>, day: T -> int, done: T -> nat, failed: T -> nat)
    ensures var r := Cumulative(items, day, done, failed);
            r != [] ==> r[|r| - 1].completed == SumBy(items, (x: T) => done(x) as int)
                        && r[|r| - 1].failed == SumBy(items, (x: T) => failed(x) as int)
  {
    var r := Cumulative(items, day, done, failed);
    var days := SortedDays(items, day);
    if r != [] {
      var last := days[|days| - 1];
      assert forall i :: 0 <= i < |items| ==> day(items[i]) <= last by {
        SortedDaysCover(items, day);
      }
      CumulativeAt(items, day, done, failed, |r| - 1);
      SumUpToAll(items, day, done, last);
      SumUpToAll(items, day, failed, last);
    }
  }

  /**
   * The first loop of `computeTimeline` and `computeLiveTimeline`: the days
   * in the order first met, and for each day the two weights summed.
   */
  method GroupByDay<T>(items: seq<T>, day: T -> int, done: T -> nat, failed: T -> nat)
    returns (days: seq<int>, sums: map<int, (nat, nat)>)
    ensures days == DistinctDays(items, day)
    ensures forall d :: d in sums <==> d in days
    ensures forall d :: d in sums ==> sums[d] == (DaySum(items, day, done, d), DaySum(items, day, failed, d))
  {
    days := [];
    sums := map[];
    for i := 0 to |items|
      invariant days == DistinctDays(items[..i], day)
      invariant forall d :: d in sums <==> d in days
      invariant forall d :: d in sums ==> sums[d] == (DaySum(items[..i], day, done, d), DaySum(items[..i], day, failed, d))
    {
      var x := items[i];
      var dx := day(x);
      assert items[..i + 1] == items[..i] + [x];
      assert items[..i + 1][..i] == items[..i];
      if dx !in sums {
        DistinctDaysMembers(items[..i], day, dx);
        DaySumNone(items[..i], day, done, dx);
        DaySumNone(items[..i], day, failed, dx);
        sums := sums[dx := (0, 0)];
        days := days + [dx];
      }
      sums := sums[dx := (sums[dx].0 + done(x), sums[dx].1 + failed(x))];
      forall d | d in sums
        ensures sums[d] == (DaySum(items[..i + 1], day, done, d), DaySum(items[..i + 1], day, failed, d))
      {
        DaySumSnoc(items[..i], x, day, done, d);
        DaySumSnoc(items[..i], x, day, failed, d);
      }
    }
    assert items[..|items|] == items;
  }

  /** From one sorted day to the next, the running total grows by the next day's weight. */
  lemma {:induction false} SumUpToNext<T>(items: seq<T>, day: T -> int, w: T -> nat, sorted: seq<int>, i: nat)
    requires i < |sorted|
    requires forall a, b :: 0 <= a < b < |sorted| ==> sorted[a] < sorted[b]
    requires forall j :: 0 <= j < |items| ==> day(items[j]) in sorted
    ensures SumUpTo(items, day, w, sorted[i]) ==
              (if i == 0 then 0 else SumUpTo(items, day, w, sorted[i - 1])) + DaySum(items, day, w, sorted[i])
  {
    if i == 0 {
      SumUpToFirst(items, day, w, sorted[0]);
    } else {
      SumUpToStep(items, day, w, sorted[i - 1], sorted[i]);
    }
  }

  lemma PointsOnSnoc<T>(items: seq<T>, day: T -> int, done: T -> nat, failed: T -> nat, days: seq<int>, i: nat)
    requires i < |days|
    ensures PointsOn(items, day, done, failed, days[..i + 1]) ==
              PointsOn(items, day, done, failed, days[..i]) + [PointOn(items, day, done, failed, days[i])]
  {
    assert days[..i + 1][..i] == days[..i];
  }

  /** One step of `Accumulate`: adding the next day's weights gives that day's point. */
  lemma AccumulateStep<T>(items: seq<T>, day: T -> int, done: T -> nat, failed: T -> nat, sorted: seq<int>, i: nat,
                          completed: nat, failedSoFar: nat, c: nat, f: nat)
    requires sorted == SortedDays(items, day) && i < |sorted|
    requires completed == (if i == 0 then 0 else SumUpTo(items, day, done, sorted[i - 1]))
    requires failedSoFar == (if i == 0 then 0 else SumUpTo(items, day, failed, sorted[i - 1]))
    requires c == completed + DaySum(items, day, done, sorted[i])
    requires f == failedSoFar + DaySum(items, day, failed, sorted[i])
    ensures c == SumUpTo(items, day, done, sorted[i]) && f == SumUpTo(items, day, failed, sorted[i])
    ensures PointsOn(items, day, done, failed, sorted[..i + 1]) ==
              PointsOn(items, day, done, failed, sorted[..i]) + [Point(sorted[i], c, f, c + f)]
  {
    assert c == SumUpTo(items, day, done, sorted[i]) && f == SumUpTo(items, day, failed, sorted[i]) by {
      SortedDaysCover(items, day);
      SumUpToNext(items, day, done, sorted, i);
      SumUpToNext(items, day, failed, sorted, i);
    }
    assert PointOn(items, day, done, failed, sorted[i]) == Point(sorted[i], c, f, c + f);
    PointsOnSnoc(items, day, done, failed, sorted, i);
  }

  /** The `sorted.map(...)` of the timelines: running totals over the days in order. */
  method Accumulate<T>(items: seq<T>, day: T -> int, done: T -> nat, failed: T -> nat,
                       sorted: seq<int>, sums: map<int, (nat, nat)>)
    returns (points: seq<Point>)
    requires sorted == SortedDays(items, day)
    requires forall d :: d in sorted ==> d in sums && sums[d] == (DaySum(items, day, done, d), DaySum(items, day, failed, d))
    ensures points == Cumulative(items, day, done, failed)
  {
    points := [];
    var completed: nat := 0;
    var failedSoFar: nat := 0;
    for i := 0 to |sorted|
      invariant points == PointsOn(items, day, done, failed, sorted[..i])
      invariant completed == (if i == 0 then 0 else SumUpTo(items, day, done, sorted[i - 1]))
      invariant failedSoFar == (if i == 0 then 0 else SumUpTo(items, day, failed, sorted[i - 1]))
    {
      var d := sorted[i];
      var c := completed + sums[d].0;
      var f := failedSoFar + sums[d].1;
      AccumulateStep(items, day, done, failed, sorted, i, completed, failedSoFar, c, f);
      ghost var before := points;
      points := points + [Point(d, c, f, c + f)];
      assert before == PointsOn(items, day, done, failed, sorted[..i]);
      assert points == before + [Point(sorted[i], c, f, c + f)];
      assert points == PointsOn(items, day, done, failed, sorted[..i + 1]);
      completed := c;
      failedSoFar := f;
    }
    assert sorted[..|sorted|] == sorted;
  }
}
