/**
 * The plan-mode aggregates of src/core/insightsEngine.ts: summary counts
 * and rates, per-slice statistics, the day-by-day timeline of the
 * execution log, and the tasks most depended upon.
 *
 * Rates are exact `real` quotients.
 */
module Insights {
  import opened Common
  import Sorting
  import opened Timelines

  // ---- plan tasks ------------------------------------------------------------

  const DONE: string := "DONE"
  const FAILED: string := "FAILED"
  const BLOCKED: string := "BLOCKED"

  /** The fields of a `ComputedTask` that the insights read. */
  datatype PlanTask = PlanTask(id: string, slice: string, status: string, dependsOn: seq<string>, description: string)

  /** The fields of a `LogEvent` that the insights read; `timestamp` already parsed. */
  datatype LogEvent = LogEvent(timestamp: int, status: string)

  function HasStatus(st: string): PlanTask -> bool {
    (t: PlanTask) => t.status == st
  }

  /** `tasks.filter((t) => t.status === st).length`. */
  function CountStatus(tasks: seq<PlanTask>, st: string): nat {
    Count(tasks, HasStatus(st))
  }

  /** Three different statuses are counted from disjoint sets of tasks. */
  lemma {:induction false} StatusCountsBounded(tasks: seq<PlanTask>, a: string, b: string, c: string)
    requires a != b && b != c && a != c
    ensures CountStatus(tasks, a) + CountStatus(tasks, b) + CountStatus(tasks, c) <= |tasks|
  {
    var ab := (t: PlanTask) => t.status == a || t.status == b;
    var abc := (t: PlanTask) => t.status == a || t.status == b || t.status == c;
    CountDisjoint(tasks, HasStatus(a), HasStatus(b), ab);
    CountDisjoint(tasks, ab, HasStatus(c), abc);
  }

  /** The DONE, FAILED and BLOCKED tasks of a plan never outnumber its tasks. */
  lemma PlanCountsBounded(tasks: seq<PlanTask>)
    ensures CountStatus(tasks, DONE) + CountStatus(tasks, FAILED) + CountStatus(tasks, BLOCKED) <= |tasks|
  {
    assert DONE[0] != FAILED[0] && FAILED[0] != BLOCKED[0] && DONE[0] != BLOCKED[0];
    StatusCountsBounded(tasks, DONE, FAILED, BLOCKED);
  }

  /** `b > 0 ? a / b : 0`. */
  function Ratio(a: nat, b: nat): (r: real)
    ensures b == 0 ==> r == 0.0
    ensures 0.0 <= r
    ensures a <= b ==> r <= 1.0
    ensures b > 0 ==> r * (b as real) == a as real
  {
    if b > 0 then (a as real) / (b as real) else 0.0
  }

  datatype PlanSummary = PlanSummary(totalTasks: nat, completedTasks: nat, failedTasks: nat, blockedTasks: nat,
                                     successRate: real, completionRate: real)

  /**
   * The `summary` of `computePlanInsights`: the DONE, FAILED and BLOCKED
   * counts, which together never exceed the number of tasks, the share of
   * finished tasks that succeeded and the share of all tasks done.
   */
  function Summary(tasks: seq<PlanTask>): (r: PlanSummary)
    ensures r.totalTasks == |tasks|
    ensures r.completedTasks == CountStatus(tasks, DONE) && r.failedTasks == CountStatus(tasks, FAILED)
            && r.blockedTasks == CountStatus(tasks, BLOCKED)
    ensures r.completedTasks + r.failedTasks + r.blockedTasks <= r.totalTasks
    ensures 0.0 <= r.successRate <= 1.0 && 0.0 <= r.completionRate <= 1.0
    ensures r.successRate == Ratio(r.completedTasks, r.completedTasks + r.failedTasks)
    ensures r.completionRate == Ratio(r.completedTasks, r.totalTasks)
  {
    PlanCountsBounded(tasks);
    var completed := CountStatus(tasks, DONE);
    var failed := CountStatus(tasks, FAILED);
    PlanSummary(|tasks|, completed, failed, CountStatus(tasks, BLOCKED),
                Ratio(completed, completed + failed), Ratio(completed, |tasks|))
  }

  // ---- slices ------------------------------------------------------------------

  function SliceIs(name: string): PlanTask -> bool {
    (t: PlanTask) => t.slice == name
  }

  datatype SliceStat = SliceStat(name: string, total: nat, completed: nat, failed: nat, blocked: nat, progress: real)

  /** One entry of `sliceStats`: counts over the slice's tasks and the percentage done. */
  function StatOf(name: string, ts: seq<PlanTask>): (r: SliceStat)
    ensures r.name == name && r.total == |ts|
    ensures r.completed == CountStatus(ts, DONE) && r.failed == CountStatus(ts, FAILED)
            && r.blocked == CountStatus(ts, BLOCKED)
    ensures r.completed + r.failed + r.blocked <= r.total
    ensures 0.0 <= r.progress <= 100.0
    ensures r.total > 0 ==> r.progress * (r.total as real) == (r.completed as real) * 100.0
  {
    StatusCountsBounded(ts, DONE, FAILED, BLOCKED);
    var completed := CountStatus(ts, DONE);
    SliceStat(name, |ts|, completed, CountStatus(ts, FAILED), CountStatus(ts, BLOCKED), Ratio(completed, |ts|) * 100.0)
  }

  /**
   * The first loop of the slice statistics: the slice names in the order
   * `sliceMap` first sees them, and each slice's tasks in their order.
   */
  method GroupSlices(tasks: seq<PlanTask>) returns (names: seq<string>, groups: map<string, seq<PlanTask>>)
    ensures NoDuplicates(names)
    ensures forall n :: n in groups <==> n in names
    ensures forall n :: n in names <==> exists t :: t in tasks && t.slice == n
    ensures forall n :: n in groups ==> groups[n] == Filter(tasks, SliceIs(n))
  {
    names := [];
    groups := map[];
    ghost var seenAt: map<string, nat> := map[];
    for i := 0 to |tasks|
      invariant Grouped(tasks, i, names, groups, seenAt)
    {
      var t := tasks[i];
      if t.slice !in groups {
        GroupStepNew(tasks, i, names, groups, seenAt);
        groups := groups[t.slice := []];
        names := names + [t.slice];
        seenAt := seenAt[t.slice := i];
      } else {
        GroupStepSeen(tasks, i, names, groups, seenAt);
      }
      groups := groups[t.slice := groups[t.slice] + [t]];
    }
    GroupedAll(tasks, names, groups, seenAt);
  }

  /**
   * The state of the grouping loop after the first `i` tasks: `names` holds
   * each slice seen once (`seenAt` records where it was first seen) and
   * `groups` holds each slice's tasks so far.
   */
  ghost predicate Grouped(tasks: seq<PlanTask>, i: nat, names: seq<string>, groups: map<string, seq<PlanTask>>,
                          seenAt: map<string, nat>)
  {
    && i <= |tasks|
    && (forall n :: n in groups <==> n in names)
    && NamesSeen(tasks, i, names, seenAt)
    && GroupsSoFar(tasks, i, groups)
  }

  ghost predicate NamesSeen(tasks: seq<PlanTask>, i: nat, names: seq<string>, seenAt: map<string, nat>)
    requires i <= |tasks|
  {
    && NoDuplicates(names)
    && (forall j :: 0 <= j < i ==> tasks[j].slice in names)
    && (forall n :: n in names ==> n in seenAt && seenAt[n] < i && tasks[seenAt[n]].slice == n)
  }

  ghost predicate GroupsSoFar(tasks: seq<PlanTask>, i: nat, groups: map<string, seq<PlanTask>>)
    requires i <= |tasks|
  {
    forall n :: n in groups ==> groups[n] == Filter(tasks[..i], SliceIs(n))
  }

  /** A turn of the grouping loop on a slice not seen before keeps its state. */
  lemma GroupStepNew(tasks: seq<PlanTask>, i: nat, names: seq<string>, groups: map<string, seq<PlanTask>>,
                     seenAt: map<string, nat>)
    requires i < |tasks| && Grouped(tasks, i, names, groups, seenAt) && tasks[i].slice !in groups
    ensures var t := tasks[i];
            Grouped(tasks, i + 1, names + [t.slice], groups[t.slice := []][t.slice := [] + [t]], seenAt[t.slice := i])
  {
    var t := tasks[i];
    var names' := names + [t.slice];
    var groups' := groups[t.slice := []][t.slice := [] + [t]];
    assert NamesSeen(tasks, i + 1, names', seenAt[t.slice := i]) by {
      NamesStep(tasks, i, names, seenAt, true);
    }
    assert GroupsSoFar(tasks, i + 1, groups') by {
      GroupsStep(tasks, i, names, groups);
    }
    assert forall n :: n in groups' <==> n in names';
  }

  /** A turn of the grouping loop on a slice seen before keeps its state. */
  lemma GroupStepSeen(tasks: seq<PlanTask>, i: nat, names: seq<string>, groups: map<string, seq<PlanTask>>,
                      seenAt: map<string, nat>)
    requires i < |tasks| && Grouped(tasks, i, names, groups, seenAt) && tasks[i].slice in groups
    ensures var t := tasks[i];
            Grouped(tasks, i + 1, names, groups[t.slice := groups[t.slice] + [t]], seenAt)
  {
    var t := tasks[i];
    var groups' := groups[t.slice := groups[t.slice] + [t]];
    assert NamesSeen(tasks, i + 1, names, seenAt) by {
      NamesStep(tasks, i, names, seenAt, false);
    }
    assert GroupsSoFar(tasks, i + 1, groups') by {
      GroupsStep(tasks, i, names, groups);
    }
    assert forall n :: n in groups' <==> n in names;
  }

  /** A slice seen for the first time is appended to the names and recorded where it was seen. */
  lemma NamesStep(tasks: seq<PlanTask>, i: nat, names: seq<string>, seenAt: map<string, nat>, isNew: bool)
    requires i < |tasks| && NamesSeen(tasks, i, names, seenAt)
    requires isNew <==> tasks[i].slice !in names
    ensures var t := tasks[i];
            NamesSeen(tasks, i + 1, if isNew then names + [t.slice] else names, if isNew then seenAt[t.slice := i] else seenAt)
  {
    var t := tasks[i];
    var names' := if isNew then names + [t.slice] else names;
    var seenAt' := if isNew then seenAt[t.slice := i] else seenAt;
    assert NoDuplicates(names') by {
      if isNew {
        assert names' == Adjoin(names, t.slice);
      }
    }
    assert t.slice in names';
    forall j | 0 <= j < i + 1
      ensures tasks[j].slice in names'
    {
      if j < i {
        assert tasks[j].slice in names;
      }
    }
    forall n | n in names'
      ensures n in seenAt' && seenAt'[n] < i + 1 && tasks[seenAt'[n]].slice == n
    {
      if n in names {
        assert n in seenAt && seenAt'[n] == seenAt[n];
      }
    }
  }

  /** The task goes at the end of its slice's group, which starts empty when the slice is new. */
  lemma GroupsStep(tasks: seq<PlanTask>, i: nat, names: seq<string>, groups: map<string, seq<PlanTask>>)
    requires i < |tasks| && GroupsSoFar(tasks, i, groups)
    requires (forall n :: n in groups <==> n in names) && (forall j :: 0 <= j < i ==> tasks[j].slice in names)
    ensures var t := tasks[i];
            var g := if t.slice !in groups then groups[t.slice := []] else groups;
            GroupsSoFar(tasks, i + 1, g[t.slice := g[t.slice] + [t]])
  {
    var t := tasks[i];
    assert tasks[..i + 1] == tasks[..i] + [t];
    var g := if t.slice !in groups then groups[t.slice := []] else groups;
    var groups' := g[t.slice := g[t.slice] + [t]];
    assert g[t.slice] == Filter(tasks[..i], SliceIs(t.slice)) by {
      if t.slice !in groups {
        forall u | u in tasks[..i]
          ensures u.slice != t.slice
        {
          var j :| 0 <= j < i && tasks[..i][j] == u;
          assert tasks[j].slice in names;
        }
        FilterNone(tasks[..i], SliceIs(t.slice));
      }
    }
    forall n | n in groups'
      ensures groups'[n] == Filter(tasks[..i + 1], SliceIs(n))
    {
      FilterSnoc(tasks[..i], t, SliceIs(n));
      if n != t.slice {
        assert groups'[n] == groups[n];
      }
    }
  }

  /** After the last task, the grouping state is what `GroupSlices` promises. */
  lemma GroupedAll(tasks: seq<PlanTask>, names: seq<string>, groups: map<string, seq<PlanTask>>, seenAt: map<string, nat>)
    requires Grouped(tasks, |tasks|, names, groups, seenAt)
    ensures forall n :: n in names <==> exists t :: t in tasks && t.slice == n
    ensures forall n :: n in groups ==> groups[n] == Filter(tasks, SliceIs(n))
  {
    assert tasks[..|tasks|] == tasks;
    forall n
      ensures n in names <==> exists t :: t in tasks && t.slice == n
    {
      if n in names {
        assert tasks[seenAt[n]] in tasks;
      }
      if exists t :: t in tasks && t.slice == n {
        var u :| u in tasks && u.slice == n;
        var j :| 0 <= j < |tasks| && tasks[j] == u;
        assert tasks[j].slice in names;
      }
    }
  }

  /** The `sliceStats` object: one entry per slice. */
  function SliceStats(groups: map<string, seq<PlanTask>>): (r: map<string, SliceStat>)
    ensures r.Keys == groups.Keys
    ensures forall n :: n in r ==> r[n] == StatOf(n, groups[n])
  {
    map n | n in groups :: StatOf(n, groups[n])
  }

  function InSlices(names: seq<string>): PlanTask -> bool {
    (t: PlanTask) => t.slice in names
  }

  /** Summing the slice sizes over distinct names counts the tasks in any of those slices. */
  lemma {:induction false} SliceSizesSum(tasks: seq<PlanTask>, names: seq<string>)
    requires NoDuplicates(names)
    ensures SumBy(names, (n: string) => Count(tasks, SliceIs(n))) == Count(tasks, InSlices(names))
  {
    if names == [] {
      FilterNone(tasks, InSlices(names));
    } else {
      var front := names[..|names| - 1];
      var n := names[|names| - 1];
      SliceSizesSum(tasks, front);
      assert names == front + [n];
      assert n !in front;
      CountDisjoint(tasks, InSlices(front), SliceIs(n), InSlices(names));
    }
  }

  /** Each task lands in exactly one slice, so the slice totals add up to the number of tasks. */
  lemma SliceTotalsCoverTasks(tasks: seq<PlanTask>, names: seq<string>, groups: map<string, seq<PlanTask>>)
    requires NoDuplicates(names)
    requires forall n :: n in groups <==> n in names
    requires forall n :: n in names <==> exists t :: t in tasks && t.slice == n
    requires forall n :: n in groups ==> groups[n] == Filter(tasks, SliceIs(n))
    ensures SumBy(names, (n: string) => if n in SliceStats(groups) then SliceStats(groups)[n].total else 0) == |tasks|
  {
    SliceSizesSum(tasks, names);
    CountAll(tasks, InSlices(names));
    SumByCongruent(names, (n: string) => if n in SliceStats(groups) then SliceStats(groups)[n].total else 0,
                   (n: string) => Count(tasks, SliceIs(n)));
  }

  // ---- timeline ------------------------------------------------------------------

  function EventDay(e: LogEvent): int {
    DayOf(e.timestamp)
  }

  function DoneWeight(e: LogEvent): nat {
    if e.status == DONE then 1 else 0
  }

  function FailedWeight(e: LogEvent): nat {
    if e.status == FAILED then 1 else 0
  }

  /**
   * `computeTimeline`: per day with log events, earliest first, the number
   * of DONE and of FAILED events on that day or before.
   */
  method ComputeTimeline(events: seq<LogEvent>) returns (points: seq<Point>)
    ensures points == Cumulative(events, EventDay, DoneWeight, FailedWeight)
  {
    if |events| == 0 {
      return [];
    }
    var days, sums := GroupByDay(events, EventDay, DoneWeight, FailedWeight);
    Sorting.KeyComparatorsAntisymmetric(Sorting.Identity);
    var sorted := Sorting.SortBy(days, Sorting.Ascending(Sorting.Identity));
    forall d | d in sorted
      ensures d in sums
    {
      assert d in multiset(sorted);
    }
    points := Accumulate(events, EventDay, DoneWeight, FailedWeight, sorted, sums);
  }

  // ---- bottlenecks ------------------------------------------------------------------

  const TOP_BOTTLENECKS: nat := 5
  const UNKNOWN_TASK: string := "Unknown task"

  datatype Entry = Entry(id: string, count: nat)

  datatype Bottleneck = Bottleneck(taskId: string, blocksCount: nat, description: string)

  function IsValue(x: string): string -> bool {
    (y: string) => y == x
  }

  /** How many times `id` occurs across the `dependsOn` lists of the tasks. */
  function BlockCount(tasks: seq<PlanTask>, id: string): nat {
    if tasks == [] then 0
    else BlockCount(tasks[..|tasks| - 1], id) + Count(tasks[|tasks| - 1].dependsOn, IsValue(id))
  }

  /** `xs.forEach(x => set.add(x))` on an insertion-ordered set. */
  function AdjoinAll(keys: seq<string>, xs: seq<string>): seq<string> {
    if xs == [] then keys else Adjoin(AdjoinAll(keys, xs[..|xs| - 1]), xs[|xs| - 1])
  }

  lemma {:induction false} AdjoinAllMembers(keys: seq<string>, xs: seq<string>, k: string)
    ensures k in AdjoinAll(keys, xs) <==> k in keys || k in xs
    ensures NoDuplicates(keys) ==> NoDuplicates(AdjoinAll(keys, xs))
  {
    if xs != [] {
      AdjoinAllMembers(keys, xs[..|xs| - 1], k);
      assert xs == xs[..|xs| - 1] + [xs[|xs| - 1]];
    }
  }

  /** The keys of `blockCount` in insertion order: each task's id, then its dependencies. */
  function KeyOrder(tasks: seq<PlanTask>): seq<string> {
    if tasks == [] then []
    else
      var t := tasks[|tasks| - 1];
      AdjoinAll(Adjoin(KeyOrder(tasks[..|tasks| - 1]), t.id), t.dependsOn)
  }

  /** The keys are distinct, and each is the id or a dependency of some task. */
  lemma KeyOrderMembers(tasks: seq<PlanTask>, k: string)
    ensures NoDuplicates(KeyOrder(tasks))
    ensures k in KeyOrder(tasks) <==> exists i :: 0 <= i < |tasks| && (tasks[i].id == k || k in tasks[i].dependsOn)
  {
    KeyOrderDistinct(tasks);
    if k in KeyOrder(tasks) {
      KeyOrderSound(tasks, k);
    }
    if exists i :: 0 <= i < |tasks| && (tasks[i].id == k || k in tasks[i].dependsOn) {
      var i :| 0 <= i < |tasks| && (tasks[i].id == k || k in tasks[i].dependsOn);
      KeyOrderComplete(tasks, i, k);
    }
  }

  lemma {:induction false} KeyOrderDistinct(tasks: seq<PlanTask>)
    ensures NoDuplicates(KeyOrder(tasks))
  {
    if tasks != [] {
      var front := tasks[..|tasks| - 1];
      var t := tasks[|tasks| - 1];
      KeyOrderDistinct(front);
      AdjoinAllMembers(Adjoin(KeyOrder(front), t.id), t.dependsOn, t.id);
    }
  }

  /** Every key comes from some task. */
  lemma {:induction false} KeyOrderSound(tasks: seq<PlanTask>, k: string)
    requires k in KeyOrder(tasks)
    ensures exists i :: 0 <= i < |tasks| && (tasks[i].id == k || k in tasks[i].dependsOn)
  {
    var front := tasks[..|tasks| - 1];
    var t := tasks[|tasks| - 1];
    AdjoinAllMembers(Adjoin(KeyOrder(front), t.id), t.dependsOn, k);
    if k in KeyOrder(front) {
      KeyOrderSound(front, k);
      var i :| 0 <= i < |front| && (front[i].id == k || k in front[i].dependsOn);
      assert tasks[i] == front[i];
    } else {
      assert tasks[|tasks| - 1].id == k || k in tasks[|tasks| - 1].dependsOn;
    }
  }

  /** The id and every dependency of every task are keys. */
  lemma {:induction false} KeyOrderComplete(tasks: seq<PlanTask>, i: nat, k: string)
    requires i < |tasks| && (tasks[i].id == k || k in tasks[i].dependsOn)
    ensures k in KeyOrder(tasks)
  {
    var front := tasks[..|tasks| - 1];
    var t := tasks[|tasks| - 1];
    AdjoinAllMembers(Adjoin(KeyOrder(front), t.id), t.dependsOn, k);
    if i < |front| {
      assert front[i] == tasks[i];
      KeyOrderComplete(front, i, k);
    }
  }

  /** An id that is no task's dependency has a zero count. */
  lemma {:induction false} BlockCountZero(tasks: seq<PlanTask>, id: string)
    requires forall i :: 0 <= i < |tasks| ==> id !in tasks[i].dependsOn
    ensures BlockCount(tasks, id) == 0
  {
    if tasks != [] {
      var deps := tasks[|tasks| - 1].dependsOn;
      BlockCountZero(tasks[..|tasks| - 1], id);
      FilterNone(deps, IsValue(id));
    }
  }

  /** An id with a positive count is the dependency of some task. */
  lemma {:induction false} BlockCountPositive(tasks: seq<PlanTask>, id: string)
    requires BlockCount(tasks, id) > 0
    ensures exists i :: 0 <= i < |tasks| && id in tasks[i].dependsOn
  {
    var front := tasks[..|tasks| - 1];
    var deps := tasks[|tasks| - 1].dependsOn;
    if BlockCount(front, id) > 0 {
      BlockCountPositive(front, id);
      var i :| 0 <= i < |front| && id in front[i].dependsOn;
      assert tasks[i] == front[i];
    } else {
      var f := Filter(deps, IsValue(id));
      assert f[0] in f;
    }
  }

  /** The `blockCount` entries in insertion order. */
  function Entries(tasks: seq<PlanTask>): (r: seq<Entry>)
    ensures |r| == |KeyOrder(tasks)|
  {
    var keys := KeyOrder(tasks);
    seq(|keys|, k requires 0 <= k < |keys| => Entry(keys[k], BlockCount(tasks, keys[k])))
  }

  function IsPositive(e: Entry): bool {
    e.count > 0
  }

  function EntryCount(e: Entry): int {
    e.count
  }

  /** `tasks.find((t) => t.id === id)`. */
  function FindTask(tasks: seq<PlanTask>, id: string): (r: Option<PlanTask>)
    ensures r.None? <==> forall i :: 0 <= i < |tasks| ==> tasks[i].id != id
    ensures r.Some? ==> exists i :: 0 <= i < |tasks| && tasks[i] == r.value && r.value.id == id
                                    && forall j :: 0 <= j < i ==> tasks[j].id != id
  {
    if tasks == [] then None
    else if tasks[0].id == id then Some(tasks[0])
    else
      var r := FindTask(tasks[1..], id);
      if r.Some? then
        var i :| 0 <= i < |tasks[1..]| && tasks[1..][i] == r.value && r.value.id == id
                 && forall j :: 0 <= j < i ==> tasks[1..][j].id != id;
        assert tasks[i + 1] == r.value;
        r
      else
        assert forall i :: 1 <= i < |tasks| ==> tasks[i] == tasks[1..][i - 1];
        r
  }

  /** `task?.description || 'Unknown task'`. */
  function DescriptionOf(tasks: seq<PlanTask>, id: string): (r: string)
    ensures r == UNKNOWN_TASK <==> FindTask(tasks, id).None? || FindTask(tasks, id).value.description in {"", UNKNOWN_TASK}
    ensures r != UNKNOWN_TASK ==> r == FindTask(tasks, id).value.description
  {
    match FindTask(tasks, id)
    case Some(t) => if t.description != "" then t.description else UNKNOWN_TASK
    case None => UNKNOWN_TASK
  }

  /** The end of `computeBottlenecks`: positive entries, most depended upon first, the first five. */
  function TopEntries(entries: seq<Entry>): seq<Entry> {
    Sorting.KeyComparatorsAntisymmetric(EntryCount);
    Take(Sorting.SortBy(Filter(entries, IsPositive), Sorting.Descending(EntryCount)), TOP_BOTTLENECKS)
  }

  function BottlenecksOf(tasks: seq<PlanTask>): (r: seq<Bottleneck>)
    ensures |r| == |TopEntries(Entries(tasks))|
  {
    var top := TopEntries(Entries(tasks));
    seq(|top|, k requires 0 <= k < |top| => Bottleneck(top[k].id, top[k].count, DescriptionOf(tasks, top[k].id)))
  }

  /** One more dependency: its own count goes up by one and it is adjoined to the keys. */
  lemma TallyStep(keys0: seq<string>, deps: seq<string>, j: nat)
    requires j < |deps|
    ensures AdjoinAll(keys0, deps[..j + 1]) == Adjoin(AdjoinAll(keys0, deps[..j]), deps[j])
    ensures forall k :: Count(deps[..j + 1], IsValue(k)) == Count(deps[..j], IsValue(k)) + (if k == deps[j] then 1 else 0)
  {
    assert deps[..j + 1][..j] == deps[..j];
  }

  /**
   * The inner loop of `computeBottlenecks`: one more `blockCount` increment
   * per dependency, new keys added in the order met.
   */
  method TallyDeps(keys0: seq<string>, counts0: map<string, nat>, deps: seq<string>)
    returns (keys: seq<string>, counts: map<string, nat>)
    requires forall k :: k in counts0 <==> k in keys0
    ensures keys == AdjoinAll(keys0, deps)
    ensures forall k :: k in counts <==> k in keys
    ensures forall k :: k in counts ==> counts[k] == (if k in counts0 then counts0[k] else 0) + Count(deps, IsValue(k))
  {
    keys := keys0;
    counts := counts0;
    for j := 0 to |deps|
      invariant keys == AdjoinAll(keys0, deps[..j])
      invariant forall k :: k in counts <==> k in keys
      invariant forall k :: k in counts ==> counts[k] == (if k in counts0 then counts0[k] else 0) + Count(deps[..j], IsValue(k))
    {
      var dep := deps[j];
      TallyStep(keys0, deps, j);
      if dep !in counts {
        AdjoinAllMembers(keys0, deps[..j], dep);
        FilterNone(deps[..j], IsValue(dep));
      }
      var c := if dep in counts then counts[dep] else 0;
      counts := counts[dep := c + 1];
      if dep !in keys {
        keys := keys + [dep];
      }
    }
    assert deps[..|deps|] == deps;
  }

  /** One more task: its id and then its dependencies join the key order, and its dependencies add to the counts. */
  lemma BlocksStep(tasks: seq<PlanTask>, i: nat)
    requires i < |tasks|
    ensures KeyOrder(tasks[..i + 1]) == AdjoinAll(Adjoin(KeyOrder(tasks[..i]), tasks[i].id), tasks[i].dependsOn)
    ensures forall k :: BlockCount(tasks[..i + 1], k) == BlockCount(tasks[..i], k) + Count(tasks[i].dependsOn, IsValue(k))
  {
    assert tasks[..i + 1][..i] == tasks[..i];
  }

  /** An id not yet in the key order is depended upon by none of the tasks. */
  lemma UnseenNotDepended(tasks: seq<PlanTask>, k: string)
    requires k !in KeyOrder(tasks)
    ensures BlockCount(tasks, k) == 0
  {
    KeyOrderMembers(tasks, k);
    BlockCountZero(tasks, k);
  }

  /** The counting loop of `computeBottlenecks`: the `blockCount` map and its key order. */
  method CountBlocks(tasks: seq<PlanTask>) returns (keys: seq<string>, counts: map<string, nat>)
    ensures keys == KeyOrder(tasks)
    ensures forall k :: k in counts <==> k in keys
    ensures forall k :: k in counts ==> counts[k] == BlockCount(tasks, k)
  {
    keys := [];
    counts := map[];
    for i := 0 to |tasks|
      invariant keys == KeyOrder(tasks[..i])
      invariant forall k :: k in counts <==> k in keys
      invariant forall k :: k in counts ==> counts[k] == BlockCount(tasks[..i], k)
    {
      var t := tasks[i];
      BlocksStep(tasks, i);
      var before := keys;
      if t.id !in counts {
        UnseenNotDepended(tasks[..i], t.id);
        counts := counts[t.id := 0];
        keys := keys + [t.id];
      }
      assert keys == Adjoin(before, t.id);
      var mid := counts;
      keys, counts := TallyDeps(keys, counts, t.dependsOn);
      forall k | k in counts
        ensures counts[k] == BlockCount(tasks[..i + 1], k)
      {
        if k !in mid {
          UnseenNotDepended(tasks[..i], k);
        }
      }
    }
    assert tasks[..|tasks|] == tasks;
  }

  /**
   * `computeBottlenecks`: count, for every id seen as a task id or a
   * dependency, how many times it is depended upon; keep the positive
   * counts, sort them descending (ties in first-seen order), take five.
   */
  method ComputeBottlenecks(tasks: seq<PlanTask>) returns (r: seq<Bottleneck>)
    ensures r == BottlenecksOf(tasks)
  {
    var keys, counts := CountBlocks(tasks);
    var entries := seq(|keys|, k requires 0 <= k < |keys| => Entry(keys[k], counts[keys[k]]));
    assert entries == Entries(tasks) by {
      var expected := Entries(tasks);
      forall k | 0 <= k < |keys|
        ensures entries[k] == expected[k]
      {
        assert keys[k] in counts;
      }
    }
    var top := TopEntries(entries);
    r := seq(|top|, k requires 0 <= k < |top| => Bottleneck(top[k].id, top[k].count, DescriptionOf(tasks, top[k].id)));
  }

  /**
   * What the end of `computeBottlenecks` keeps of any entry list: at most
   * five entries, each a positive entry of the list, largest count first;
   * and no positive entry left out has a larger count than one kept.
   */
  lemma TopEntriesPromises(entries: seq<Entry>)
    ensures var top := TopEntries(entries);
            && |top| <= TOP_BOTTLENECKS
            && (forall e :: e in top ==> e in entries && e.count > 0)
            && (forall i, j :: 0 <= i <= j < |top| ==> top[i].count >= top[j].count)
            && (forall e :: e in entries && e.count > 0 && e !in top ==> forall i :: 0 <= i < |top| ==> e.count <= top[i].count)
  {
    var positive := Filter(entries, IsPositive);
    var top := TopEntries(entries);
    assert top == Take(Sorting.SortBy(positive, Sorting.Descending(EntryCount)), TOP_BOTTLENECKS);
    forall e | e in top
      ensures e in entries && e.count > 0
    {
      Sorting.TopByKeyMembers(positive, EntryCount, TOP_BOTTLENECKS);
      FilterKeepsExactly(entries, IsPositive, e);
    }
    forall i, j | 0 <= i <= j < |top|
      ensures top[i].count >= top[j].count
    {
      Sorting.TopByKeyMembers(positive, EntryCount, TOP_BOTTLENECKS);
      assert EntryCount(top[i]) >= EntryCount(top[j]);
    }
    forall e | e in entries && e.count > 0 && e !in top
      ensures forall i :: 0 <= i < |top| ==> e.count <= top[i].count
    {
      FilterKeepsExactly(entries, IsPositive, e);
      Sorting.TopByKeyMembers(positive, EntryCount, TOP_BOTTLENECKS);
      forall i | 0 <= i < |top|
        ensures e.count <= top[i].count
      {
        assert EntryCount(e) <= EntryCount(top[i]);
      }
    }
  }

  /** Every entry holds its id's exact count, and every id depended upon has an entry. */
  lemma EntriesExact(tasks: seq<PlanTask>)
    ensures forall e :: e in Entries(tasks) ==> e.count == BlockCount(tasks, e.id)
    ensures forall id :: BlockCount(tasks, id) > 0 ==> Entry(id, BlockCount(tasks, id)) in Entries(tasks)
  {
    var keys := KeyOrder(tasks);
    var entries := Entries(tasks);
    forall id | BlockCount(tasks, id) > 0
      ensures Entry(id, BlockCount(tasks, id)) in entries
    {
      BlockCountPositive(tasks, id);
      KeyOrderMembers(tasks, id);
      var k :| 0 <= k < |keys| && keys[k] == id;
      assert entries[k] == Entry(id, BlockCount(tasks, id));
    }
  }

  /**
   * What the bottleneck list promises: at most five entries, each for an id
   * some task depends on, with its exact count and its task's description,
   * most depended upon first.
   */
  lemma BottleneckCounts(tasks: seq<PlanTask>)
    ensures var r := BottlenecksOf(tasks);
            && |r| <= TOP_BOTTLENECKS
            && (forall i :: 0 <= i < |r| ==> 0 < r[i].blocksCount == BlockCount(tasks, r[i].taskId))
            && (forall i :: 0 <= i < |r| ==> r[i].description == DescriptionOf(tasks, r[i].taskId))
            && (forall i, j :: 0 <= i <= j < |r| ==> r[i].blocksCount >= r[j].blocksCount)
  {
    var top := TopEntries(Entries(tasks));
    var r := BottlenecksOf(tasks);
    TopEntriesPromises(Entries(tasks));
    EntriesExact(tasks);
    forall i | 0 <= i < |r|
      ensures 0 < r[i].blocksCount == BlockCount(tasks, r[i].taskId)
    {
      assert top[i] in top;
    }
  }

  /** No id left out of the bottleneck list is depended upon more than one shown. */
  lemma BottleneckLeftOut(tasks: seq<PlanTask>)
    ensures var r := BottlenecksOf(tasks);
            forall id :: BlockCount(tasks, id) > 0 && (forall i :: 0 <= i < |r| ==> r[i].taskId != id) ==>
              forall i :: 0 <= i < |r| ==> BlockCount(tasks, id) <= r[i].blocksCount
  {
    var entries := Entries(tasks);
    var top := TopEntries(entries);
    var r := BottlenecksOf(tasks);
    forall id | BlockCount(tasks, id) > 0 && (forall i :: 0 <= i < |r| ==> r[i].taskId != id)
      ensures forall i :: 0 <= i < |r| ==> BlockCount(tasks, id) <= r[i].blocksCount
    {
      var e := Entry(id, BlockCount(tasks, id));
      assert e in entries && e.count > 0 by {
        EntriesExact(tasks);
      }
      assert e !in top by {
        forall i | 0 <= i < |top|
          ensures top[i] != e
        {
          assert top[i].id == r[i].taskId;
        }
      }
      TopEntriesPromises(entries);
      forall i | 0 <= i < |r|
        ensures BlockCount(tasks, id) <= r[i].blocksCount
      {
        assert r[i].blocksCount == top[i].count;
      }
    }
  }

  // ---- plan insights ----------------------------------------------------------------

  datatype PlanInsights = PlanInsights(summary: PlanSummary, timeline: seq<Point>, sliceNames: seq<string>,
                                       sliceStats: map<string, SliceStat>, bottlenecks: seq<Bottleneck>)

  /** `computePlanInsights` without `velocity`. */
  method ComputePlanInsights(tasks: seq<PlanTask>, events: seq<LogEvent>) returns (r: PlanInsights)
    ensures r.summary == Summary(tasks)
    ensures r.timeline == Cumulative(events, EventDay, DoneWeight, FailedWeight)
    ensures NoDuplicates(r.sliceNames)
    ensures forall n :: n in r.sliceStats <==> exists t :: t in tasks && t.slice == n
    ensures forall n :: n in r.sliceStats ==> r.sliceStats[n] == StatOf(n, Filter(tasks, SliceIs(n)))
    ensures SumBy(r.sliceNames, (n: string) => if n in r.sliceStats then r.sliceStats[n].total else 0) == |tasks|
    ensures r.bottlenecks == BottlenecksOf(tasks)
  {
    var timeline := ComputeTimeline(events);
    var names, groups := GroupSlices(tasks);
    SliceTotalsCoverTasks(tasks, names, groups);
    var bottlenecks := ComputeBottlenecks(tasks);
    r := PlanInsights(Summary(tasks), timeline, names, SliceStats(groups), bottlenecks);
  }
}
