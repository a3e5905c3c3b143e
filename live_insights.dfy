/**
 * The live-mode half of src/core/insightsEngine.ts: counts over the agent's
 * sessions, token totals, the per-day completion timeline and the sessions
 * with the most tasks.
 */
module SessionInsights {
  import opened Common
  import Sorting
  import TodoReader
  import opened Timelines

  datatype TokenUsage = TokenUsage(inputTokens: int, outputTokens: int, cacheCreationTokens: int, cacheReadTokens: int)

  /** A `ClaudeSession` with the optional fields the live insights read. */
  datatype LiveSession = LiveSession(base: TodoReader.Session, projectName: Option<string>, tokenUsage: Option<TokenUsage>)

  datatype LiveSummary = LiveSummary(totalSessions: nat, activeSessions: nat, totalTasks: nat, completedTasks: nat,
                                     inProgressTasks: nat, pendingTasks: nat)

  datatype TokenTotals = TokenTotals(total: int, input: int, output: int, cacheCreation: int, cacheRead: int)

  datatype TopSession = TopSession(id: string, taskCount: nat, completedCount: nat, projectName: Option<string>,
                                   lastActivity: int)

  datatype LiveInsights = LiveInsights(summary: LiveSummary, timeline: seq<Point>, tokenUsage: TokenTotals,
                                       topSessions: seq<TopSession>)

  const TOP_SESSIONS: nat := 5

  function TaskHas(st: TodoReader.Status): TodoReader.Task -> bool {
    (t: TodoReader.Task) => t.status == st
  }

  function TaskCount(s: LiveSession): nat {
    |s.base.tasks|
  }

  function CompletedCount(s: LiveSession): nat {
    Count(s.base.tasks, TaskHas(TodoReader.Completed))
  }

  function InProgressCount(s: LiveSession): nat {
    Count(s.base.tasks, TaskHas(TodoReader.InProgress))
  }

  function PendingCount(s: LiveSession): nat {
    Count(s.base.tasks, TaskHas(TodoReader.Pending))
  }

  /** `s.tasks.some((t) => t.status === 'in_progress')`. */
  predicate IsActive(s: LiveSession) {
    exists i :: 0 <= i < |s.base.tasks| && s.base.tasks[i].status == TodoReader.InProgress
  }

  function Tokens(s: LiveSession): TokenUsage {
    if s.tokenUsage.Some? then s.tokenUsage.value else TokenUsage(0, 0, 0, 0)
  }

  /** A sum of counts over sessions. */
  function SumNat(ss: seq<LiveSession>, w: LiveSession -> nat): nat {
    if ss == [] then 0 else SumNat(ss[..|ss| - 1], w) + w(ss[|ss| - 1])
  }

  /** The `summary` of `computeLiveInsights`. */
  function LiveSummaryOf(ss: seq<LiveSession>): LiveSummary {
    LiveSummary(|ss|, Count(ss, IsActive), SumNat(ss, TaskCount), SumNat(ss, CompletedCount),
                SumNat(ss, InProgressCount), SumNat(ss, PendingCount))
  }

  /** The `tokenUsage` of `computeLiveInsights`: the four sums and their total. */
  function TokenTotalsOf(ss: seq<LiveSession>): (r: TokenTotals)
    ensures r.total == r.input + r.output + r.cacheCreation + r.cacheRead
  {
    var input := SumBy(ss, (s: LiveSession) => Tokens(s).inputTokens);
    var output := SumBy(ss, (s: LiveSession) => Tokens(s).outputTokens);
    var creation := SumBy(ss, (s: LiveSession) => Tokens(s).cacheCreationTokens);
    var read := SumBy(ss, (s: LiveSession) => Tokens(s).cacheReadTokens);
    TokenTotals(input + output + creation + read, input, output, creation, read)
  }

  function ToTop(s: LiveSession): TopSession {
    TopSession(s.base.id, TaskCount(s), CompletedCount(s), s.projectName, s.base.updatedAt)
  }

  function TopTaskCount(t: TopSession): int {
    t.taskCount
  }

  /** `topSessions`: by task count, largest first (ties in input order), the first five. */
  function TopSessionsOf(ss: seq<LiveSession>): seq<TopSession> {
    Sorting.KeyComparatorsAntisymmetric(TopTaskCount);
    Take(Sorting.SortBy(Rows(ss), Sorting.Descending(TopTaskCount)), TOP_SESSIONS)
  }

  /** One row per session, in input order. */
  function Rows(ss: seq<LiveSession>): (r: seq<TopSession>)
    ensures |r| == |ss| && forall i :: 0 <= i < |ss| ==> r[i] == ToTop(ss[i])
  {
    seq(|ss|, i requires 0 <= i < |ss| => ToTop(ss[i]))
  }

  function SessionDay(s: LiveSession): int {
    DayOf(s.base.updatedAt)
  }

  function NoWeight(s: LiveSession): nat {
    0
  }

  /**
   * `computeLiveTimeline`: per day on which sessions were last updated,
   * earliest first, the completed tasks of the sessions updated on that day
   * or before; `failed` is always 0.
   */
  method ComputeLiveTimeline(ss: seq<LiveSession>) returns (points: seq<Point>)
    ensures points == Cumulative(ss, SessionDay, CompletedCount, NoWeight)
  {
    if |ss| == 0 {
      return [];
    }
    var days, sums := GroupByDay(ss, SessionDay, CompletedCount, NoWeight);
    Sorting.KeyComparatorsAntisymmetric(Sorting.Identity);
    var sorted := Sorting.SortBy(days, Sorting.Ascending(Sorting.Identity));
    forall d | d in sorted
      ensures d in sums
    {
      assert d in multiset(sorted);
    }
    points := Accumulate(ss, SessionDay, CompletedCount, NoWeight, sorted, sums);
  }

  lemma {:induction false} SumUpToNoWeight(ss: seq<LiveSession>, d: int)
    ensures SumUpTo(ss, SessionDay, NoWeight, d) == 0
  {
    if ss != [] {
      SumUpToNoWeight(ss[..|ss| - 1], d);
    }
  }

  /** In the live timeline `failed` is 0 and `total` equals `completed`. */
  lemma LiveTimelineNoFailures(ss: seq<LiveSession>)
    ensures var r := Cumulative(ss, SessionDay, CompletedCount, NoWeight);
            forall k :: 0 <= k < |r| ==> r[k].failed == 0 && r[k].total == r[k].completed
  {
    var r := Cumulative(ss, SessionDay, CompletedCount, NoWeight);
    forall k | 0 <= k < |r|
      ensures r[k].failed == 0 && r[k].total == r[k].completed
    {
      CumulativeAt(ss, SessionDay, CompletedCount, NoWeight, k);
      SumUpToNoWeight(ss, SortedDays(ss, SessionDay)[k]);
    }
  }

  /** `computeLiveInsights`. */
  method ComputeLiveInsights(ss: seq<LiveSession>) returns (r: LiveInsights)
    ensures r.summary == LiveSummaryOf(ss)
    ensures r.tokenUsage == TokenTotalsOf(ss)
    ensures r.timeline == Cumulative(ss, SessionDay, CompletedCount, NoWeight)
    ensures r.topSessions == TopSessionsOf(ss)
  {
    var active := Count(ss, IsActive);
    var totalTasks: nat, completed: nat, inProgress: nat, pending: nat := 0, 0, 0, 0;
    var input, output, creation, read := 0, 0, 0, 0;
    for i := 0 to |ss|
      invariant totalTasks == SumNat(ss[..i], TaskCount) && completed == SumNat(ss[..i], CompletedCount)
      invariant inProgress == SumNat(ss[..i], InProgressCount) && pending == SumNat(ss[..i], PendingCount)
      invariant input == SumBy(ss[..i], (s: LiveSession) => Tokens(s).inputTokens)
      invariant output == SumBy(ss[..i], (s: LiveSession) => Tokens(s).outputTokens)
      invariant creation == SumBy(ss[..i], (s: LiveSession) => Tokens(s).cacheCreationTokens)
      invariant read == SumBy(ss[..i], (s: LiveSession) => Tokens(s).cacheReadTokens)
    {
      var s := ss[i];
      assert ss[..i + 1][..i] == ss[..i];
      totalTasks := totalTasks + |s.base.tasks|;
      completed := completed + CompletedCount(s);
      inProgress := inProgress + InProgressCount(s);
      pending := pending + PendingCount(s);
      if s.tokenUsage.Some? {
        var u := s.tokenUsage.value;
        input := input + u.inputTokens;
        output := output + u.outputTokens;
        creation := creation + u.cacheCreationTokens;
        read := read + u.cacheReadTokens;
      }
    }
    assert ss[..|ss|] == ss;
    var timeline := ComputeLiveTimeline(ss);
    r := LiveInsights(LiveSummary(|ss|, active, totalTasks, completed, inProgress, pending), timeline,
                      TokenTotals(input + output + creation + read, input, output, creation, read),
                      TopSessionsOf(ss));
  }

  /** Every task has one of the three statuses, so the three counts add up to the tasks of a session. */
  lemma SessionStatusesPartition(s: LiveSession)
    ensures CompletedCount(s) + InProgressCount(s) + PendingCount(s) == TaskCount(s)
  {
    var tasks := s.base.tasks;
    var ci := (t: TodoReader.Task) => t.status == TodoReader.Completed || t.status == TodoReader.InProgress;
    var all := (t: TodoReader.Task) => ci(t) || t.status == TodoReader.Pending;
    CountDisjoint(tasks, TaskHas(TodoReader.Completed), TaskHas(TodoReader.InProgress), ci);
    CountDisjoint(tasks, ci, TaskHas(TodoReader.Pending), all);
    CountAll(tasks, all);
  }

  /**
   * What the live summary promises: completed, in-progress and pending tasks
   * add up to all tasks, and no more sessions are active than there are.
   */
  lemma {:induction false} LiveSummaryPartition(ss: seq<LiveSession>)
    ensures var r := LiveSummaryOf(ss);
            && r.completedTasks + r.inProgressTasks + r.pendingTasks == r.totalTasks
            && r.activeSessions <= r.totalSessions
  {
    if ss != [] {
      LiveSummaryPartition(ss[..|ss| - 1]);
      SessionStatusesPartition(ss[|ss| - 1]);
    }
  }

  /**
   * What `topSessions` promises about its shape: at most five rows, largest
   * task count first, and every session shown when there are at most five.
   */
  lemma TopSessionsOrder(ss: seq<LiveSession>)
    ensures var top := TopSessionsOf(ss);
            && |top| <= TOP_SESSIONS
            && (forall i, j :: 0 <= i <= j < |top| ==> top[i].taskCount >= top[j].taskCount)
            && (|ss| <= TOP_SESSIONS ==> |top| == |ss|)
  {
    Sorting.TopByKeyMembers(Rows(ss), TopTaskCount, TOP_SESSIONS);
  }

  /** Every row `topSessions` shows is the row of an input session. */
  lemma TopSessionsFromInput(ss: seq<LiveSession>)
    ensures var top := TopSessionsOf(ss);
            forall i :: 0 <= i < |top| ==> exists k :: 0 <= k < |ss| && top[i] == ToTop(ss[k])
  {
    var rows := Rows(ss);
    var top := TopSessionsOf(ss);
    Sorting.TopByKeyMembers(rows, TopTaskCount, TOP_SESSIONS);
    forall i | 0 <= i < |top|
      ensures exists k :: 0 <= k < |ss| && top[i] == ToTop(ss[k])
    {
      assert top[i] in rows;
    }
  }

  /** No session left out of `topSessions` has more tasks than a row shown. */
  lemma TopSessionsLeftOut(ss: seq<LiveSession>)
    ensures var top := TopSessionsOf(ss);
            forall s :: s in ss && ToTop(s) !in top ==> forall i :: 0 <= i < |top| ==> TaskCount(s) <= top[i].taskCount
  {
    var rows := Rows(ss);
    var top := TopSessionsOf(ss);
    Sorting.TopByKeyMembers(rows, TopTaskCount, TOP_SESSIONS);
    forall s | s in ss && ToTop(s) !in top
      ensures forall i :: 0 <= i < |top| ==> TaskCount(s) <= top[i].taskCount
    {
      var k :| 0 <= k < |ss| && ss[k] == s;
      assert rows[k] == ToTop(s);
    }
  }
}
