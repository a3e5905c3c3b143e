/**
 * Reading the agent's task lists (src/core/todoReader.ts): the legacy
 * `tasks/<session>/<n>.json` layout with one task per file, the current
 * `todos/<session>-agent-<session>.json` layout with one array per session,
 * record validation with defaults, and the merge in which a `todos/`
 * session replaces a `tasks/` session with the same id.
 *
 * Times are milliseconds since the epoch; the source renders them with
 * `toISOString`, whose text sorts in the same order as the numbers.
 */
module TodoReader {
  import opened Common
  import opened JsValues
  import opened Disk
  import opened Paths
  import Text
  import Sorting

  datatype Status = Pending | InProgress | Completed

  datatype Task = Task(
    id: string,
    subject: string,
    description: string,
    activeForm: string,
    status: Status,
    blocks: seq<string>,
    blockedBy: seq<string>)

  datatype Session = Session(id: string, tasks: seq<Task>, createdAt: int, updatedAt: int)

  function StatusName(s: Status): string {
    match s
    case Pending => "pending"
    case InProgress => "in_progress"
    case Completed => "completed"
  }

  /** `typeof status === 'string' && validStatuses.includes(status)`. */
  function ParseStatus(v: Value): (r: Option<Status>)
    ensures r.Some? <==> v == Str("pending") || v == Str("in_progress") || v == Str("completed")
  {
    if v == Str("pending") then Some(Pending)
    else if v == Str("in_progress") then Some(InProgress)
    else if v == Str("completed") then Some(Completed)
    else None
  }

  /** Every status is accepted under its own name and no other. */
  lemma ParseStatusName(s: Status, v: Value)
    ensures ParseStatus(Str(StatusName(s))) == Some(s)
    ensures ParseStatus(v) == Some(s) ==> v == Str(StatusName(s))
  {
  }

  /** `typeof v === 'string' ? v : fallback`. */
  function StringOr(v: Value, fallback: string): string {
    if v.Str? then v.s else fallback
  }

  /** The string elements of an array, in order (the `.filter(b => typeof b === 'string')` idiom). */
  function StringItems(items: seq<Value>): (r: seq<string>)
    ensures |r| <= |items|
    ensures forall s :: s in r <==> Str(s) in items
  {
    if items == [] then []
    else
      var front := items[..|items| - 1];
      var last := items[|items| - 1];
      assert items == front + [last];
      StringItems(front) + (if last.Str? then [last.s] else [])
  }

  /** Filtering an array piecewise: the strings of each part stay in their order. */
  lemma {:induction false} StringItemsAppend(a: seq<Value>, b: seq<Value>)
    ensures StringItems(a + b) == StringItems(a) + StringItems(b)
  {
    if b != [] {
      assert (a + b)[..|a + b| - 1] == a + b[..|b| - 1];
      StringItemsAppend(a, b[..|b| - 1]);
    } else {
      assert a + b == a;
    }
  }

  /** An array of strings only is kept whole, element by element. */
  lemma {:induction false} StringItemsOfStrings(items: seq<Value>)
    requires forall i :: 0 <= i < |items| ==> items[i].Str?
    ensures |StringItems(items)| == |items|
    ensures forall i :: 0 <= i < |items| ==> StringItems(items)[i] == items[i].s
  {
    if items != [] {
      StringItemsOfStrings(items[..|items| - 1]);
    }
  }

  /** `Array.isArray(v) ? v.filter(isString) : []`. */
  function StringList(v: Value): (r: seq<string>)
    ensures !v.Arr? ==> r == []
    ensures v.Arr? ==> r == StringItems(v.items)
  {
    if v.Arr? then StringItems(v.items) else []
  }

  /**
   * `validateClaudeTask`: a record with a string `id` and an accepted
   * `status` becomes a task, the other text fields defaulting to `''` and the
   * two lists keeping only their strings; anything else is rejected.
   */
  function ValidateClaudeTask(v: Value): (r: Option<Task>)
    ensures r.Some? <==> v.Obj? && Get(v.fields, "id").Str? && ParseStatus(Get(v.fields, "status")).Some?
  {
    if !Truthy(v) || !IsObjectType(v) then None
    else
      var id := OptionalProp(v, "id");
      var status := ParseStatus(OptionalProp(v, "status"));
      if !id.Str? || status.None? then None
      else
        ParseStatusName(status.value, OptionalProp(v, "status"));
        Some(Task(
          id.s,
          StringOr(OptionalProp(v, "subject"), ""),
          StringOr(OptionalProp(v, "description"), ""),
          StringOr(OptionalProp(v, "activeForm"), ""),
          status.value,
          StringList(OptionalProp(v, "blocks")),
          StringList(OptionalProp(v, "blockedBy"))))
  }

  /**
   * `validateTodoItem`: like `validateClaudeTask`, but the subject comes from
   * `content` (then `subject`) and a record without a string `id` gets its
   * 1-based position in the array.
   */
  function ValidateTodoItem(v: Value, index: nat): (r: Option<Task>)
    ensures r.Some? <==> v.Obj? && ParseStatus(Get(v.fields, "status")).Some?
  {
    if !Truthy(v) || !IsObjectType(v) then None
    else
      var status := ParseStatus(OptionalProp(v, "status"));
      if status.None? then None
      else
        ParseStatusName(status.value, OptionalProp(v, "status"));
        var subject := StringOr(OptionalProp(v, "content"), StringOr(OptionalProp(v, "subject"), ""));
        var id := OptionalProp(v, "id");
        Some(Task(
          if id.Str? then id.s else Text.NatToString(index + 1),
          subject,
          StringOr(OptionalProp(v, "description"), ""),
          StringOr(OptionalProp(v, "activeForm"), ""),
          status.value,
          StringList(OptionalProp(v, "blocks")),
          StringList(OptionalProp(v, "blockedBy"))))
  }

  /**
   * The fields of an accepted legacy record: the id and status as given,
   * the other text fields defaulting to `''` and the lists to their strings.
   */
  lemma ClaudeTaskFields(v: Value)
    requires ValidateClaudeTask(v).Some?
    ensures var t := ValidateClaudeTask(v).value;
            var f := v.fields;
            && t.id == Get(f, "id").s
            && Str(StatusName(t.status)) == Get(f, "status")
            && t.subject == StringOr(Get(f, "subject"), "")
            && t.description == StringOr(Get(f, "description"), "")
            && t.activeForm == StringOr(Get(f, "activeForm"), "")
            && t.blocks == StringList(Get(f, "blocks"))
            && t.blockedBy == StringList(Get(f, "blockedBy"))
  {
  }

  /**
   * The fields of an accepted todo item: the id as given or the 1-based
   * position, the subject from `content`, then `subject`, then `''`.
   */
  lemma TodoItemFields(v: Value, index: nat)
    requires ValidateTodoItem(v, index).Some?
    ensures var t := ValidateTodoItem(v, index).value;
            var f := v.fields;
            && t.id == (if Get(f, "id").Str? then Get(f, "id").s else Text.NatToString(index + 1))
            && Str(StatusName(t.status)) == Get(f, "status")
            && t.subject == StringOr(Get(f, "content"), StringOr(Get(f, "subject"), ""))
            && t.description == StringOr(Get(f, "description"), "")
            && t.activeForm == StringOr(Get(f, "activeForm"), "")
            && t.blocks == StringList(Get(f, "blocks"))
            && t.blockedBy == StringList(Get(f, "blockedBy"))
  {
  }

  /** A position-derived id reads back as the 1-based position, so such tasks sort by position. */
  lemma TodoIdFromPosition(v: Value, index: nat)
    requires ValidateTodoItem(v, index).Some? && !Get(v.fields, "id").Str?
    ensures Text.ParseInt(ValidateTodoItem(v, index).value.id) == Some(index + 1)
  {
    Text.ParseIntOfNatToString(index + 1);
  }

  /** A legacy record without `content` validates the same way under both formats. */
  lemma ValidatorsAgree(v: Value, index: nat)
    requires v.Obj? && Get(v.fields, "id").Str? && !Get(v.fields, "content").Str?
    ensures ValidateTodoItem(v, index) == ValidateClaudeTask(v)
  {
  }

  // ---- file names --------------------------------------------------------

  /** A character of the class `[a-f0-9-]`. */
  predicate IsIdChar(c: char) {
    'a' <= c <= 'f' || '0' <= c <= '9' || c == '-'
  }

  /** Length of the longest prefix of `s` made of `[a-f0-9-]`. */
  function IdRun(s: string): (n: nat)
    ensures n <= |s|
    ensures forall i :: 0 <= i < n ==> IsIdChar(s[i])
    ensures n == |s| || !IsIdChar(s[n])
  {
    if s != [] && IsIdChar(s[0]) then 1 + IdRun(s[1..]) else 0
  }

  const AGENT_MARK: string := "-agent-"

  /** `/^([a-f0-9-]+)-agent-/` matches with the first `k` characters as the group. */
  predicate MatchesAt(name: string, k: nat) {
    && 1 <= k <= |name|
    && (forall i :: 0 <= i < k ==> IsIdChar(name[i]))
    && Text.StartsWith(name[k..], AGENT_MARK)
  }

  /**
   * The session id captured by `/^([a-f0-9-]+)-agent-/`. The `g` of `agent`
   * is outside the class, so the greedy run stops two characters into the
   * marker and the capture is that run less its last two characters.
   */
  function SessionIdOf(name: string): (r: Option<string>)
    ensures r.Some? ==> MatchesAt(name, |r.value|) && r.value == name[..|r.value|]
    ensures forall k: nat :: MatchesAt(name, k) ==> r == Some(name[..k])
  {
    var n := IdRun(name);
    forall k: nat | MatchesAt(name, k)
      ensures n == k + 2
    {
      assert name[k..][..7] == AGENT_MARK;
      assert name[k] == '-' && name[k + 1] == 'a' && name[k + 2] == 'g';
    }
    if n >= 3 && Text.StartsWith(name[n - 2..], AGENT_MARK) then Some(name[..n - 2]) else None
  }

  /** The pattern `<id>-agent-<rest>` gives back `<id>`. */
  lemma SessionIdOfRoundTrip(id: string, rest: string)
    requires id != [] && forall i :: 0 <= i < |id| ==> IsIdChar(id[i])
    ensures SessionIdOf(id + AGENT_MARK + rest) == Some(id)
  {
    var name := id + AGENT_MARK + rest;
    assert name[|id|..][..7] == AGENT_MARK;
    assert name[..|id|] == id;
    assert MatchesAt(name, |id|);
  }

  predicate IsJsonName(name: string) {
    Text.EndsWith(name, ".json")
  }

  const SKIP_FILES: set<string> := {".lock", ".highwatermark"}

  /** An entry `readSessionTasks` opens: a `.json` name other than the two lock files. */
  predicate IsTaskFile(name: string) {
    IsJsonName(name) && name !in SKIP_FILES
  }

  // ---- tasks/ ------------------------------------------------------------

  /** One entry of a session directory: read, parse and validate it; `None` when any step fails. */
  function TaskFromFile(d: Disk, dir: string, name: string, parse: string -> Option<Value>): Option<Task> {
    match ReadJson(d, PathJoin(dir, name), parse)
    case None => None
    case Some(v) => ValidateClaudeTask(v)
  }

  /** The valid tasks of the given entries, in entry order. */
  function TasksFromFiles(d: Disk, dir: string, names: seq<string>, parse: string -> Option<Value>): (r: seq<Task>)
    ensures |r| <= |names|
  {
    if names == [] then []
    else
      var last := TaskFromFile(d, dir, names[|names| - 1], parse);
      TasksFromFiles(d, dir, names[..|names| - 1], parse) + (if last.Some? then [last.value] else [])
  }

  lemma TasksFromFilesSnoc(d: Disk, dir: string, names: seq<string>, name: string, parse: string -> Option<Value>)
    ensures var t := TaskFromFile(d, dir, name, parse);
            && (t.None? ==> TasksFromFiles(d, dir, names + [name], parse) == TasksFromFiles(d, dir, names, parse))
            && (t.Some? ==> TasksFromFiles(d, dir, names + [name], parse) == TasksFromFiles(d, dir, names, parse) + [t.value])
  {
    assert (names + [name])[..|names|] == names;
  }

  /** A task is collected exactly when some entry holds it. */
  lemma TasksFromFilesMembers(d: Disk, dir: string, names: seq<string>, parse: string -> Option<Value>, t: Task)
    ensures t in TasksFromFiles(d, dir, names, parse) <==>
              exists i :: 0 <= i < |names| && TaskFromFile(d, dir, names[i], parse) == Some(t)
  {
    if t in TasksFromFiles(d, dir, names, parse) {
      TasksFromFilesSound(d, dir, names, parse, t);
    }
    if exists i :: 0 <= i < |names| && TaskFromFile(d, dir, names[i], parse) == Some(t) {
      var i :| 0 <= i < |names| && TaskFromFile(d, dir, names[i], parse) == Some(t);
      TasksFromFilesComplete(d, dir, names, parse, i);
    }
  }

  /** Every collected task comes from some entry. */
  lemma {:induction false} TasksFromFilesSound(d: Disk, dir: string, names: seq<string>, parse: string -> Option<Value>, t: Task)
    requires t in TasksFromFiles(d, dir, names, parse)
    ensures exists i :: 0 <= i < |names| && TaskFromFile(d, dir, names[i], parse) == Some(t)
  {
    var front := names[..|names| - 1];
    var name := names[|names| - 1];
    assert names == front + [name];
    TasksFromFilesSnoc(d, dir, front, name, parse);
    if t in TasksFromFiles(d, dir, front, parse) {
      TasksFromFilesSound(d, dir, front, parse, t);
      var i :| 0 <= i < |front| && TaskFromFile(d, dir, front[i], parse) == Some(t);
      assert names[i] == front[i];
    } else {
      assert TaskFromFile(d, dir, names[|names| - 1], parse) == Some(t);
    }
  }

  /** The valid task of any entry is collected. */
  lemma {:induction false} TasksFromFilesComplete(d: Disk, dir: string, names: seq<string>, parse: string -> Option<Value>, i: nat)
    requires i < |names| && TaskFromFile(d, dir, names[i], parse).Some?
    ensures TaskFromFile(d, dir, names[i], parse).value in TasksFromFiles(d, dir, names, parse)
  {
    var front := names[..|names| - 1];
    var name := names[|names| - 1];
    assert names == front + [name];
    TasksFromFilesSnoc(d, dir, front, name, parse);
    if i < |front| {
      assert front[i] == names[i];
      TasksFromFilesComplete(d, dir, front, parse, i);
    }
  }

  /** The comparator of `readSessionTasks`: numeric when both ids parse, otherwise string order. */
  function TaskOrder(a: Task, b: Task): int {
    var numA := Text.ParseInt(a.id);
    var numB := Text.ParseInt(b.id);
    if numA.Some? && numB.Some? then numA.value - numB.value else Text.Compare(a.id, b.id)
  }

  lemma TaskOrderAntisymmetric()
    ensures Sorting.Antisymmetric(TaskOrder)
  {
    forall a: Task, b: Task | TaskOrder(a, b) > 0
      ensures TaskOrder(b, a) < 0
    {
      Text.CompareAntisymmetric(a.id, b.id);
    }
  }

  /**
   * The comparator is not transitive: ids that mix numbers and other text
   * can form a cycle, numeric between the two numbers and textual otherwise.
   */
  lemma TaskOrderCycle(a: Task, b: Task, c: Task)
    requires a.id == "10" && b.id == " 50" && c.id == "-x"
    ensures TaskOrder(a, b) < 0 && TaskOrder(b, c) < 0 && TaskOrder(c, a) < 0
  {
    assert TaskOrder(a, b) < 0 by {
      ParsesTen(a.id);
      ParsesFifty(b.id);
    }
    assert TaskOrder(b, c) < 0 by {
      ParsesNothing(c.id);
      FirstCharDecides(b.id, c.id);
    }
    assert TaskOrder(c, a) < 0 by {
      ParsesNothing(c.id);
      FirstCharDecides(c.id, a.id);
    }
  }

  lemma FirstCharDecides(x: string, y: string)
    requires x != [] && y != [] && x[0] < y[0]
    ensures Text.Compare(x, y) == -1
  {
  }

  lemma ParsesTen(s: string)
    requires s == "10"
    ensures Text.ParseInt(s) == Some(10)
  {
    assert Text.TrimStart("10") == "10" by { assert !Text.IsJsSpace('1'); }
    assert Text.Unsigned("10") == "10" by { assert "10"[0] == '1'; }
    assert Text.LeadingDigits("10") == "10" by { assert Text.LeadingDigits("0") == "0"; }
    assert Text.DigitsValue("10") == 10 by { assert "10"[..1] == "1"; }
  }

  lemma ParsesFifty(s: string)
    requires s == " 50"
    ensures Text.ParseInt(s) == Some(50)
  {
    assert Text.TrimStart(" 50") == "50" by {
      assert Text.IsJsSpace(' ') && !Text.IsJsSpace('5');
      assert " 50"[1..] == "50";
    }
    assert Text.Unsigned("50") == "50" by { assert "50"[0] == '5'; }
    assert Text.LeadingDigits("50") == "50" by { assert Text.LeadingDigits("0") == "0"; }
    assert Text.DigitsValue("50") == 50 by { assert "50"[..1] == "5"; }
  }

  lemma ParsesNothing(s: string)
    requires s == "-x"
    ensures Text.ParseInt(s).None?
  {
    assert Text.TrimStart("-x") == "-x" by { assert !Text.IsJsSpace('-'); }
    assert Text.Unsigned("-x") == "x" by { assert "-x"[0] == '-' && "-x"[1..] == "x"; }
    assert Text.LeadingDigits("x") == [] by { assert !Text.IsDigit('x'); }
  }

  /** What `readSessionTasks` returns for a session directory. */
  function SessionTasks(d: Disk, dir: string, parse: string -> Option<Value>): seq<Task> {
    TaskOrderAntisymmetric();
    var names := Filter(ReadDir(d, dir).GetOr([]), IsTaskFile);
    Sorting.SortBy(TasksFromFiles(d, dir, names, parse), TaskOrder)
  }

  /** One step of the loop of `readSessionTasks`: a task file's valid task is appended. */
  lemma SessionTasksStep(d: Disk, dir: string, entries: seq<string>, i: nat, parse: string -> Option<Value>)
    requires i < |entries|
    ensures var before := TasksFromFiles(d, dir, Filter(entries[..i], IsTaskFile), parse);
            var t := TaskFromFile(d, dir, entries[i], parse);
            TasksFromFiles(d, dir, Filter(entries[..i + 1], IsTaskFile), parse)
              == if IsTaskFile(entries[i]) && t.Some? then before + [t.value] else before
  {
    var prefix := entries[..i];
    assert entries[..i + 1] == prefix + [entries[i]];
    FilterSnoc(prefix, entries[i], IsTaskFile);
    if IsTaskFile(entries[i]) {
      TasksFromFilesSnoc(d, dir, Filter(prefix, IsTaskFile), entries[i], parse);
    }
  }

  /**
   * `readSessionTasks`: collect the valid tasks of the `.json` entries, then
   * sort them by id.
   */
  method ReadSessionTasks(d: Disk, dir: string, parse: string -> Option<Value>) returns (tasks: seq<Task>)
    requires dir in d.dirs
    ensures tasks == SessionTasks(d, dir, parse)
    ensures multiset(tasks) == multiset(TasksFromFiles(d, dir, Filter(ReadDir(d, dir).value, IsTaskFile), parse))
    ensures Sorting.AdjacentSorted(tasks, TaskOrder)
  {
    var entries := ReadDir(d, dir).value;
    var collected: seq<Task> := [];
    assert Filter(entries[..0], IsTaskFile) == [];
    for i := 0 to |entries|
      invariant collected == TasksFromFiles(d, dir, Filter(entries[..i], IsTaskFile), parse)
    {
      var entry := entries[i];
      SessionTasksStep(d, dir, entries, i, parse);
      ghost var expected := TaskFromFile(d, dir, entry, parse);
      if IsJsonName(entry) && entry !in SKIP_FILES {
        var parsed := ReadJson(d, PathJoin(dir, entry), parse);
        var task: Option<Task> := None;
        if parsed.Some? {
          task := ValidateClaudeTask(parsed.value);
        }
        assert task == expected;
        if task.Some? {
          collected := collected + [task.value];
        }
      }
    }
    assert entries[..|entries|] == entries;
    TaskOrderAntisymmetric();
    tasks := Sorting.SortBy(collected, TaskOrder);
  }

  /** The number an id parses to (0 when it does not parse). */
  function IdNumber(t: Task): int {
    Text.ParseInt(t.id).GetOr(0)
  }

  /** When every id is an integer the tasks come out in ascending numeric order. */
  lemma NumericIdsAscending(s: seq<Task>)
    requires Sorting.AdjacentSorted(s, TaskOrder)
    requires forall i :: 0 <= i < |s| ==> Text.ParseInt(s[i].id).Some?
    ensures forall i, j :: 0 <= i <= j < |s| ==> IdNumber(s[i]) <= IdNumber(s[j])
  {
    forall i | 0 <= i < |s| - 1
      ensures TaskOrder(s[i], s[i + 1]) == IdNumber(s[i]) - IdNumber(s[i + 1])
    {
    }
    Sorting.AscendingByKey(s, TaskOrder, IdNumber);
  }

  /** The `.json` entries whose `statSync` succeeds, with their times. */
  function StatsOf(d: Disk, dir: string, names: seq<string>): (r: seq<Stat>)
    ensures |r| <= |names|
  {
    if names == [] then []
    else
      var st := StatOf(d, PathJoin(dir, names[|names| - 1]));
      StatsOf(d, dir, names[..|names| - 1]) + (if st.Some? then [st.value] else [])
  }

  lemma StatsOfSnoc(d: Disk, dir: string, names: seq<string>, name: string)
    ensures var st := StatOf(d, PathJoin(dir, name));
            && (st.None? ==> StatsOf(d, dir, names + [name]) == StatsOf(d, dir, names))
            && (st.Some? ==> StatsOf(d, dir, names + [name]) == StatsOf(d, dir, names) + [st.value])
  {
    assert (names + [name])[..|names|] == names;
  }

  /** The smallest birth time, `None` (the source's `Infinity`) when there is none. */
  function Earliest(stats: seq<Stat>): Option<int> {
    if stats == [] then None
    else
      var e := Earliest(stats[..|stats| - 1]);
      var last := stats[|stats| - 1];
      if e.None? || last.birthtime < e.value then Some(last.birthtime) else e
  }

  lemma EarliestSnoc(stats: seq<Stat>, st: Stat)
    ensures var e := Earliest(stats);
            Earliest(stats + [st]) == if e.None? || st.birthtime < e.value then Some(st.birthtime) else e
  {
    assert (stats + [st])[..|stats|] == stats;
  }

  /** `Earliest` is the minimum birth time, and there is one exactly when there is a time. */
  lemma {:induction false} EarliestIsMinimum(stats: seq<Stat>)
    ensures Earliest(stats).None? <==> stats == []
    ensures Earliest(stats).Some? ==>
              && (forall s :: s in stats ==> Earliest(stats).value <= s.birthtime)
              && (exists s :: s in stats && s.birthtime == Earliest(stats).value)
  {
    if stats != [] {
      var front := stats[..|stats| - 1];
      EarliestIsMinimum(front);
      assert stats == front + [stats[|stats| - 1]];
    }
  }

  /** The largest modification time above 0, or 0 (the source's starting value) when there is none. */
  function Latest(stats: seq<Stat>): int {
    if stats == [] then 0
    else
      var l := Latest(stats[..|stats| - 1]);
      var last := stats[|stats| - 1];
      if last.mtime > l then last.mtime else l
  }

  lemma LatestSnoc(stats: seq<Stat>, st: Stat)
    ensures Latest(stats + [st]) == if st.mtime > Latest(stats) then st.mtime else Latest(stats)
  {
    assert (stats + [st])[..|stats|] == stats;
  }

  /** `Latest` bounds every modification time and is 0 or one of them. */
  lemma {:induction false} LatestIsMaximum(stats: seq<Stat>)
    ensures Latest(stats) >= 0
    ensures forall s :: s in stats ==> s.mtime <= Latest(stats)
    ensures Latest(stats) == 0 || exists s :: s in stats && s.mtime == Latest(stats)
  {
    if stats != [] {
      var front := stats[..|stats| - 1];
      LatestIsMaximum(front);
      assert stats == front + [stats[|stats| - 1]];
    }
  }

  /** What `readSession` returns; `now` is the clock read by `new Date()`. */
  function SessionAt(d: Disk, tasksDir: string, id: string, parse: string -> Option<Value>, now: int): Option<Session> {
    var dir := PathJoin(tasksDir, id);
    if !Exists(d, dir) then None
    else
      var tasks := SessionTasks(d, dir, parse);
      if tasks == [] then None
      else
        var stats := StatsOf(d, dir, Filter(ReadDir(d, dir).GetOr([]), IsJsonName));
        var created := Earliest(stats);
        var modified := Latest(stats);
        Some(Session(id, tasks, if created.None? then now else created.value, if modified == 0 then now else modified))
  }

  /**
   * `readSession`: the session's sorted tasks, or nothing when the directory
   * is missing or has no valid task; the creation time is the earliest birth
   * time of its `.json` entries and the update time the latest modification
   * time, each falling back to `now`.
   */
  method ReadSession(d: Disk, tasksDir: string, id: string, parse: string -> Option<Value>, now: int)
    returns (r: Option<Session>)
    requires PathJoin(tasksDir, id) in d.dirs || !Exists(d, PathJoin(tasksDir, id))
    ensures r == SessionAt(d, tasksDir, id, parse, now)
    ensures r.Some? ==> r.value.id == id && r.value.tasks != []
  {
    var dir := PathJoin(tasksDir, id);
    if !Exists(d, dir) {
      return None;
    }
    var tasks := ReadSessionTasks(d, dir, parse);
    if tasks == [] {
      return None;
    }
    var earliest, latest := FileTimes(d, dir, Filter(ReadDir(d, dir).value, IsJsonName));
    r := Some(Session(id, tasks, if earliest.None? then now else earliest.value, if latest == 0 then now else latest));
  }

  /**
   * The time loop of `readSession`: the earliest birth time and the latest
   * modification time (above 0) of the named entries, skipping those whose
   * `statSync` throws.
   */
  method FileTimes(d: Disk, dir: string, files: seq<string>) returns (earliest: Option<int>, latest: int)
    ensures earliest == Earliest(StatsOf(d, dir, files))
    ensures latest == Latest(StatsOf(d, dir, files))
  {
    earliest := None;
    latest := 0;
    assert files[..0] == [];
    for i := 0 to |files|
      invariant earliest == Earliest(StatsOf(d, dir, files[..i]))
      invariant latest == Latest(StatsOf(d, dir, files[..i]))
    {
      assert files[..i + 1] == files[..i] + [files[i]];
      StatsOfSnoc(d, dir, files[..i], files[i]);
      var st := StatOf(d, PathJoin(dir, files[i]));
      if st.Some? {
        EarliestSnoc(StatsOf(d, dir, files[..i]), st.value);
        LatestSnoc(StatsOf(d, dir, files[..i]), st.value);
        if earliest.None? || st.value.birthtime < earliest.value {
          earliest := Some(st.value.birthtime);
        }
        if st.value.mtime > latest {
          latest := st.value.mtime;
        }
      }
    }
    assert files[..|files|] == files;
  }

  // ---- todos/ ------------------------------------------------------------

  /** The valid items of a todos array, each validated with its original position. */
  function TodoTasks(items: seq<Value>): (r: seq<Task>)
    ensures |r| <= |items|
  {
    if items == [] then []
    else
      var last := ValidateTodoItem(items[|items| - 1], |items| - 1);
      TodoTasks(items[..|items| - 1]) + (if last.Some? then [last.value] else [])
  }

  /** A task is kept exactly when some item, validated at its own position, gives it. */
  lemma TodoTasksMembers(items: seq<Value>, t: Task)
    ensures t in TodoTasks(items) <==> exists i :: 0 <= i < |items| && ValidateTodoItem(items[i], i) == Some(t)
  {
    if t in TodoTasks(items) {
      TodoTasksSound(items, t);
    }
    if exists i :: 0 <= i < |items| && ValidateTodoItem(items[i], i) == Some(t) {
      var i :| 0 <= i < |items| && ValidateTodoItem(items[i], i) == Some(t);
      TodoTasksComplete(items, i);
    }
  }

  /** Every kept task comes from some item. */
  lemma {:induction false} TodoTasksSound(items: seq<Value>, t: Task)
    requires t in TodoTasks(items)
    ensures exists i :: 0 <= i < |items| && ValidateTodoItem(items[i], i) == Some(t)
  {
    var front := items[..|items| - 1];
    if t in TodoTasks(front) {
      TodoTasksSound(front, t);
      var i :| 0 <= i < |front| && ValidateTodoItem(front[i], i) == Some(t);
      assert items[i] == front[i];
    } else {
      assert ValidateTodoItem(items[|items| - 1], |items| - 1) == Some(t);
    }
  }

  /** The valid task of any item is kept. */
  lemma {:induction false} TodoTasksComplete(items: seq<Value>, i: nat)
    requires i < |items| && ValidateTodoItem(items[i], i).Some?
    ensures ValidateTodoItem(items[i], i).value in TodoTasks(items)
  {
    var front := items[..|items| - 1];
    if i < |front| {
      assert front[i] == items[i];
      TodoTasksComplete(front, i);
    }
  }

  /** What `readTodosFile` returns. */
  function TodoSession(d: Disk, todosDir: string, name: string, parse: string -> Option<Value>): Option<Session> {
    match SessionIdOf(name)
    case None => None
    case Some(id) =>
      var path := PathJoin(todosDir, name);
      var parsed := ReadJson(d, path, parse);
      if parsed.None? || !parsed.value.Arr? then None
      else
        var tasks := TodoTasks(parsed.value.items);
        var st := StatOf(d, path);
        if tasks == [] || st.None? then None
        else Some(Session(id, tasks, st.value.birthtime, st.value.mtime))
  }

  /**
   * `readTodosFile`: a file named after the pattern, holding an array with at
   * least one valid item and whose times can be read, is a session under the
   * captured id; anything else is nothing.
   */
  method ReadTodosFile(d: Disk, todosDir: string, name: string, parse: string -> Option<Value>)
    returns (r: Option<Session>)
    ensures r == TodoSession(d, todosDir, name, parse)
    ensures r.Some? <==>
              && SessionIdOf(name).Some?
              && (exists items :: ReadJson(d, PathJoin(todosDir, name), parse) == Some(Arr(items)) && TodoTasks(items) != [])
              && PathJoin(todosDir, name) in d.stats
    ensures r.Some? ==> r.value.id == SessionIdOf(name).value && r.value.tasks != []
  {
    var id := SessionIdOf(name);
    if id.None? {
      return None;
    }
    var path := PathJoin(todosDir, name);
    var parsed := ReadJson(d, path, parse);
    if parsed.None? || !parsed.value.Arr? {
      return None;
    }
    var items := parsed.value.items;
    var tasks: seq<Task> := [];
    for i := 0 to |items|
      invariant tasks == TodoTasks(items[..i])
    {
      assert items[..i + 1][..i] == items[..i];
      var task := ValidateTodoItem(items[i], i);
      if task.Some? {
        tasks := tasks + [task.value];
      }
    }
    assert items[..|items|] == items;
    if tasks == [] {
      return None;
    }
    var st := StatOf(d, path);
    if st.None? {
      return None;
    }
    r := Some(Session(id.value, tasks, st.value.birthtime, st.value.mtime));
  }

  // ---- merge -------------------------------------------------------------

  predicate UniqueIds(m: seq<Session>) {
    forall i, j :: 0 <= i < j < |m| ==> m[i].id != m[j].id
  }

  /**
   * `sessionMap.set(s.id, s)` on a `Map` kept as its entries in insertion
   * order: an existing id keeps its position and takes the new session, a
   * new id goes last.
   */
  function SetSession(m: seq<Session>, s: Session): (r: seq<Session>)
    requires UniqueIds(m)
    ensures UniqueIds(r)
    decreases |m|, 1
  {
    SetSessionEntries(m, s);
    if m == [] then [s]
    else if m[0].id == s.id then [s] + m[1..]
    else [m[0]] + SetSession(m[1..], s)
  }

  /** Exactly the new session and the entries under other ids remain. */
  lemma {:induction false} SetSessionEntries(m: seq<Session>, s: Session)
    requires UniqueIds(m)
    ensures var r := if m == [] then [s] else if m[0].id == s.id then [s] + m[1..] else [m[0]] + SetSession(m[1..], s);
            && UniqueIds(r)
            && (forall x :: x in r <==> x == s || (x in m && x.id != s.id))
    decreases |m|, 0
  {
    if m != [] {
      if m[0].id == s.id {
        assert forall x :: x in m[1..] ==> x.id != s.id;
      } else {
        SetSessionEntries(m[1..], s);
        assert forall x :: x in SetSession(m[1..], s) ==> x.id != m[0].id;
      }
    }
  }

  /** A session is in the map after a set exactly when it was set or was there under another id. */
  lemma SetSessionMember(m: seq<Session>, s: Session, x: Session)
    requires UniqueIds(m)
    ensures x in SetSession(m, s) <==> x == s || (x in m && x.id != s.id)
  {
    SetSessionEntries(m, s);
  }

  /** Setting each session in turn. */
  function SetAll(m: seq<Session>, ss: seq<Session>): (r: seq<Session>)
    requires UniqueIds(m)
    ensures UniqueIds(r)
  {
    if ss == [] then m else SetSession(SetAll(m, ss[..|ss| - 1]), ss[|ss| - 1])
  }

  lemma SetAllSnoc(m: seq<Session>, ss: seq<Session>, s: Session)
    requires UniqueIds(m)
    ensures SetAll(m, ss + [s]) == SetSession(SetAll(m, ss), s)
  {
    assert (ss + [s])[..|ss|] == ss;
  }

  /** Every entry after the sets was there before or was set. */
  lemma {:induction false} SetAllFrom(m: seq<Session>, ss: seq<Session>)
    requires UniqueIds(m)
    ensures forall x :: x in SetAll(m, ss) ==> x in m || x in ss
  {
    if ss != [] {
      var front := ss[..|ss| - 1];
      SetAllFrom(m, front);
      SetSessionEntries(SetAll(m, front), ss[|ss| - 1]);
      assert forall x :: x in front ==> x in ss;
    }
  }

  /** The last session set under an id is the one the map holds. */
  lemma {:induction false} SetAllLastWins(m: seq<Session>, ss: seq<Session>, i: nat)
    requires UniqueIds(m)
    requires i < |ss| && forall j :: i < j < |ss| ==> ss[j].id != ss[i].id
    ensures ss[i] in SetAll(m, ss)
  {
    var front := ss[..|ss| - 1];
    var last := ss[|ss| - 1];
    assert SetAll(m, ss) == SetSession(SetAll(m, front), last);
    if i < |ss| - 1 {
      assert forall j :: i < j < |front| ==> front[j] == ss[j];
      SetAllLastWins(m, front, i);
      assert front[i] == ss[i] && ss[i].id != last.id;
    }
    SetSessionMember(SetAll(m, front), last, ss[i]);
  }

  /** An entry no later session shares an id with stays. */
  lemma {:induction false} SetAllKeeps(m: seq<Session>, ss: seq<Session>, x: Session)
    requires UniqueIds(m)
    requires x in m && forall s :: s in ss ==> s.id != x.id
    ensures x in SetAll(m, ss)
  {
    if ss != [] {
      var front := ss[..|ss| - 1];
      assert forall s :: s in front ==> s in ss;
      SetAllKeeps(m, front, x);
      SetSessionEntries(SetAll(m, front), ss[|ss| - 1]);
    }
  }

  /** The sessions of the `tasks/` entries that are directories, in entry order. */
  function TaskDirSessions(d: Disk, tasksDir: string, names: seq<string>, parse: string -> Option<Value>, now: int): seq<Session> {
    if names == [] then []
    else
      var name := names[|names| - 1];
      var s := if PathJoin(tasksDir, name) in d.dirs then SessionAt(d, tasksDir, name, parse, now) else None;
      TaskDirSessions(d, tasksDir, names[..|names| - 1], parse, now) + (if s.Some? && s.value.tasks != [] then [s.value] else [])
  }

  /** The sessions of the `.json` files of `todos/`, in entry order. */
  function TodoFileSessions(d: Disk, todosDir: string, names: seq<string>, parse: string -> Option<Value>): seq<Session> {
    if names == [] then []
    else
      var s := TodoSession(d, todosDir, names[|names| - 1], parse);
      TodoFileSessions(d, todosDir, names[..|names| - 1], parse) + (if s.Some? && s.value.tasks != [] then [s.value] else [])
  }

  lemma TaskDirSessionsSnoc(d: Disk, tasksDir: string, names: seq<string>, name: string, parse: string -> Option<Value>, now: int)
    ensures var s := if PathJoin(tasksDir, name) in d.dirs then SessionAt(d, tasksDir, name, parse, now) else None;
            var before := TaskDirSessions(d, tasksDir, names, parse, now);
            var after := TaskDirSessions(d, tasksDir, names + [name], parse, now);
            && (s.Some? && s.value.tasks != [] ==> after == before + [s.value])
            && (!(s.Some? && s.value.tasks != []) ==> after == before)
  {
    assert (names + [name])[..|names|] == names;
  }

  lemma TodoFileSessionsSnoc(d: Disk, todosDir: string, names: seq<string>, name: string, parse: string -> Option<Value>)
    ensures var s := TodoSession(d, todosDir, name, parse);
            var before := TodoFileSessions(d, todosDir, names, parse);
            var after := TodoFileSessions(d, todosDir, names + [name], parse);
            && (s.Some? && s.value.tasks != [] ==> after == before + [s.value])
            && (!(s.Some? && s.value.tasks != []) ==> after == before)
  {
    assert (names + [name])[..|names|] == names;
  }

  /** Only sessions with at least one task are collected. */
  lemma {:induction false} CollectedHaveTasks(d: Disk, tasksDir: string, todosDir: string, names: seq<string>, parse: string -> Option<Value>, now: int)
    ensures forall s :: s in TaskDirSessions(d, tasksDir, names, parse, now) ==> s.tasks != []
    ensures forall s :: s in TodoFileSessions(d, todosDir, names, parse) ==> s.tasks != []
  {
    if names != [] {
      CollectedHaveTasks(d, tasksDir, todosDir, names[..|names| - 1], parse, now);
    }
  }

  function IdOf(s: Session): string {
    s.id
  }

  function UpdatedAt(s: Session): int {
    s.updatedAt
  }

  /** The sessions of `tasks/` (empty when it does not exist); `None` when it exists but is not a directory. */
  function LegacySessions(d: Disk, claudeDir: string, parse: string -> Option<Value>, now: int): Option<seq<Session>> {
    var tasksDir := PathJoin(claudeDir, "tasks");
    if !Exists(d, tasksDir) then Some([])
    else if tasksDir !in d.dirs then None
    else Some(TaskDirSessions(d, tasksDir, ReadDir(d, tasksDir).value, parse, now))
  }

  /** The sessions of `todos/` (empty when it does not exist); `None` when it exists but is not a directory. */
  function CurrentSessions(d: Disk, claudeDir: string, parse: string -> Option<Value>): Option<seq<Session>> {
    var todosDir := PathJoin(claudeDir, "todos");
    if !Exists(d, todosDir) then Some([])
    else if todosDir !in d.dirs then None
    else Some(TodoFileSessions(d, todosDir, Filter(ReadDir(d, todosDir).value, IsJsonName), parse))
  }

  /** What `readSessions` returns; `None` when a `readdirSync` throws. */
  function AllSessions(d: Disk, claudeDir: string, parse: string -> Option<Value>, now: int): Option<seq<Session>> {
    var legacy := LegacySessions(d, claudeDir, parse, now);
    var current := CurrentSessions(d, claudeDir, parse);
    if legacy.None? || current.None? then None
    else Some(MergeSessions(legacy.value, current.value))
  }

  /**
   * `readSessions`: the sessions of `tasks/`, then those of `todos/`
   * replacing any with the same id, most recently updated first.
   */
  method ReadSessions(d: Disk, claudeDir: string, parse: string -> Option<Value>, now: int)
    returns (r: Option<seq<Session>>)
    ensures r == AllSessions(d, claudeDir, parse, now)
  {
    var legacy := ReadLegacy(d, claudeDir, parse, now);
    if legacy.None? {
      return None;
    }
    var merged := MergeTodos(d, claudeDir, parse, legacy.value);
    if merged.None? {
      return None;
    }
    Sorting.KeyComparatorsAntisymmetric(UpdatedAt);
    r := Some(Sorting.SortBy(merged.value, Sorting.Descending(UpdatedAt)));
  }

  /** One step of the `tasks/` loop: the entry's session, when it has tasks, is set over the map. */
  lemma LegacyStep(d: Disk, tasksDir: string, entries: seq<string>, i: nat, parse: string -> Option<Value>, now: int)
    requires i < |entries|
    ensures var s := if PathJoin(tasksDir, entries[i]) in d.dirs then SessionAt(d, tasksDir, entries[i], parse, now) else None;
            var before := SetAll([], TaskDirSessions(d, tasksDir, entries[..i], parse, now));
            SetAll([], TaskDirSessions(d, tasksDir, entries[..i + 1], parse, now))
              == if s.Some? && s.value.tasks != [] then SetSession(before, s.value) else before
  {
    var prefix := entries[..i];
    assert entries[..i + 1] == prefix + [entries[i]];
    TaskDirSessionsSnoc(d, tasksDir, prefix, entries[i], parse, now);
    var s := if PathJoin(tasksDir, entries[i]) in d.dirs then SessionAt(d, tasksDir, entries[i], parse, now) else None;
    if s.Some? && s.value.tasks != [] {
      SetAllSnoc([], TaskDirSessions(d, tasksDir, prefix, parse, now), s.value);
    }
  }

  /** One step of the `todos/` loop: the file's session, when it has tasks, is set over the map. */
  lemma TodosStep(d: Disk, todosDir: string, files: seq<string>, i: nat, parse: string -> Option<Value>, start: seq<Session>)
    requires i < |files| && UniqueIds(start)
    ensures var s := TodoSession(d, todosDir, files[i], parse);
            var before := SetAll(start, TodoFileSessions(d, todosDir, files[..i], parse));
            SetAll(start, TodoFileSessions(d, todosDir, files[..i + 1], parse))
              == if s.Some? && s.value.tasks != [] then SetSession(before, s.value) else before
  {
    var prefix := files[..i];
    assert files[..i + 1] == prefix + [files[i]];
    TodoFileSessionsSnoc(d, todosDir, prefix, files[i], parse);
    var s := TodoSession(d, todosDir, files[i], parse);
    if s.Some? && s.value.tasks != [] {
      SetAllSnoc(start, TodoFileSessions(d, todosDir, prefix, parse), s.value);
    }
  }

  /** The first loop of `readSessions`: the map after the `tasks/` directory. */
  method ReadLegacy(d: Disk, claudeDir: string, parse: string -> Option<Value>, now: int)
    returns (sessionMap: Option<seq<Session>>)
    ensures LegacySessions(d, claudeDir, parse, now).None? <==> sessionMap.None?
    ensures sessionMap.Some? ==> sessionMap.value == SetAll([], LegacySessions(d, claudeDir, parse, now).value)
  {
    var tasksDir := PathJoin(claudeDir, "tasks");
    if !Exists(d, tasksDir) {
      return Some([]);
    }
    var listing := ReadDir(d, tasksDir);
    if listing.None? {
      return None;
    }
    var entries := listing.value;
    var m: seq<Session> := [];
    assert entries[..0] == [];
    for i := 0 to |entries|
      invariant m == SetAll([], TaskDirSessions(d, tasksDir, entries[..i], parse, now))
    {
      var name := entries[i];
      var session: Option<Session> := None;
      if PathJoin(tasksDir, name) in d.dirs {
        session := ReadSession(d, tasksDir, name, parse, now);
      }
      LegacyStep(d, tasksDir, entries, i, parse, now);
      if session.Some? && session.value.tasks != [] {
        m := SetSession(m, session.value);
      }
    }
    assert entries[..|entries|] == entries;
    sessionMap := Some(m);
  }

  /** The second loop of `readSessions`: the `todos/` sessions set over the map. */
  method MergeTodos(d: Disk, claudeDir: string, parse: string -> Option<Value>, start: seq<Session>)
    returns (sessionMap: Option<seq<Session>>)
    requires UniqueIds(start)
    ensures CurrentSessions(d, claudeDir, parse).None? <==> sessionMap.None?
    ensures sessionMap.Some? ==> sessionMap.value == SetAll(start, CurrentSessions(d, claudeDir, parse).value)
  {
    var todosDir := PathJoin(claudeDir, "todos");
    var m := start;
    if !Exists(d, todosDir) {
      return Some(m);
    }
    var listing := ReadDir(d, todosDir);
    if listing.None? {
      return None;
    }
    var files := Filter(listing.value, IsJsonName);
    assert files[..0] == [];
    for i := 0 to |files|
      invariant m == SetAll(start, TodoFileSessions(d, todosDir, files[..i], parse))
    {
      var session := ReadTodosFile(d, todosDir, files[i], parse);
      TodosStep(d, todosDir, files, i, parse, start);
      if session.Some? && session.value.tasks != [] {
        m := SetSession(m, session.value);
      }
    }
    assert files[..|files|] == files;
    sessionMap := Some(m);
  }

  /** The merge and sort of `readSessions` over given `tasks/` and `todos/` sessions. */
  function MergeSessions(legacy: seq<Session>, current: seq<Session>): seq<Session> {
    Sorting.KeyComparatorsAntisymmetric(UpdatedAt);
    Sorting.SortBy(SetAll(SetAll([], legacy), current), Sorting.Descending(UpdatedAt))
  }

  /**
   * What the merge promises: most recent first, one entry per id, every
   * entry drawn from `tasks/` or `todos/`; the last `todos/` session under
   * an id is the one shown, and a `tasks/` session shows when no `todos/`
   * session and no later `tasks/` session claim its id.
   */
  lemma MergePromises(legacy: seq<Session>, current: seq<Session>)
    ensures var r := MergeSessions(legacy, current);
            && (forall i, j :: 0 <= i <= j < |r| ==> r[i].updatedAt >= r[j].updatedAt)
            && UniqueIds(r)
            && (forall s :: s in r ==> s in current || s in legacy)
            && (forall i :: 0 <= i < |current| && (forall j :: i < j < |current| ==> current[j].id != current[i].id) ==>
                  current[i] in r)
            && (forall i :: (0 <= i < |legacy| && (forall j :: i < j < |legacy| ==> legacy[j].id != legacy[i].id)
                             && (forall s :: s in current ==> s.id != legacy[i].id)) ==>
                  legacy[i] in r)
  {
    var m0 := SetAll([], legacy);
    var merged := SetAll(m0, current);
    var r := MergeSessions(legacy, current);
    Sorting.KeyComparatorsAntisymmetric(UpdatedAt);
    assert multiset(r) == multiset(merged);
    Sorting.DescendingSortedGlobally(r, UpdatedAt);
    forall x
      ensures x in r <==> x in merged
    {
      assert x in r <==> x in multiset(r);
      assert x in merged <==> x in multiset(merged);
    }
    SortKeepsUniqueIds(merged);
    SetAllFrom([], legacy);
    SetAllFrom(m0, current);
    forall i | 0 <= i < |current| && (forall j :: i < j < |current| ==> current[j].id != current[i].id)
      ensures current[i] in r
    {
      SetAllLastWins(m0, current, i);
    }
    forall i | 0 <= i < |legacy| && (forall j :: i < j < |legacy| ==> legacy[j].id != legacy[i].id)
                 && (forall s :: s in current ==> s.id != legacy[i].id)
      ensures legacy[i] in r
    {
      SetAllLastWins([], legacy, i);
      SetAllKeeps(m0, current, legacy[i]);
    }
  }

  /** Sorting the map's entries by time keeps one entry per id. */
  lemma SortKeepsUniqueIds(m: seq<Session>)
    requires UniqueIds(m) && Sorting.Antisymmetric(Sorting.Descending(UpdatedAt))
    ensures UniqueIds(Sorting.SortBy(m, Sorting.Descending(UpdatedAt)))
  {
    assert Sorting.UniqueBy(m, IdOf);
    Sorting.SortByUniqueBy(m, Sorting.Descending(UpdatedAt), IdOf);
    var r := Sorting.SortBy(m, Sorting.Descending(UpdatedAt));
    assert forall i, j :: 0 <= i < j < |r| ==> IdOf(r[i]) != IdOf(r[j]);
  }

  /** `readSessions` is that merge, and every session it shows has at least one task. */
  lemma ReadSessionsMerges(d: Disk, claudeDir: string, parse: string -> Option<Value>, now: int)
    requires AllSessions(d, claudeDir, parse, now).Some?
    ensures var legacy := LegacySessions(d, claudeDir, parse, now).value;
            var current := CurrentSessions(d, claudeDir, parse).value;
            && AllSessions(d, claudeDir, parse, now).value == MergeSessions(legacy, current)
            && (forall s :: s in legacy ==> s.tasks != [])
            && (forall s :: s in current ==> s.tasks != [])
  {
    var tasksDir := PathJoin(claudeDir, "tasks");
    var todosDir := PathJoin(claudeDir, "todos");
    if Exists(d, tasksDir) {
      CollectedHaveTasks(d, tasksDir, todosDir, ReadDir(d, tasksDir).value, parse, now);
    }
    if Exists(d, todosDir) {
      CollectedHaveTasks(d, tasksDir, todosDir, Filter(ReadDir(d, todosDir).value, IsJsonName), parse, now);
    }
  }
}
