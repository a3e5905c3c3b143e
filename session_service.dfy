/**
 * `SessionService` (src/services/SessionService.ts): a lazily filled cache
 * of `readSessions`, cleared by `invalidate` and `dismiss`; the persistent
 * set of dismissed `session/task` keys; and the read-time view of a
 * session, which drops dismissed tasks and flags in-progress tasks of
 * sessions idle for more than a day as stale without changing their status.
 */
module Sessions {
  import opened Common
  import opened JsValues
  import opened Disk
  import opened Paths
  import Text
  import TodoReader

  type Session = TodoReader.Session
  type Task = TodoReader.Task

  /** `STALE_MS`: 24 hours. */
  const STALE_MS: int := 24 * 60 * 60 * 1000

  const DISMISSED_FILE: string := "claudedash-dismissed.json"

  /** A task as served: the task itself, untouched, and whether `isStale` is set to `true`. */
  datatype TaskView = TaskView(task: Task, isStale: bool)

  /** `readMeta`'s result; each field is absent unless the file has it with the right type. */
  datatype Meta = Meta(linesAdded: Option<int>, gitCommits: Option<int>, languages: Option<Value>,
                       durationMinutes: Option<int>)

  /** An `EnrichedSession` (without `contextHealth`). */
  datatype SessionView = SessionView(id: string, tasks: seq<TaskView>, createdAt: int, updatedAt: int,
                                     meta: Option<Meta>)

  /** What `getSessions` returns. */
  datatype Listing = Listing(sessions: seq<SessionView>, total: nat, filtered: nat)

  /** What `getById` gives: it throws when reading the sessions throws, else a session or `null`. */
  datatype Lookup = Threw | NotFound | Found(session: SessionView)

  /** The single write `saveDismissed` attempts: the keys as a JSON array, in insertion order. */
  datatype Persist = Persist(path: string, keys: seq<Value>)

  // ---- dismiss keys --------------------------------------------------------

  /** `${sessionId}/${taskId}`. */
  function DismissKey(sessionId: string, taskId: string): (k: string)
    ensures |k| == |sessionId| + 1 + |taskId|
    ensures k[..|sessionId|] == sessionId && k[|sessionId|] == '/' && k[|sessionId| + 1..] == taskId
  {
    sessionId + "/" + taskId
  }

  /** Keys do not tell apart every pair: a slash may sit in either half. */
  lemma DismissKeyCollision()
    ensures DismissKey("a/b", "c") == DismissKey("a", "b/c")
  {
  }

  /** Without a slash in the session id (as with every id the reader produces), keys are unique per pair. */
  lemma DismissKeyInjective(s1: string, t1: string, s2: string, t2: string)
    requires '/' !in s1 && '/' !in s2
    requires DismissKey(s1, t1) == DismissKey(s2, t2)
    ensures s1 == s2 && t1 == t2
  {
    var k := DismissKey(s1, t1);
    var slash := Text.IndexOf(k, '/');
    assert slash == |s1| && slash == |s2|;
  }

  // ---- the dismissed set ---------------------------------------------------

  /** `new Set(arr)`: each element at its first position, later repeats dropped. */
  function FromArray(items: seq<Value>): (r: seq<Value>)
    ensures NoDuplicates(r)
    ensures forall y :: y in r <==> y in items
    ensures |r| <= |items|
  {
    if items == [] then [] else Adjoin(FromArray(items[..|items| - 1]), items[|items| - 1])
  }

  /** An array without repeats makes a set in the same order. */
  lemma {:induction false} FromArrayDistinct(items: seq<Value>)
    requires NoDuplicates(items)
    ensures FromArray(items) == items
  {
    if items != [] {
      var front := items[..|items| - 1];
      FromArrayDistinct(front);
      assert items[|items| - 1] !in front;
      assert items == front + [items[|items| - 1]];
    }
  }

  function DismissedPath(claudeDir: string): string {
    PathJoin(claudeDir, DISMISSED_FILE)
  }

  /** The array stored in `claudedash-dismissed.json`, when the file exists and holds one. */
  function StoredArray(d: Disk, claudeDir: string, parse: string -> Option<Value>): (r: Option<seq<Value>>)
    ensures r.Some? ==> ReadJson(d, DismissedPath(claudeDir), parse) == Some(Arr(r.value))
    ensures ReadJson(d, DismissedPath(claudeDir), parse).Some? && ReadJson(d, DismissedPath(claudeDir), parse).value.Arr?
            ==> r.Some?
  {
    var path := DismissedPath(claudeDir);
    if !Exists(d, path) then None
    else
      match ReadJson(d, path, parse)
      case Some(v) => if v.Arr? then Some(v.items) else None
      case None => None
  }

  /**
   * `loadDismissed`: the elements of the array in `claudedash-dismissed.json`;
   * empty when the file is missing, unreadable, not JSON or not an array.
   */
  function LoadDismissed(d: Disk, claudeDir: string, parse: string -> Option<Value>): (r: seq<Value>)
    ensures NoDuplicates(r)
    ensures StoredArray(d, claudeDir, parse).None? ==> r == []
    ensures StoredArray(d, claudeDir, parse).Some? ==>
              forall x :: x in r <==> x in StoredArray(d, claudeDir, parse).value
  {
    match StoredArray(d, claudeDir, parse)
    case Some(items) => FromArray(items)
    case None => []
  }

  /** A set persisted by `saveDismissed` loads back as the same keys in the same order. */
  lemma LoadSavedDismissed(d: Disk, claudeDir: string, parse: string -> Option<Value>,
                           stringify: Value -> string, keys: seq<Value>)
    requires NoDuplicates(keys)
    requires parse(stringify(Arr(keys))) == Some(Arr(keys))
    ensures var saved := d.(files := d.files[DismissedPath(claudeDir) := stringify(Arr(keys))]);
            LoadDismissed(saved, claudeDir, parse) == keys
  {
    FromArrayDistinct(keys);
  }

  // ---- read-time filters -----------------------------------------------------

  /** `null` and `0` switch the cutoff off; any other number keeps sessions updated at or after it. */
  predicate NoCutoff(cutoffMs: Option<int>) {
    cutoffMs.None? || cutoffMs.value == 0
  }

  function CutoffFilter(all: seq<Session>, cutoffMs: Option<int>): (r: seq<Session>)
    ensures |r| <= |all|
  {
    if NoCutoff(cutoffMs) then all else Filter(all, (s: Session) => s.updatedAt >= cutoffMs.value)
  }

  /** A session survives the cutoff exactly when there is none or it was updated at or after it. */
  lemma CutoffKeeps(all: seq<Session>, cutoffMs: Option<int>, s: Session)
    ensures s in CutoffFilter(all, cutoffMs) <==> s in all && (NoCutoff(cutoffMs) || s.updatedAt >= cutoffMs.value)
    ensures NoCutoff(cutoffMs) ==> CutoffFilter(all, cutoffMs) == all
  {
    if !NoCutoff(cutoffMs) {
      FilterKeepsExactly(all, (s: Session) => s.updatedAt >= cutoffMs.value, s);
    }
  }

  /** The tasks of `s` whose dismiss key is not in the set, in their order. */
  function KeptTasks(s: Session, dismissed: seq<Value>): seq<Task> {
    Filter(s.tasks, (t: Task) => Str(DismissKey(s.id, t.id)) !in dismissed)
  }

  /** `now - updatedAt > STALE_MS`. */
  predicate SessionIsStale(s: Session, now: int) {
    now - s.updatedAt > STALE_MS
  }

  /**
   * `buildSession` with the session's `readMeta` result: the non-dismissed
   * tasks, each flagged stale when it is in progress and the session is
   * stale; the other fields of the session are kept.
   */
  function BuildSession(s: Session, dismissed: seq<Value>, now: int, meta: Option<Meta>): (r: SessionView)
    ensures r.id == s.id && r.createdAt == s.createdAt && r.updatedAt == s.updatedAt && r.meta == meta
    ensures |r.tasks| <= |s.tasks|
    ensures forall i :: 0 <= i < |r.tasks| ==>
              && r.tasks[i].task in s.tasks
              && Str(DismissKey(s.id, r.tasks[i].task.id)) !in dismissed
              && (r.tasks[i].isStale <==> r.tasks[i].task.status == TodoReader.InProgress && SessionIsStale(s, now))
  {
    var kept := KeptTasks(s, dismissed);
    var stale := SessionIsStale(s, now);
    assert forall i :: 0 <= i < |kept| ==> kept[i] in kept;
    SessionView(s.id, seq(|kept|, i requires 0 <= i < |kept| => TaskView(kept[i], kept[i].status == TodoReader.InProgress && stale)),
                s.createdAt, s.updatedAt, meta)
  }

  /** The tasks of a view, without their flags. */
  function ViewTasks(v: SessionView): (r: seq<Task>)
    ensures |r| == |v.tasks|
  {
    seq(|v.tasks|, i requires 0 <= i < |v.tasks| => v.tasks[i].task)
  }

  /**
   * A built session shows the tasks of the session that are not dismissed,
   * in their order, every one of them with its status as read; a dismissed
   * task never shows.
   */
  lemma BuildSessionKeeps(s: Session, dismissed: seq<Value>, now: int, meta: Option<Meta>, t: Task)
    ensures ViewTasks(BuildSession(s, dismissed, now, meta)) == KeptTasks(s, dismissed)
    ensures t in ViewTasks(BuildSession(s, dismissed, now, meta)) <==>
              t in s.tasks && Str(DismissKey(s.id, t.id)) !in dismissed
  {
    FilterKeepsExactly(s.tasks, (t: Task) => Str(DismissKey(s.id, t.id)) !in dismissed, t);
  }

  /** Nothing is dismissed and the session is fresh: every task shows, none of them stale. */
  lemma BuildFreshSession(s: Session, now: int, meta: Option<Meta>)
    requires !SessionIsStale(s, now)
    ensures ViewTasks(BuildSession(s, [], now, meta)) == s.tasks
    ensures forall v :: v in BuildSession(s, [], now, meta).tasks ==> !v.isStale
  {
    FilterAll(s.tasks, (t: Task) => Str(DismissKey(s.id, t.id)) !in []);
  }

  lemma {:induction false} FilterAll<T>(s: seq<T>, p: T -> bool)
    requires forall x :: x in s ==> p(x)
    ensures Filter(s, p) == s
  {
    if s != [] {
      var front, last := s[..|s| - 1], s[|s| - 1];
      forall x | x in front
        ensures p(x)
      {
        var k :| 0 <= k < |front| && front[k] == x;
        assert s[k] == x;
      }
      FilterAll(front, p);
      assert p(last);
      assert s == front + [last];
    }
  }

  // ---- session metadata ------------------------------------------------------

  function MetaPath(claudeDir: string, sessionId: string): string {
    PathJoin(PathJoin(PathJoin(claudeDir, "usage-data"), "session-meta"), sessionId + ".json")
  }

  /** `typeof v === 'number' ? v : undefined`. */
  function NumberField(m: Value, key: string): (r: Option<int>)
    requires m.Obj?
    ensures r.Some? <==> Get(m.fields, key).Num?
  {
    match Get(m.fields, key)
    case Num(n) => Some(n)
    case _ => None
  }

  /**
   * `readMeta`: `null` when the file is missing or reading it throws
   * (unreadable, not JSON, or JSON `null`, whose fields cannot be read);
   * otherwise the numeric fields and a truthy object-typed `languages`.
   */
  function ReadMeta(d: Disk, claudeDir: string, parse: string -> Option<Value>, sessionId: string): (r: Option<Meta>)
    ensures r.Some? ==> var m := ReadJson(d, MetaPath(claudeDir, sessionId), parse);
                        && m.Some? && !m.value.Null? && !m.value.Undefined?
                        && (r.value.linesAdded.Some? <==> m.value.Obj? && Get(m.value.fields, "lines_added").Num?)
                        && (r.value.languages.Some? ==>
                              Truthy(Prop(m.value, "languages").value) && IsObjectType(Prop(m.value, "languages").value))
    ensures !Exists(d, MetaPath(claudeDir, sessionId)) ==> r.None?
  {
    var path := MetaPath(claudeDir, sessionId);
    if !Exists(d, path) then None
    else
      match ReadJson(d, path, parse)
      case None => None
      case Some(m) =>
        if m.Null? || m.Undefined? then None
        else if !m.Obj? then Some(Meta(None, None, None, None))
        else
          var langs := Get(m.fields, "languages");
          Some(Meta(NumberField(m, "lines_added"), NumberField(m, "git_commits"),
                    if Truthy(langs) && IsObjectType(langs) then Some(langs) else None,
                    NumberField(m, "duration_minutes")))
  }

  // ---- listings ----------------------------------------------------------------

  /** What `readSessions` always hands over: one entry per id, each with tasks, most recent first. */
  predicate WellFormed(all: seq<Session>) {
    && TodoReader.UniqueIds(all)
    && (forall s :: s in all ==> s.tasks != [])
    && (forall i, j :: 0 <= i <= j < |all| ==> all[i].updatedAt >= all[j].updatedAt)
  }

  lemma ReadSessionsWellFormed(d: Disk, claudeDir: string, parse: string -> Option<Value>, now: int)
    requires TodoReader.AllSessions(d, claudeDir, parse, now).Some?
    ensures WellFormed(TodoReader.AllSessions(d, claudeDir, parse, now).value)
  {
    TodoReader.ReadSessionsMerges(d, claudeDir, parse, now);
    TodoReader.MergePromises(TodoReader.LegacySessions(d, claudeDir, parse, now).value,
                             TodoReader.CurrentSessions(d, claudeDir, parse).value);
  }

  /** The views of the sessions, in order. */
  function Views(ss: seq<Session>, dismissed: seq<Value>, now: int, d: Disk, claudeDir: string,
                 parse: string -> Option<Value>): (r: seq<SessionView>)
    ensures |r| == |ss|
    ensures forall i :: 0 <= i < |r| ==> r[i].id == ss[i].id && r[i].updatedAt == ss[i].updatedAt
  {
    seq(|ss|, i requires 0 <= i < |ss| => BuildSession(ss[i], dismissed, now, ReadMeta(d, claudeDir, parse, ss[i].id)))
  }

  /** The listing of `getSessions` over the cached sessions. */
  function ListingOf(all: seq<Session>, cutoffMs: Option<int>, dismissed: seq<Value>, now: int, d: Disk,
                     claudeDir: string, parse: string -> Option<Value>): (l: Listing)
    ensures l.total == |all|
    ensures l.filtered == |l.sessions| <= l.total
    ensures NoCutoff(cutoffMs) ==> l.filtered == l.total
  {
    var kept := CutoffFilter(all, cutoffMs);
    Listing(Views(kept, dismissed, now, d, claudeDir, parse), |all|, |kept|)
  }

  /** Every cached session that passes the cutoff is listed, built with its own metadata. */
  lemma ListingIncludes(all: seq<Session>, cutoffMs: Option<int>, dismissed: seq<Value>, now: int, d: Disk,
                        claudeDir: string, parse: string -> Option<Value>, s: Session)
    requires s in all && (NoCutoff(cutoffMs) || s.updatedAt >= cutoffMs.value)
    ensures BuildSession(s, dismissed, now, ReadMeta(d, claudeDir, parse, s.id))
              in ListingOf(all, cutoffMs, dismissed, now, d, claudeDir, parse).sessions
  {
    var kept := CutoffFilter(all, cutoffMs);
    CutoffKeeps(all, cutoffMs, s);
    var i :| 0 <= i < |kept| && kept[i] == s;
    assert ListingOf(all, cutoffMs, dismissed, now, d, claudeDir, parse).sessions[i]
        == BuildSession(s, dismissed, now, ReadMeta(d, claudeDir, parse, s.id));
  }

  /** Every listed session is the view of a cached session that passes the cutoff, in the cache's order. */
  lemma ListingOnly(all: seq<Session>, cutoffMs: Option<int>, dismissed: seq<Value>, now: int, d: Disk,
                    claudeDir: string, parse: string -> Option<Value>)
    ensures var l := ListingOf(all, cutoffMs, dismissed, now, d, claudeDir, parse);
            var kept := CutoffFilter(all, cutoffMs);
            forall i :: 0 <= i < |l.sessions| ==>
              && kept[i] in all && (NoCutoff(cutoffMs) || kept[i].updatedAt >= cutoffMs.value)
              && l.sessions[i] == BuildSession(kept[i], dismissed, now, ReadMeta(d, claudeDir, parse, kept[i].id))
  {
    var kept := CutoffFilter(all, cutoffMs);
    forall i | 0 <= i < |kept|
      ensures kept[i] in all && (NoCutoff(cutoffMs) || kept[i].updatedAt >= cutoffMs.value)
    {
      CutoffKeeps(all, cutoffMs, kept[i]);
    }
  }

  /** `cache.find(sess => sess.id === id)`: the first session with that id. */
  function FindById(all: seq<Session>, id: string): (r: Option<Session>)
    ensures r.None? <==> forall s :: s in all ==> s.id != id
    ensures r.Some? ==> r.value in all && r.value.id == id
    ensures r.Some? ==> exists i :: 0 <= i < |all| && all[i] == r.value && forall j :: 0 <= j < i ==> all[j].id != id
  {
    if all == [] then None
    else if all[0].id == id then Some(all[0])
    else
      var r := FindById(all[1..], id);
      assert forall s :: s in all[1..] ==> s in all;
      if r.Some? then
        var i :| 0 <= i < |all[1..]| && all[1..][i] == r.value && forall j :: 0 <= j < i ==> all[1..][j].id != id;
        assert all[i + 1] == r.value;
        r
      else r
  }

  /** In a listing with one entry per id, the session found is the only one with that id. */
  lemma FindByIdUnique(all: seq<Session>, id: string, s: Session)
    requires TodoReader.UniqueIds(all)
    requires s in all && s.id == id
    ensures FindById(all, id) == Some(s)
  {
    var r := FindById(all, id);
    var i :| 0 <= i < |all| && all[i] == r.value;
    var k :| 0 <= k < |all| && all[k] == s;
    assert i == k;
  }

  class SessionService {
    const claudeDir: string
    /** `cache`: `None` is `null`. */
    var cache: Option<seq<Session>>
    /** `dismissed`, as its elements in insertion order. */
    var dismissed: seq<Value>

    ghost predicate Valid()
      reads this
    {
      NoDuplicates(dismissed) && (cache.Some? ==> WellFormed(cache.value))
    }

    /** `new SessionService(claudeDir)`: an empty cache and the dismissed keys on disk. */
    constructor(claudeDir: string, d: Disk, parse: string -> Option<Value>)
      ensures Valid()
      ensures this.claudeDir == claudeDir
      ensures cache.None? && dismissed == LoadDismissed(d, claudeDir, parse)
    {
      this.claudeDir := claudeDir;
      cache := None;
      dismissed := LoadDismissed(d, claudeDir, parse);
    }

    /** `invalidate`: drop the cache and nothing else. */
    method Invalidate()
      requires Valid()
      modifies this
      ensures Valid()
      ensures cache.None? && dismissed == old(dismissed)
    {
      cache := None;
    }

    /**
     * `dismiss`: add the task's key, write the whole set back (a failed
     * write is ignored) and drop the cache.
     */
    method Dismiss(sessionId: string, taskId: string) returns (write: Persist)
      requires Valid()
      modifies this
      ensures Valid()
      ensures dismissed == Adjoin(old(dismissed), Str(DismissKey(sessionId, taskId)))
      ensures Str(DismissKey(sessionId, taskId)) in dismissed
      ensures forall k :: k in old(dismissed) ==> k in dismissed
      ensures write == Persist(DismissedPath(claudeDir), dismissed)
      ensures cache.None?
    {
      dismissed := Adjoin(dismissed, Str(DismissKey(sessionId, taskId)));
      write := Persist(DismissedPath(claudeDir), dismissed);
      cache := None;
    }

    /**
     * Fill the cache from disk when it is empty. `None` when `readSessions`
     * throws, in which case the cache stays empty.
     */
    method Load(d: Disk, parse: string -> Option<Value>, now: int) returns (all: Option<seq<Session>>)
      requires Valid()
      modifies this
      ensures Valid()
      ensures dismissed == old(dismissed)
      ensures old(cache).Some? ==> cache == old(cache)
      ensures old(cache).None? ==> cache == TodoReader.AllSessions(d, claudeDir, parse, now)
      ensures all == cache
    {
      if cache.None? {
        cache := TodoReader.ReadSessions(d, claudeDir, parse, now);
        if cache.Some? {
          ReadSessionsWellFormed(d, claudeDir, parse, now);
        }
      }
      all := cache;
    }

    /**
     * `getSessions`: the cached sessions (read from disk only when there are
     * none) that pass the cutoff, each built for the moment `now`; `total`
     * counts every cached session. `None` when reading throws.
     */
    method GetSessions(cutoffMs: Option<int>, d: Disk, parse: string -> Option<Value>, now: int)
      returns (r: Option<Listing>)
      requires Valid()
      modifies this
      ensures Valid()
      ensures dismissed == old(dismissed)
      ensures old(cache).Some? ==> cache == old(cache)
      ensures old(cache).None? ==> cache == TodoReader.AllSessions(d, claudeDir, parse, now)
      ensures r.Some? <==> cache.Some?
      ensures r.Some? ==> r.value == ListingOf(cache.value, cutoffMs, dismissed, now, d, claudeDir, parse)
    {
      var all := Load(d, parse, now);
      if all.None? {
        return None;
      }
      r := Some(ListingOf(all.value, cutoffMs, dismissed, now, d, claudeDir, parse));
    }

    /**
     * `getById`: the first cached session with that id, built for `now`, or
     * `null` when there is none.
     */
    method GetById(id: string, d: Disk, parse: string -> Option<Value>, now: int) returns (r: Lookup)
      requires Valid()
      modifies this
      ensures Valid()
      ensures dismissed == old(dismissed)
      ensures old(cache).Some? ==> cache == old(cache)
      ensures old(cache).None? ==> cache == TodoReader.AllSessions(d, claudeDir, parse, now)
      ensures r.Threw? <==> cache.None?
      ensures r.NotFound? <==> cache.Some? && forall s :: s in cache.value ==> s.id != id
      ensures r.Found? ==>
                exists s :: s in cache.value && s.id == id
                            && r.session == BuildSession(s, dismissed, now, ReadMeta(d, claudeDir, parse, id))
    {
      var all := Load(d, parse, now);
      if all.None? {
        return Threw;
      }
      var s := FindById(all.value, id);
      if s.None? {
        return NotFound;
      }
      r := Found(BuildSession(s.value, dismissed, now, ReadMeta(d, claudeDir, parse, id)));
    }
  }

  /**
   * Dismissing a task hides it from the next listing, even one served from
   * a cache that was filled before: `dismiss` clears it.
   */
  method DismissScenario(svc: SessionService, sessionId: string, taskId: string, d: Disk,
                         parse: string -> Option<Value>, now: int)
    returns (listing: Option<Listing>)
    requires svc.Valid()
    modifies svc
    ensures listing.Some? <==> TodoReader.AllSessions(d, svc.claudeDir, parse, now).Some?
    ensures listing.Some? ==>
              forall i, k :: 0 <= i < |listing.value.sessions| && 0 <= k < |listing.value.sessions[i].tasks| ==>
                !(listing.value.sessions[i].id == sessionId && listing.value.sessions[i].tasks[k].task.id == taskId)
  {
    var _ := svc.Dismiss(sessionId, taskId);
    listing := svc.GetSessions(None, d, parse, now);
  }
}
