/**
 * `liveRoutes` (src/server/routes/live.ts): the state the live-mode routes
 * share (the SSE hub, the session service, the time of the last sessions
 * change and a ring of the last 100 hook events) and what each route does
 * with it. The current time is a parameter (`now` in milliseconds, `nowIso`
 * its ISO text); the transcript bytes are the oracle `raw` (`None` when the
 * file cannot be opened or read).
 */
module LiveRoutes {
  import opened Common
  import opened JsValues
  import opened Disk
  import opened Paths
  import Text
  import Ring
  import Hooks
  import Sessions
  import TodoReader
  import Hub
  import Watch
  import Tail
  import ContextSummary
  import Timelines

  /** The route keeps its own ring of hook events. */
  const HOOK_RING: nat := 100
  /** `tailRead(jsonlPath, 500)`. */
  const TAIL_LINES: nat := 500
  /** The window used when `days` is absent or empty. */
  const DEFAULT_DAYS: nat := 7

  /** What the hub sends: a watcher change (or a dismissal) or a hook event. */
  datatype Message = Change(kind: Watch.Kind, timestamp: string) | Hook(event: Hooks.Event)

  /**
   * The `days` query of `/sessions` as a cutoff in milliseconds: none for
   * `all` and `0`; seven days when it is absent or empty; otherwise
   * `parseInt(days, 10)` days back from `now`, and none when that is not a
   * positive number.
   */
  function DaysCutoff(days: Option<string>, now: int): (r: Option<int>)
    ensures days == Some("all") || days == Some("0") ==> r.None?
    ensures days.None? || days == Some("") ==> r == Some(now - DEFAULT_DAYS * Timelines.DAY_MS)
    ensures days.Some? && days.value !in {"", "all", "0"} ==>
              match Text.ParseInt(days.value)
              case Some(n) => r == (if n > 0 then Some(now - n * Timelines.DAY_MS) else None)
              case None => r.None?
  {
    if days == Some("all") || days == Some("0") then None
    else
      var n := if days.Some? && days.value != "" then Text.ParseInt(days.value) else Some(DEFAULT_DAYS as int);
      if n.Some? && n.value > 0 then Some(now - n.value * Timelines.DAY_MS) else None
  }

  /** The decimal text of a positive number of days selects exactly that many days. */
  lemma DaysRoundTrip(n: nat, now: int)
    requires n > 0
    ensures DaysCutoff(Some(Text.NatToString(n)), now) == Some(now - n * Timelines.DAY_MS)
  {
    var t := Text.NatToString(n);
    assert t != "all" by {
      assert Text.IsDigit(t[0]);
    }
    assert t != "0" by {
      Text.DigitsOfNat(n);
      assert Text.DigitsValue("0") == 0 by {
        assert "0"[..0] == "";
      }
    }
    assert t != "" by {
      assert |t| >= 1;
    }
    assert Text.ParseInt(t) == Some(n) by {
      Text.ParseIntOfNatToString(n);
    }
  }

  /**
   * The route's own event literal: the normalised fields first and the body
   * spread last, so every field the body carries overrides them, including
   * `type`, `event` and `receivedAt`.
   */
  function NormaliseInline(body: map<string, Value>, receivedAt: string): (e: Hooks.Event)
    ensures e.Keys == body.Keys + Hooks.NORMALISED_KEYS
    ensures forall k :: k in body ==> e[k] == body[k]
    ensures forall k :: k in Hooks.NORMALISED_KEYS && k !in body ==> e[k] == Hooks.Normalise(body, receivedAt)[k]
  {
    var event := if Get(body, "event").Str? then Get(body, "event") else Str("unknown");
    var tool := if Get(body, "tool").Str? && Get(body, "tool").s != "" then Get(body, "tool") else Undefined;
    map[
      "type" := Str("hook"),
      "event" := event,
      "tool" := tool,
      "session" := Hooks.StringOrUndefined(body, "session"),
      "cwd" := Hooks.StringOrUndefined(body, "cwd"),
      "receivedAt" := Str(receivedAt)] + body
  }

  /**
   * The route and `HookService.push` build the same event exactly when every
   * normalised field the body carries already holds the value `push` would
   * give it.
   */
  lemma InlineMatchesServiceIff(body: map<string, Value>, receivedAt: string)
    ensures NormaliseInline(body, receivedAt) == Hooks.Normalise(body, receivedAt) <==>
              forall k :: k in body && k in Hooks.NORMALISED_KEYS ==> body[k] == Hooks.Normalise(body, receivedAt)[k]
  {
    var a := NormaliseInline(body, receivedAt);
    var b := Hooks.Normalise(body, receivedAt);
    if forall k :: k in body && k in Hooks.NORMALISED_KEYS ==> body[k] == b[k] {
      assert a.Keys == b.Keys;
      forall k | k in a
        ensures a[k] == b[k]
      {
      }
    }
  }

  /**
   * A body whose `type` is not `'hook'` yields, in the route, an event that
   * breaks the `HookEvent` shape, while `HookService` still yields a hook event.
   */
  lemma InlineKeepsForeignType(receivedAt: string)
    ensures NormaliseInline(map["type" := Str("x")], receivedAt)["type"] == Str("x")
    ensures !Hooks.IsHookEvent(NormaliseInline(map["type" := Str("x")], receivedAt))
    ensures Hooks.IsHookEvent(Hooks.Normalise(map["type" := Str("x")], receivedAt))
  {
    Hooks.NormaliseIsHookEvent(map["type" := Str("x")], receivedAt);
  }

  /** A body's own `receivedAt` replaces the time the server received it. */
  lemma InlineKeepsForeignTime(receivedAt: string, claimed: string)
    ensures NormaliseInline(map["receivedAt" := Str(claimed)], receivedAt)["receivedAt"] == Str(claimed)
  {
  }

  /**
   * `{...body}` for the parsed request body: an object's own fields, an
   * array's or a string's elements under their decimal indices, and nothing
   * for a number, a boolean or `null`.
   */
  function Spread(body: Value): (r: map<string, Value>)
    ensures body.Obj? ==> r == body.fields
    ensures body.Arr? ==> r == Indexed(body.items)
    ensures body.Str? ==> r == Indexed(Chars(body.s))
    ensures !body.Obj? && !body.Arr? && !body.Str? ==> r == map[]
  {
    match body
    case Obj(fields) => fields
    case Arr(items) => Indexed(items)
    case Str(s) => Indexed(Chars(s))
    case _ => map[]
  }

  /** The characters of a string as one-character strings. */
  function Chars(s: string): (r: seq<Value>)
    ensures |r| == |s| && forall i :: 0 <= i < |s| ==> r[i] == Str([s[i]])
  {
    seq(|s|, i requires 0 <= i < |s| => Str([s[i]]))
  }

  /** The elements of a sequence under their decimal indices, as spreading an array yields them. */
  function Indexed(items: seq<Value>): map<string, Value> {
    if items == [] then map[]
    else Indexed(items[..|items| - 1])[Text.NatToString(|items| - 1) := items[|items| - 1]]
  }

  /** Every element sits under its own index's name. */
  lemma {:induction false} IndexedAt(items: seq<Value>, i: nat)
    requires i < |items|
    ensures Text.NatToString(i) in Indexed(items) && Indexed(items)[Text.NatToString(i)] == items[i]
  {
    var n := |items| - 1;
    if i < n {
      IndexedAt(items[..n], i);
      IndexNamesDistinct(i, n);
    }
  }

  /** Every key is the name of an index. */
  lemma {:induction false} IndexedKeys(items: seq<Value>, k: string)
    requires k in Indexed(items)
    ensures exists i :: 0 <= i < |items| && k == Text.NatToString(i)
  {
    var n := |items| - 1;
    if k != Text.NatToString(n) {
      IndexedKeys(items[..n], k);
    }
  }

  /** Different indices have different decimal names. */
  lemma IndexNamesDistinct(i: nat, j: nat)
    requires i != j
    ensures Text.NatToString(i) != Text.NatToString(j)
  {
    Text.ParseIntOfNatToString(i);
    Text.ParseIntOfNatToString(j);
  }

  /** The body `{}` of a request without one, and `"ab"` spread into index keys. */
  lemma SpreadOfText()
    ensures Spread(Nullish(Null, Obj(map[]))) == map[]
    ensures Spread(Str("ab")) == map["0" := Str("a"), "1" := Str("b")]
  {
    var chars := Chars("ab");
    assert Text.NatToString(0) == "0" && Text.NatToString(1) == "1" by {
      assert Text.NatToString(0) == [Text.DigitChar(0)];
      assert Text.NatToString(1) == [Text.DigitChar(1)];
    }
    assert chars == [Str("a"), Str("b")];
    assert Indexed(chars[..1]) == map["0" := Str("a")] by {
      assert chars[..1][..0] == [];
    }
    assert Indexed(chars) == map["0" := Str("a")]["1" := Str("b")];
  }

  /**
   * The route's snapshot cwd, `hookEvent.cwd ?? (planDir ? join(planDir, '..')
   * : process.cwd())`: the route's event holds whatever `cwd` the body sent,
   * so every value other than `null` and `undefined` is kept, a number
   * included.
   */
  function InlineCwd(planDir: Option<string>, e: Hooks.Event, processCwd: string): (v: Value)
    ensures Get(e, "cwd").Str? ==> v == Get(e, "cwd")
    ensures !Get(e, "cwd").Undefined? && !Get(e, "cwd").Null? ==> v == Get(e, "cwd")
    ensures Get(e, "cwd").Undefined? || Get(e, "cwd").Null? ==>
              v == Str(if Hooks.Truthful(planDir) then PathJoin(planDir.value, "..") else processCwd)
  {
    Nullish(Get(e, "cwd"), Str(if Hooks.Truthful(planDir) then PathJoin(planDir.value, "..") else processCwd))
  }

  /** `planDir ?? join(snapshotCwd, '.claudedash')`: `None` when `join` throws on a cwd that is not a string. */
  function InlineSnapshotDir(planDir: Option<string>, cwd: Value): (r: Option<string>)
    ensures r.None? <==> planDir.None? && !cwd.Str?
    ensures planDir.Some? ==> r == planDir
    ensures planDir.None? && cwd.Str? ==> r == Some(PathJoin(cwd.s, ".claudedash"))
  {
    if planDir.Some? then planDir
    else if cwd.Str? then Some(PathJoin(cwd.s, ".claudedash"))
    else None
  }

  /**
   * The route's PreCompact block: nothing when the event is another one; a
   * throw (the request fails after the push and the broadcast) when the
   * snapshot directory cannot be computed; otherwise the steps attempted and
   * whether a commit was made.
   */
  datatype PreCompactRun = PreCompactSkipped | PreCompactThrew | PreCompactRan(trace: seq<Hooks.Effect>, commitMade: bool)

  /**
   * What the route's PreCompact steps promise: the git steps when auto-commit
   * is on, where a cwd that is not a string makes `git add` fail; the capture
   * in the route's cwd and snapshot directory; the compact-state write exactly
   * when `Hooks.WritesCompactState` holds, as the last step.
   */
  ghost predicate InlinePipeline(planDir: Option<string>, e: Hooks.Event, d: Disk, parse: string -> Option<Value>,
                                 addOk: bool, commitOk: bool, snapshot: (string, string) -> Option<Hooks.StateSnapshot>,
                                 processCwd: string, trace: seq<Hooks.Effect>, commitMade: bool)
  {
    var cwd := InlineCwd(planDir, e, processCwd);
    var auto := Hooks.AutoCommit(planDir, d, parse);
    && InlineSnapshotDir(planDir, cwd).Some?
    && (commitMade <==> auto && cwd.Str? && addOk && commitOk)
    && Hooks.InPipelineOrder(trace)
    && (Hooks.HasStage(trace, 0) <==> auto)
    && (Hooks.HasStage(trace, 1) <==> auto && cwd.Str? && addOk)
    && (exists i :: 0 <= i < |trace| && trace[i] == Hooks.CaptureContext(cwd, commitMade, InlineSnapshotDir(planDir, cwd).value))
    && (forall i :: 0 <= i < |trace| && (trace[i].GitAdd? || trace[i].GitCommit?) ==> trace[i].cwd == cwd)
    && (Hooks.HasStage(trace, 3) <==> Hooks.WritesCompactState(planDir, d, snapshot))
    && (Hooks.WritesCompactState(planDir, d, snapshot) ==>
          trace[|trace| - 1] == Hooks.WriteCompactState(PathJoin(planDir.value, "compact-state.json"),
                                                        Hooks.CompactState(e, Hooks.CompactSnapshot(planDir, d, snapshot))))
  }

  /**
   * The `/hook` route's own PreCompact steps on its event: the snapshot cwd
   * and directory, the optional git commit, the context capture and the
   * compact-state write. Node rejects a cwd that is not a string, so `git add`
   * then fails whatever `addOk` says.
   */
  method InlinePreCompact(planDir: Option<string>, e: Hooks.Event, d: Disk, parse: string -> Option<Value>,
                          addOk: bool, commitOk: bool, snapshot: (string, string) -> Option<Hooks.StateSnapshot>,
                          processCwd: string)
    returns (r: PreCompactRun)
    ensures !r.PreCompactSkipped?
    ensures r.PreCompactThrew? <==> planDir.None? && !InlineCwd(planDir, e, processCwd).Str?
    ensures r.PreCompactRan? ==> InlinePipeline(planDir, e, d, parse, addOk, commitOk, snapshot, processCwd, r.trace, r.commitMade)
  {
    var snapshotCwd := InlineCwd(planDir, e, processCwd);
    var snapshotDir := InlineSnapshotDir(planDir, snapshotCwd);
    if snapshotDir.None? {
      return PreCompactThrew;
    }
    var git, commitMade := Hooks.GitSteps(Hooks.AutoCommit(planDir, d, parse), addOk && snapshotCwd.Str?, commitOk, snapshotCwd);
    var capture := Hooks.CaptureContext(snapshotCwd, commitMade, snapshotDir.value);
    var write := Hooks.CompactStateStep(planDir, e, d, snapshot);
    var trace := git + [capture] + write;
    Hooks.PipelineParts(git, capture, write);
    assert trace[|git|] == capture;
    r := PreCompactRan(trace, commitMade);
  }

  /**
   * The `/hook` route's blocks after the broadcast: the PreCompact steps for a
   * `PreCompact` event (a throw there ends the request) and the PostCompact
   * note for a `PostCompact` event.
   */
  method InlineCompactSteps(planDir: Option<string>, e: Hooks.Event, d: Disk, parse: string -> Option<Value>,
                            addOk: bool, commitOk: bool, snapshot: (string, string) -> Option<Hooks.StateSnapshot>,
                            processCwd: string)
    returns (pre: PreCompactRun, append: Option<Hooks.Append>)
    ensures pre.PreCompactSkipped? <==> Get(e, "event") != Str("PreCompact")
    ensures Get(e, "event") == Str("PreCompact") ==>
              (pre.PreCompactThrew? <==> planDir.None? && !InlineCwd(planDir, e, processCwd).Str?)
    ensures pre.PreCompactRan? ==>
              InlinePipeline(planDir, e, d, parse, addOk, commitOk, snapshot, processCwd, pre.trace, pre.commitMade)
    ensures Get(e, "event") != Str("PostCompact") ==> append.None?
    ensures Get(e, "event") == Str("PostCompact") ==> append == Hooks.RestoreAppend(planDir, e, d, parse)
  {
    pre := PreCompactSkipped;
    append := None;
    if Get(e, "event") == Str("PreCompact") {
      pre := InlinePreCompact(planDir, e, d, parse, addOk, commitOk, snapshot, processCwd);
      if pre.PreCompactThrew? {
        return;
      }
    }
    if Get(e, "event") == Str("PostCompact") {
      append := Hooks.RestoreAppend(planDir, e, d, parse);
    }
  }

  /**
   * For a hook event (what `HookService.push` builds) the route computes the
   * same snapshot cwd and directory as `HookService.handlePreCompact`.
   */
  lemma InlineCwdAgreesOnHookEvents(h: Hooks.HookService, e: Hooks.Event, processCwd: string)
    requires Hooks.IsHookEvent(e)
    ensures InlineCwd(h.planDir, e, processCwd) == Str(h.SnapshotCwd(e, processCwd))
    ensures InlineSnapshotDir(h.planDir, InlineCwd(h.planDir, e, processCwd)) == Some(h.SnapshotDir(e, processCwd))
  {
  }

  /**
   * A body `{"event": "PreCompact", "cwd": 5, "session": 5}`: without a plan
   * directory the route throws while computing the snapshot directory, where
   * `HookService` drops the number and falls back to `process.cwd()`; and the
   * route's compact-state would carry the number as its `sessionId`.
   */
  lemma InlinePreCompactDiverges(h: Hooks.HookService, receivedAt: string, processCwd: string, snap: Hooks.StateSnapshot)
    requires h.planDir.None?
    ensures var body := map["event" := Str("PreCompact"), "cwd" := Num(5), "session" := Num(5)];
            var inline := NormaliseInline(body, receivedAt);
            var pushed := Hooks.Normalise(body, receivedAt);
            && InlineSnapshotDir(h.planDir, InlineCwd(h.planDir, inline, processCwd)).None?
            && h.SnapshotCwd(pushed, processCwd) == processCwd
            && Hooks.CompactState(inline, snap).fields["sessionId"] == Num(5)
            && Hooks.CompactState(pushed, snap).fields["sessionId"] == Null
  {
    var body := map["event" := Str("PreCompact"), "cwd" := Num(5), "session" := Num(5)];
    Hooks.NormaliseIsHookEvent(body, receivedAt);
  }

  /** What `/health` reports. */
  datatype HealthReply = HealthReply(live: bool, plan: bool, connectedClients: nat, lastSessions: Option<string>, autoCommit: bool)

  /** What `/hook/events` reports. */
  datatype HookEventsReply = HookEventsReply(events: seq<Hooks.Event>, autoCommit: bool, hooksInstalled: bool)

  /** `/sessions/:id/resume-cmd`: the command, or 404; `Failed` when reading the sessions throws. */
  datatype ResumeReply = Resume(command: string, sessionId: string) | ResumeNotFound | ResumeFailed

  /** `/sessions/:id`: the session, or `{ session: null, error }`; `Failed` when reading the sessions throws. */
  datatype SessionReply = SessionFound(session: Sessions.SessionView) | SessionNull | SessionFailed

  /** `/sessions/:id/context`: 404 without a transcript, otherwise the summary. */
  datatype ContextReply =
    | NoTranscript
    | Context(sessionId: string, messageCount: nat, lastUserPrompt: Option<string>,
              lastAssistantSummary: Option<string>, toolCounts: map<string, nat>, recentTools: seq<string>)

  /** `join(projectsDir, dir, `${id}.jsonl`)`. */
  function Candidate(projectsDir: string, dir: string, id: string): string {
    PathJoin(PathJoin(projectsDir, dir), id + ".jsonl")
  }

  /**
   * The transcript of session `id` among the project directories `dirs`: the
   * candidate under the first directory where it exists.
   */
  function FirstTranscript(projectsDir: string, dirs: seq<string>, id: string, d: Disk): (r: Option<string>)
    ensures r.None? <==> forall k :: 0 <= k < |dirs| ==> !Exists(d, Candidate(projectsDir, dirs[k], id))
    ensures r.Some? ==> exists k :: 0 <= k < |dirs| && r.value == Candidate(projectsDir, dirs[k], id)
                                    && Exists(d, r.value)
                                    && forall j :: 0 <= j < k ==> !Exists(d, Candidate(projectsDir, dirs[j], id))
  {
    if dirs == [] then None
    else if Exists(d, Candidate(projectsDir, dirs[0], id)) then Some(Candidate(projectsDir, dirs[0], id))
    else
      var r := FirstTranscript(projectsDir, dirs[1..], id, d);
      assert forall k :: 1 <= k < |dirs| ==> dirs[k] == dirs[1..][k - 1];
      if r.Some? then
        var k :| 0 <= k < |dirs[1..]| && r.value == Candidate(projectsDir, dirs[1..][k], id)
                 && Exists(d, r.value)
                 && forall j :: 0 <= j < k ==> !Exists(d, Candidate(projectsDir, dirs[1..][j], id));
        assert forall j :: 0 <= j < k + 1 ==> !Exists(d, Candidate(projectsDir, dirs[j], id)) by {
          assert forall j :: 1 <= j < k + 1 ==> dirs[j] == dirs[1..][j - 1];
        }
        r
      else r
  }

  /** Where the route looks: `projects` under the agent's directory, when it exists and can be listed. */
  function TranscriptPath(claudeDir: string, id: string, d: Disk): Option<string> {
    var projectsDir := PathJoin(claudeDir, "projects");
    if !Exists(d, projectsDir) then None
    else
      match ReadDir(d, projectsDir)
      case None => None
      case Some(dirs) => FirstTranscript(projectsDir, dirs, id, d)
  }

  /** The route's search loop, which stops at the first directory holding the transcript. */
  method FindTranscript(claudeDir: string, id: string, d: Disk) returns (path: Option<string>)
    ensures path == TranscriptPath(claudeDir, id, d)
  {
    var projectsDir := PathJoin(claudeDir, "projects");
    path := None;
    if !Exists(d, projectsDir) {
      return;
    }
    var listing := ReadDir(d, projectsDir);
    if listing.None? {
      return;
    }
    var dirs := listing.value;
    var i := 0;
    while i < |dirs|
      invariant i <= |dirs|
      invariant FirstTranscript(projectsDir, dirs[i..], id, d) == FirstTranscript(projectsDir, dirs, id, d)
    {
      var candidate := Candidate(projectsDir, dirs[i], id);
      if Exists(d, candidate) {
        path := Some(candidate);
        return;
      }
      assert dirs[i..][1..] == dirs[i + 1..];
      i := i + 1;
    }
  }

  /**
   * As written, a transcript with fewer newlines than the context route asks
   * for is summarised from no lines at all: no prompt, no summary, no tool
   * counts and no recent tools, while its message count is its newline count.
   */
  lemma ShortTranscriptSummarisesNothing(buf: seq<byte>, decode: seq<byte> -> string, parse: string -> Option<Value>)
    requires buf != [] && Tail.Newlines(buf) < TAIL_LINES && decode([]) == ""
    ensures var lines := Tail.TailOf(Some(buf), TAIL_LINES, decode);
            && lines == []
            && ContextSummary.SummaryOf(lines, parse) == ContextSummary.EMPTY
            && ContextSummary.RecentTools(ContextSummary.EMPTY) == []
            && Tail.TotalOf(Some(buf), TAIL_LINES, lines) == Tail.Newlines(buf)
  {
    var lines := Tail.TailOf(Some(buf), TAIL_LINES, decode);
    assert lines == [] by {
      Tail.ShortFileNoLines(buf, TAIL_LINES, decode);
    }
    assert Tail.TotalOf(Some(buf), TAIL_LINES, []) == Tail.Newlines(buf) by {
      Tail.WholeScanEstimate(buf, TAIL_LINES);
    }
    ContextSummary.NoRecentTools();
  }

  /** With the corrected read, the same transcript is summarised from all of its non-blank lines. */
  lemma ShortTranscriptSummarisedWhole(buf: seq<byte>, decode: seq<byte> -> string)
    requires buf != [] && Tail.Newlines(buf) < TAIL_LINES
    ensures Tail.TailOfFixed(Some(buf), TAIL_LINES, decode)
            == Filter(Tail.Decoded(Text.Split(buf, Tail.NEWLINE), decode), Tail.NonBlank)
  {
    Tail.TailLinesFixedAreLastPieces(buf, TAIL_LINES, decode);
    Tail.SplitCount(buf);
  }

  class LiveState {
    const claudeDir: string
    const planDir: Option<string>
    const hub: Hub.SseHub<Message>
    const sessions: Sessions.SessionService
    /** `lastSessions`: when the watcher last reported a sessions change. */
    var lastSessions: Option<string>
    /** `hookEvents`, oldest first. */
    var hookEvents: seq<Hooks.Event>

    ghost predicate Valid()
      reads this, hub, sessions
    {
      && hub.Valid()
      && sessions.Valid()
      && sessions.claudeDir == claudeDir
      && |hookEvents| <= HOOK_RING
    }

    /** The start of `liveRoutes`: a fresh hub and session service, no sessions change yet, no hook events. */
    constructor(claudeDir: string, planDir: Option<string>, d: Disk, parse: string -> Option<Value>, now: int)
      ensures Valid()
      ensures this.claudeDir == claudeDir && this.planDir == planDir
      ensures fresh(hub) && fresh(sessions)
      ensures hub.clients == [] && sessions.cache.None?
      ensures lastSessions.None? && hookEvents == []
    {
      this.claudeDir := claudeDir;
      this.planDir := planDir;
      hub := new Hub.SseHub<Message>(now);
      sessions := new Sessions.SessionService(claudeDir, d, parse);
      lastSessions := None;
      hookEvents := [];
    }

    /**
     * The `change` listener: a sessions change records its time and drops the
     * session cache; every change is broadcast to all clients.
     */
    method OnChange(kind: Watch.Kind, timestamp: string, nowIso: string) returns (calls: seq<(Hub.SendId, Message)>)
      requires Valid()
      modifies this, sessions
      ensures Valid()
      ensures kind == Watch.Sessions ==>
                lastSessions == Some(nowIso) && sessions.cache.None? && sessions.dismissed == old(sessions.dismissed)
      ensures kind == Watch.Plan ==> lastSessions == old(lastSessions) && unchanged(sessions)
      ensures hookEvents == old(hookEvents)
      ensures |calls| == |hub.clients|
      ensures forall i :: 0 <= i < |calls| ==> calls[i] == (hub.clients[i], Change(kind, timestamp))
    {
      if kind == Watch.Sessions {
        lastSessions := Some(nowIso);
        sessions.Invalidate();
      }
      calls := hub.Broadcast(Change(kind, timestamp));
    }

    /**
     * `/health`: live mode when the tasks or todos directory exists, plan
     * mode when the plan directory holds `queue.md`, the number of connected
     * clients, the last sessions change and the auto-commit setting.
     */
    function Health(d: Disk, parse: string -> Option<Value>): (h: HealthReply)
      reads this, hub
      requires hub.Valid()
      ensures h.live <==> Exists(d, PathJoin(claudeDir, "tasks")) || Exists(d, PathJoin(claudeDir, "todos"))
      ensures h.plan <==> Hooks.Truthful(planDir) && Exists(d, PathJoin(planDir.value, "queue.md"))
      ensures h.connectedClients == |Hub.ToSet(hub.clients)|
      ensures h.lastSessions == lastSessions
      ensures h.autoCommit ==> Hooks.Truthful(planDir) && Hooks.ConfigFile(planDir.value) in d.files
      ensures h.autoCommit == Hooks.AutoCommit(planDir, d, parse)
    {
      HealthReply(
        Exists(d, PathJoin(claudeDir, "tasks")) || Exists(d, PathJoin(claudeDir, "todos")),
        Hooks.Truthful(planDir) && Exists(d, PathJoin(planDir.value, "queue.md")),
        hub.ClientCount(),
        lastSessions,
        Hooks.AutoCommit(planDir, d, parse))
    }

    /** `/sessions`: the listing for the cutoff the `days` query selects. */
    method ListSessions(days: Option<string>, d: Disk, parse: string -> Option<Value>, now: int)
      returns (r: Option<Sessions.Listing>)
      requires Valid()
      modifies sessions
      ensures Valid()
      ensures sessions.dismissed == old(sessions.dismissed)
      ensures old(sessions.cache).None? ==> sessions.cache == TodoReader.AllSessions(d, claudeDir, parse, now)
      ensures r.Some? <==> sessions.cache.Some?
      ensures r.Some? ==>
                r.value == Sessions.ListingOf(sessions.cache.value, DaysCutoff(days, now), sessions.dismissed,
                                              now, d, claudeDir, parse)
    {
      r := sessions.GetSessions(DaysCutoff(days, now), d, parse, now);
    }

    /** `/sessions/:id`: the session built for `now`, or a `null` session when no cached session has the id. */
    method SessionById(id: string, d: Disk, parse: string -> Option<Value>, now: int) returns (r: SessionReply)
      requires Valid()
      modifies sessions
      ensures Valid()
      ensures sessions.dismissed == old(sessions.dismissed)
      ensures r.SessionFailed? <==> sessions.cache.None?
      ensures r.SessionNull? <==> sessions.cache.Some? && forall s :: s in sessions.cache.value ==> s.id != id
      ensures old(sessions.cache).None? ==> sessions.cache == TodoReader.AllSessions(d, claudeDir, parse, now)
      ensures old(sessions.cache).Some? ==> sessions.cache == old(sessions.cache)
      ensures r.SessionFound? ==>
                exists s :: s in sessions.cache.value && s.id == id
                  && r.session == Sessions.BuildSession(s, sessions.dismissed, now, Sessions.ReadMeta(d, claudeDir, parse, id))
    {
      var found := sessions.GetById(id, d, parse, now);
      match found
      case Threw => r := SessionFailed;
      case NotFound => r := SessionNull;
      case Found(view) =>
        r := SessionFound(view);
        var s :| s in sessions.cache.value && s.id == id
                 && view == Sessions.BuildSession(s, sessions.dismissed, now, Sessions.ReadMeta(d, claudeDir, parse, id));
    }

    /** `/sessions/:id/resume-cmd`: `claude resume <id>` for a known session, 404 otherwise. */
    method ResumeCommand(id: string, d: Disk, parse: string -> Option<Value>, now: int) returns (r: ResumeReply)
      requires Valid()
      modifies sessions
      ensures Valid()
      ensures sessions.dismissed == old(sessions.dismissed)
      ensures r.ResumeFailed? <==> sessions.cache.None?
      ensures r.ResumeNotFound? <==> sessions.cache.Some? && forall s :: s in sessions.cache.value ==> s.id != id
      ensures r.Resume? ==> r.command == "claude resume " + id && r.sessionId == id
      ensures r.Resume? ==> exists s :: s in sessions.cache.value && s.id == id
    {
      var found := sessions.GetById(id, d, parse, now);
      match found
      case Threw => r := ResumeFailed;
      case NotFound => r := ResumeNotFound;
      case Found(_) => r := Resume("claude resume " + id, id);
    }

    /** `DELETE /sessions/:sessionId/tasks/:taskId`: dismiss the task, then tell every client the sessions changed. */
    method DismissTask(sessionId: string, taskId: string, nowIso: string)
      returns (write: Sessions.Persist, calls: seq<(Hub.SendId, Message)>)
      requires Valid()
      modifies sessions
      ensures Valid()
      ensures sessions.dismissed == Adjoin(old(sessions.dismissed), Str(Sessions.DismissKey(sessionId, taskId)))
      ensures sessions.cache.None?
      ensures write == Sessions.Persist(Sessions.DismissedPath(claudeDir), sessions.dismissed)
      ensures |calls| == |hub.clients|
      ensures forall i :: 0 <= i < |calls| ==> calls[i] == (hub.clients[i], Change(Watch.Sessions, nowIso))
    {
      write := sessions.Dismiss(sessionId, taskId);
      calls := hub.Broadcast(Change(Watch.Sessions, nowIso));
    }

    /**
     * `POST /hook`: build the event (`request.body ?? {}` spread last), keep
     * it in the ring and broadcast it; then run the route's own PreCompact
     * steps for a `PreCompact` event and its PostCompact note for a
     * `PostCompact` event. `body` is the parsed request body (`undefined`
     * when there is none); `addOk`, `commitOk`, `snapshot` and `processCwd`
     * are the oracles of `HookService.HandlePreCompact`.
     */
    method PostHook(body: Value, receivedAt: string, d: Disk, parse: string -> Option<Value>,
                    addOk: bool, commitOk: bool, snapshot: (string, string) -> Option<Hooks.StateSnapshot>, processCwd: string)
      returns (e: Hooks.Event, calls: seq<(Hub.SendId, Message)>, pre: PreCompactRun, append: Option<Hooks.Append>)
      requires Valid()
      modifies this
      ensures Valid()
      ensures e == NormaliseInline(Spread(Nullish(body, Obj(map[]))), receivedAt)
      ensures hookEvents == Ring.Push(old(hookEvents), e, HOOK_RING)
      ensures Reverse(hookEvents) == [e] + Take(Reverse(old(hookEvents)), HOOK_RING - 1)
      ensures lastSessions == old(lastSessions)
      ensures |calls| == |hub.clients|
      ensures forall i :: 0 <= i < |calls| ==> calls[i] == (hub.clients[i], Hook(e))
      ensures pre.PreCompactSkipped? <==> e["event"] != Str("PreCompact")
      ensures e["event"] == Str("PreCompact") ==>
                (pre.PreCompactThrew? <==> planDir.None? && !InlineCwd(planDir, e, processCwd).Str?)
      ensures pre.PreCompactRan? ==>
                InlinePipeline(planDir, e, d, parse, addOk, commitOk, snapshot, processCwd, pre.trace, pre.commitMade)
      ensures e["event"] != Str("PostCompact") ==> append.None?
      ensures e["event"] == Str("PostCompact") ==> append == Hooks.RestoreAppend(planDir, e, d, parse)
    {
      e := NormaliseInline(Spread(Nullish(body, Obj(map[]))), receivedAt);
      hookEvents := hookEvents + [e];
      if |hookEvents| > HOOK_RING {
        hookEvents := hookEvents[1..];
      }
      Ring.PushNewestFirst(old(hookEvents), e, HOOK_RING);
      calls := hub.Broadcast(Hook(e));
      pre, append := InlineCompactSteps(planDir, e, d, parse, addOk, commitOk, snapshot, processCwd);
    }

    /** `/hook/events`: the ring newest first, with the auto-commit and hooks-installed flags. */
    function HookEvents(d: Disk, parse: string -> Option<Value>, stringify: Value -> string): (r: HookEventsReply)
      reads this
      ensures |r.events| == |hookEvents|
      ensures forall k :: 0 <= k < |hookEvents| ==> r.events[k] == hookEvents[|hookEvents| - 1 - k]
      ensures r.autoCommit ==> Hooks.Truthful(planDir) && Hooks.ConfigFile(planDir.value) in d.files
      ensures r.hooksInstalled ==> Exists(d, Hooks.SettingsFile(claudeDir))
      ensures r.autoCommit == Hooks.AutoCommit(planDir, d, parse)
      ensures r.hooksInstalled == Hooks.HooksInstalled(claudeDir, d, parse, stringify)
    {
      HookEventsReply(Reverse(hookEvents), Hooks.AutoCommit(planDir, d, parse), Hooks.HooksInstalled(claudeDir, d, parse, stringify))
    }

    /**
     * `/sessions/:id/context`, as written: find the transcript, read its last
     * 500 lines with `tailRead` and summarise them; 404 when there is no
     * transcript. A transcript with fewer than 500 newlines yields no lines,
     * so its summary is empty.
     */
    method ContextOf(id: string, d: Disk, raw: string -> Option<seq<byte>>, parse: string -> Option<Value>,
                     decode: seq<byte> -> string)
      returns (r: ContextReply)
      ensures r.NoTranscript? <==> TranscriptPath(claudeDir, id, d).None?
      ensures r.Context? ==>
                var file := raw(TranscriptPath(claudeDir, id, d).value);
                var lines := Tail.TailOf(file, TAIL_LINES, decode);
                var s := ContextSummary.SummaryOf(lines, parse);
                && r.sessionId == id
                && r.messageCount == Tail.TotalOf(file, TAIL_LINES, lines)
                && r.lastUserPrompt == s.lastUserPrompt
                && r.lastAssistantSummary == s.lastAssistantSummary
                && r.toolCounts == s.toolCounts
                && r.recentTools == ContextSummary.RecentTools(s)
    {
      var path := FindTranscript(claudeDir, id, d);
      if path.None? {
        return NoTranscript;
      }
      var tail := Tail.TailRead(raw(path.value), TAIL_LINES, decode);
      var s := ContextSummary.Summarize(tail.lines, parse);
      r := Context(id, tail.totalLines, s.lastUserPrompt, s.lastAssistantSummary, s.toolCounts,
                   ContextSummary.RecentTools(s));
    }

    /** The same route over the corrected `tailRead`, which reads a short transcript from its start. */
    method ContextOfFixed(id: string, d: Disk, raw: string -> Option<seq<byte>>, parse: string -> Option<Value>,
                          decode: seq<byte> -> string)
      returns (r: ContextReply)
      ensures r.NoTranscript? <==> TranscriptPath(claudeDir, id, d).None?
      ensures r.Context? ==>
                var file := raw(TranscriptPath(claudeDir, id, d).value);
                var lines := Tail.TailOfFixed(file, TAIL_LINES, decode);
                var s := ContextSummary.SummaryOf(lines, parse);
                && r.sessionId == id
                && r.messageCount == Tail.TotalOf(file, TAIL_LINES, lines)
                && r.lastUserPrompt == s.lastUserPrompt
                && r.lastAssistantSummary == s.lastAssistantSummary
                && r.toolCounts == s.toolCounts
                && r.recentTools == ContextSummary.RecentTools(s)
    {
      var path := FindTranscript(claudeDir, id, d);
      if path.None? {
        return NoTranscript;
      }
      var tail := Tail.TailReadFixed(raw(path.value), TAIL_LINES, decode);
      var s := ContextSummary.Summarize(tail.lines, parse);
      r := Context(id, tail.totalLines, s.lastUserPrompt, s.lastAssistantSummary, s.toolCounts,
                   ContextSummary.RecentTools(s));
    }
  }
}
