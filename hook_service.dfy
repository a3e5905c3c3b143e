/**
 * `HookService` (src/services/HookService.ts): normalises hook payloads into
 * hook events, keeps the last 100 of them, and runs the PreCompact and
 * PostCompact side-effect pipelines. Git, the snapshot modules and the file
 * system are oracles: the pipelines return the effects they attempt instead of
 * performing them.
 */
module Hooks {
  import opened Common
  import opened JsValues
  import opened Disk
  import opened Paths
  import Text
  import Ring

  const RING_SIZE: nat := 100

  /** A hook event: the request body's own fields plus the normalised ones. */
  type Event = map<string, Value>

  /** The six fields `push` writes over the body. */
  const NORMALISED_KEYS: set<string> := {"type", "event", "tool", "session", "cwd", "receivedAt"}

  /** `typeof body[key] === 'string' ? body[key] : undefined`. */
  function StringOrUndefined(body: map<string, Value>, key: string): (v: Value)
    ensures v.Str? || v.Undefined?
    ensures v.Str? <==> Get(body, key).Str?
    ensures Get(body, key).Str? ==> v == body[key]
  {
    if Get(body, key).Str? then Get(body, key) else Undefined
  }

  /**
   * `push`'s object literal: the body is spread first, so the normalised fields
   * win over whatever the body carries under the same names. `receivedAt` is
   * the ISO text of the current time, passed in.
   */
  function Normalise(body: map<string, Value>, receivedAt: string): (e: Event)
    ensures e.Keys == body.Keys + NORMALISED_KEYS
    ensures e["type"] == Str("hook")
    ensures e["event"].Str? && (Get(body, "event").Str? ==> e["event"] == body["event"])
    ensures !Get(body, "event").Str? ==> e["event"] == Str("unknown")
    ensures e["tool"] != Undefined <==> Get(body, "tool").Str? && Get(body, "tool").s != ""
    ensures e["tool"] != Undefined ==> e["tool"] == body["tool"]
    ensures e["session"] == StringOrUndefined(body, "session")
    ensures e["cwd"] == StringOrUndefined(body, "cwd")
    ensures e["receivedAt"] == Str(receivedAt)
    ensures forall k :: k in body && k !in NORMALISED_KEYS ==> e[k] == body[k]
  {
    var event := if Get(body, "event").Str? then Get(body, "event") else Str("unknown");
    var tool := if Get(body, "tool").Str? && Get(body, "tool").s != "" then Get(body, "tool") else Undefined;
    body + map[
      "type" := Str("hook"),
      "event" := event,
      "tool" := tool,
      "session" := StringOrUndefined(body, "session"),
      "cwd" := StringOrUndefined(body, "cwd"),
      "receivedAt" := Str(receivedAt)]
  }

  /** What the `HookEvent` interface promises of every event `push` produces. */
  predicate IsHookEvent(e: Event) {
    && NORMALISED_KEYS <= e.Keys
    && e["type"] == Str("hook")
    && e["event"].Str?
    && (e["tool"].Undefined? || (e["tool"].Str? && e["tool"].s != ""))
    && (e["session"].Undefined? || e["session"].Str?)
    && (e["cwd"].Undefined? || e["cwd"].Str?)
    && e["receivedAt"].Str?
  }

  /** Every normalised payload is a hook event, whatever the body held. */
  lemma NormaliseIsHookEvent(body: map<string, Value>, receivedAt: string)
    ensures IsHookEvent(Normalise(body, receivedAt))
  {
  }

  /** Normalising an event again (at the same time) leaves it as it is. */
  lemma NormaliseIdempotent(body: map<string, Value>, receivedAt: string)
    ensures var e := Normalise(body, receivedAt);
            Normalise(e, receivedAt) == e
  {
    var e := Normalise(body, receivedAt);
    var e2 := Normalise(e, receivedAt);
    assert e2.Keys == e.Keys;
    forall k | k in e
      ensures e2[k] == e[k]
    {
      if k !in NORMALISED_KEYS {
        assert k in body;
      }
    }
  }

  /** The result of a PreCompact run, step by step. */
  datatype Effect =
    | GitAdd(cwd: Value)
    | GitCommit(cwd: Value)
    | CaptureContext(cwd: Value, commit: bool, dir: string)
    | WriteCompactState(path: string, state: Value)

  /** Position of each step in the pipeline. */
  function Stage(e: Effect): nat {
    match e
    case GitAdd(_) => 0
    case GitCommit(_) => 1
    case CaptureContext(_, _, _) => 2
    case WriteCompactState(_, _) => 3
  }

  /** Steps appear in pipeline order, each at most once. */
  predicate InPipelineOrder(trace: seq<Effect>) {
    forall i, j :: 0 <= i < j < |trace| ==> Stage(trace[i]) < Stage(trace[j])
  }

  predicate HasStage(trace: seq<Effect>, k: nat) {
    exists i :: 0 <= i < |trace| && Stage(trace[i]) == k
  }

  /**
   * Step 1 of `handlePreCompact`: `git add -A`, then `git commit`, when
   * auto-commit is on; a failing command skips the rest of the block, and a
   * commit counts as made only when both succeed.
   */
  method GitSteps(auto: bool, addOk: bool, commitOk: bool, cwd: Value) returns (git: seq<Effect>, commitMade: bool)
    ensures commitMade <==> auto && addOk && commitOk
    ensures InPipelineOrder(git) && forall i :: 0 <= i < |git| ==> Stage(git[i]) < 2
    ensures HasStage(git, 0) <==> auto
    ensures HasStage(git, 1) <==> auto && addOk
    ensures forall i :: 0 <= i < |git| ==> (git[i].GitAdd? || git[i].GitCommit?) && git[i].cwd == cwd
  {
    git := [];
    commitMade := false;
    if auto {
      git := git + [GitAdd(cwd)];
      if addOk {
        git := git + [GitCommit(cwd)];
        if commitOk {
          commitMade := true;
        }
      }
    }
    if auto {
      assert Stage(git[0]) == 0;
    }
    if auto && addOk {
      assert Stage(git[1]) == 1;
    }
  }

  /** Git steps, then the capture, then the optional write form a trace in pipeline order. */
  lemma PipelineParts(git: seq<Effect>, capture: Effect, write: seq<Effect>)
    requires InPipelineOrder(git) && forall i :: 0 <= i < |git| ==> Stage(git[i]) < 2
    requires Stage(capture) == 2
    requires |write| <= 1 && forall i :: 0 <= i < |write| ==> Stage(write[i]) == 3
    ensures var t := git + [capture] + write;
            && InPipelineOrder(t)
            && (HasStage(t, 0) <==> HasStage(git, 0))
            && (HasStage(t, 1) <==> HasStage(git, 1))
            && (HasStage(t, 3) <==> write != [])
            && t[|git|] == capture
            && (forall i :: |git| < i < |t| ==> t[i] == write[i - |git| - 1])
  {
    var t := git + [capture] + write;
    forall k: nat | k < 2
      ensures HasStage(t, k) <==> HasStage(git, k)
    {
      if HasStage(t, k) {
        var i :| 0 <= i < |t| && Stage(t[i]) == k;
        assert t[i] == git[i];
      }
      if HasStage(git, k) {
        var i :| 0 <= i < |git| && Stage(git[i]) == k;
        assert t[i] == git[i];
      }
    }
    if write != [] {
      assert Stage(t[|t| - 1]) == 3;
    }
  }

  /** What `computeSnapshot` yields for compact-state: the summary and the ids of the READY tasks. */
  datatype StateSnapshot = StateSnapshot(summary: Value, readyTasks: seq<string>)

  /** The JSON object written to `compact-state.json`. */
  function CompactState(e: Event, snap: StateSnapshot): (v: Value)
    ensures v.Obj? && v.fields.Keys == {"compactedAt", "sessionId", "summary", "readyTasks"}
    ensures v.fields["compactedAt"] == Get(e, "receivedAt")
    ensures Get(e, "session").Undefined? || Get(e, "session").Null? ==> v.fields["sessionId"] == Null
    ensures !Get(e, "session").Undefined? && !Get(e, "session").Null? ==> v.fields["sessionId"] == e["session"]
    ensures v.fields["summary"] == snap.summary
    ensures v.fields["readyTasks"].Arr? && |v.fields["readyTasks"].items| == |snap.readyTasks|
    ensures forall i :: 0 <= i < |snap.readyTasks| ==> v.fields["readyTasks"].items[i] == Str(snap.readyTasks[i])
  {
    Obj(map[
      "compactedAt" := Get(e, "receivedAt"),
      "sessionId" := Nullish(Get(e, "session"), Null),
      "summary" := snap.summary,
      "readyTasks" := Arr(seq(|snap.readyTasks|, i requires 0 <= i < |snap.readyTasks| => Str(snap.readyTasks[i])))])
  }

  /** A directory option is truthy: present and not the empty string. */
  predicate Truthful(dir: Option<string>) {
    dir.Some? && dir.value != ""
  }

  /** The note PostCompact appends to `CLAUDE.md`. */
  function RestoreNote(receivedAt: string, done: string, ready: string): string {
    "\n\n> **[compact-restore " + receivedAt + "]** Context was compacted. "
    + StatePhrase(done, ready) + " Read `.claudedash/compact-state.json` for full task list.\n"
  }

  function StatePhrase(done: string, ready: string): string {
    "State: " + done + " DONE, " + ready + " READY."
  }

  /** The note names both counts in one phrase. */
  lemma NoteNamesCounts(receivedAt: string, done: string, ready: string)
    ensures Text.Contains(RestoreNote(receivedAt, done, ready), StatePhrase(done, ready))
  {
    var pre := "\n\n> **[compact-restore " + receivedAt + "]** Context was compacted. ";
    var post := " Read `.claudedash/compact-state.json` for full task list.\n";
    Text.ContainsEmbedded(pre, StatePhrase(done, ready), post);
  }

  /**
   * The note for a parsed compact-state value: `None` when reading its
   * `summary` throws (the value is `null`); counts default to 0.
   */
  function NoteFor(e: Event, state: Value): (note: Option<string>)
    ensures note.None? <==> state.Null? || state.Undefined?
  {
    match Prop(state, "summary")
    case None => None
    case Some(summary) =>
      var ready := Nullish(OptionalProp(summary, "ready"), Num(0));
      var done := Nullish(OptionalProp(summary, "done"), Num(0));
      Some(RestoreNote(Render(Get(e, "receivedAt")), Render(done), Render(ready)))
  }

  /** The note names the stored `done` and `ready` counts (0 when absent or `null`). */
  lemma NoteForCounts(e: Event, state: map<string, Value>, done: nat, ready: nat)
    requires CountField(Get(state, "summary"), "done", done)
    requires CountField(Get(state, "summary"), "ready", ready)
    ensures var note := NoteFor(e, Obj(state));
            note.Some? && Text.Contains(note.value, StatePhrase(Text.NatToString(done), Text.NatToString(ready)))
  {
    var summary := Get(state, "summary");
    assert Prop(Obj(state), "summary") == Some(summary);
    RenderNat(done);
    RenderNat(ready);
    var at := Render(Get(e, "receivedAt"));
    NoteNamesCounts(at, Text.NatToString(done), Text.NatToString(ready));
  }

  /** Path of the plan directory's `config.json`. */
  function ConfigFile(planDir: string): string {
    PathJoin(planDir, "config.json")
  }

  /**
   * `getAutoCommit` (and the same lines in the `/health` and `/hook/events`
   * routes): with a truthy plan directory, whether its `config.json` parses
   * to a value whose `autoCommit` is exactly `true`. A missing file, a parse
   * error or `null` content all give false.
   */
  function AutoCommit(planDir: Option<string>, d: Disk, parse: string -> Option<Value>): (r: bool)
    ensures r <==> Truthful(planDir) && ReadJson(d, ConfigFile(planDir.value), parse).Some?
                   && Prop(ReadJson(d, ConfigFile(planDir.value), parse).value, "autoCommit") == Some(Bool(true))
    ensures r ==> ConfigFile(planDir.value) in d.files
  {
    if !Truthful(planDir) then false
    else
      match ReadJson(d, ConfigFile(planDir.value), parse)
      case None => false
      case Some(cfg) => Prop(cfg, "autoCommit") == Some(Bool(true))
  }

  /** Path of `settings.json` under the agent's directory. */
  function SettingsFile(claudeDir: string): string {
    PathJoin(claudeDir, "settings.json")
  }

  /**
   * `getHooksInstalled` (and the same lines in the `/hook/events` route): the
   * settings file exists and parses, and its `PostToolUse` or `Stop` hook
   * list holds an object entry whose JSON mentions `claudedash` or `/hook`.
   * Every exception along the way gives false.
   */
  function HooksInstalled(claudeDir: string, d: Disk, parse: string -> Option<Value>, stringify: Value -> string): (r: bool)
    ensures r ==> Exists(d, SettingsFile(claudeDir)) && ReadJson(d, SettingsFile(claudeDir), parse).Some?
    ensures r ==> var settings := ReadJson(d, SettingsFile(claudeDir), parse).value;
                  && Prop(settings, "hooks").Some?
                  && var hooks := Nullish(Prop(settings, "hooks").value, Obj(map[]));
                     MentionedUnder(hooks, "PostToolUse", stringify) || MentionedUnder(hooks, "Stop", stringify)
  {
    var path := SettingsFile(claudeDir);
    if !Exists(d, path) then false
    else
      match ReadJson(d, path, parse)
      case None => false
      case Some(settings) =>
        match Prop(settings, "hooks")
        case None => false
        case Some(h) =>
          var hooks := Nullish(h, Obj(map[]));
          match HasHook(hooks, "PostToolUse", stringify)
          case None => false
          case Some(true) => true
          case Some(false) => HasHook(hooks, "Stop", stringify) == Some(true)
  }

  datatype Append = Append(path: string, text: string)

  /** The text of `execution.log`: `''` when it does not exist, `None` when reading it throws. */
  function LogText(planDir: string, d: Disk): (r: Option<string>)
    ensures !Exists(d, PathJoin(planDir, "execution.log")) ==> r == Some("")
    ensures Exists(d, PathJoin(planDir, "execution.log")) ==> r == Read(d, PathJoin(planDir, "execution.log"))
  {
    var logPath := PathJoin(planDir, "execution.log");
    if Exists(d, logPath) then Read(d, logPath) else Some("")
  }

  /**
   * The compact-state step writes `compact-state.json` exactly when the plan
   * directory is truthy, its `queue.md` exists and reads, the log (if any)
   * reads, and the snapshot is computed without throwing.
   */
  predicate WritesCompactState(planDir: Option<string>, d: Disk, snapshot: (string, string) -> Option<StateSnapshot>) {
    && Truthful(planDir)
    && Read(d, PathJoin(planDir.value, "queue.md")).Some?
    && LogText(planDir.value, d).Some?
    && snapshot(Read(d, PathJoin(planDir.value, "queue.md")).value, LogText(planDir.value, d).value).Some?
  }

  /** The snapshot the compact-state step writes from. */
  function CompactSnapshot(planDir: Option<string>, d: Disk, snapshot: (string, string) -> Option<StateSnapshot>): StateSnapshot
    requires WritesCompactState(planDir, d, snapshot)
  {
    snapshot(Read(d, PathJoin(planDir.value, "queue.md")).value, LogText(planDir.value, d).value).value
  }

  /**
   * Step 3 of PreCompact (in `handlePreCompact` and in the `/hook` route):
   * the compact-state write, if it happens.
   */
  method CompactStateStep(planDir: Option<string>, e: Event, d: Disk, snapshot: (string, string) -> Option<StateSnapshot>)
    returns (write: seq<Effect>)
    ensures |write| <= 1
    ensures write != [] <==> WritesCompactState(planDir, d, snapshot)
    ensures WritesCompactState(planDir, d, snapshot) ==>
              write == [WriteCompactState(PathJoin(planDir.value, "compact-state.json"), CompactState(e, CompactSnapshot(planDir, d, snapshot)))]
  {
    write := [];
    if Truthful(planDir) {
      var queuePath := PathJoin(planDir.value, "queue.md");
      var logPath := PathJoin(planDir.value, "execution.log");
      if Exists(d, queuePath) {
        var queueText := Read(d, queuePath);
        var logText: Option<string> := if Exists(d, logPath) then Read(d, logPath) else Some("");
        if queueText.Some? && logText.Some? {
          var snap := snapshot(queueText.value, logText.value);
          if snap.Some? {
            write := [WriteCompactState(PathJoin(planDir.value, "compact-state.json"), CompactState(e, snap.value))];
          }
        }
      }
    }
  }

  /**
   * PostCompact (in `handlePostCompact` and in the `/hook` route): with a
   * truthy plan directory holding a readable, parseable compact-state file
   * whose value is not `null`, the note to append to `CLAUDE.md` in the plan
   * directory; `None` when it does nothing. The event may be any value the
   * route built; only its `receivedAt` is rendered into the note.
   */
  function RestoreAppend(planDir: Option<string>, e: Event, d: Disk, parse: string -> Option<Value>): (r: Option<Append>)
    ensures !Truthful(planDir) ==> r.None?
    ensures Truthful(planDir) && !Exists(d, PathJoin(planDir.value, "compact-state.json")) ==> r.None?
    ensures r.Some? <==> Truthful(planDir) && ReadJson(d, PathJoin(planDir.value, "compact-state.json"), parse).Some?
                         && NoteFor(e, ReadJson(d, PathJoin(planDir.value, "compact-state.json"), parse).value).Some?
    ensures r.Some? ==> r.value == Append(PathJoin(planDir.value, "CLAUDE.md"),
                                          NoteFor(e, ReadJson(d, PathJoin(planDir.value, "compact-state.json"), parse).value).value)
  {
    if !Truthful(planDir) then None
    else
      var statePath := PathJoin(planDir.value, "compact-state.json");
      if !Exists(d, statePath) then None
      else
        match ReadJson(d, statePath, parse)
        case None => None
        case Some(state) =>
          match NoteFor(e, state)
          case None => None
          case Some(note) => Some(Append(PathJoin(planDir.value, "CLAUDE.md"), note))
  }


  class HookService {
    const claudeDir: string
    const planDir: Option<string>
    var ring: seq<Event>

    /** The ring holds at most `RING_SIZE` events, each of them normalised. */
    ghost predicate Valid()
      reads this
    {
      |ring| <= RING_SIZE && forall i :: 0 <= i < |ring| ==> IsHookEvent(ring[i])
    }

    constructor(claudeDir: string, planDir: Option<string>)
      ensures this.claudeDir == claudeDir && this.planDir == planDir
      ensures ring == [] && Valid()
    {
      this.claudeDir := claudeDir;
      this.planDir := planDir;
      ring := [];
    }

    /** `push`: normalise, append, and drop the oldest event once there are more than `RING_SIZE`. */
    method Push(body: map<string, Value>, receivedAt: string) returns (e: Event)
      requires Valid()
      modifies this
      ensures Valid()
      ensures e == Normalise(body, receivedAt)
      ensures ring == Ring.Push(old(ring), e, RING_SIZE)
      ensures |old(ring)| < RING_SIZE ==> ring == old(ring) + [e]
      ensures |old(ring)| == RING_SIZE ==> ring == old(ring)[1..] + [e]
      ensures GetEvents()[0] == e
      ensures GetEvents()[1..] == Take(old(GetEvents()), RING_SIZE - 1)
    {
      e := Normalise(body, receivedAt);
      NormaliseIsHookEvent(body, receivedAt);
      ring := ring + [e];
      if |ring| > RING_SIZE {
        ring := ring[1..];
      }
      Ring.PushNewestFirst(old(ring), e, RING_SIZE);
    }

    /** `getEvents`: the ring newest first. */
    function GetEvents(): (r: seq<Event>)
      reads this
      ensures |r| == |ring|
      ensures forall k :: 0 <= k < |r| ==> r[k] == ring[|ring| - 1 - k]
      ensures ring != [] ==> r[0] == ring[|ring| - 1]
    {
      Reverse(ring)
    }

    /** `getAutoCommit`, for this service's plan directory. */
    function GetAutoCommit(d: Disk, parse: string -> Option<Value>): bool
      reads this
    {
      AutoCommit(planDir, d, parse)
    }

    function SettingsPath(): string
      reads this
    {
      SettingsFile(claudeDir)
    }

    /** `getHooksInstalled`, for this service's agent directory. */
    function GetHooksInstalled(d: Disk, parse: string -> Option<Value>, stringify: Value -> string): bool
      reads this
    {
      HooksInstalled(claudeDir, d, parse, stringify)
    }

    /**
     * `handlePreCompact`: the optional git commit, the context snapshot and the
     * compact-state file, each best-effort. `addOk` and `commitOk` are the
     * outcomes of the two git commands; `snapshot` is `computeSnapshot` over
     * the parsed queue and log text (`None` when parsing throws);
     * `processCwd` is `process.cwd()`. Returns the steps attempted, in order,
     * and whether a commit was made.
     */
    method HandlePreCompact(e: Event, d: Disk, parse: string -> Option<Value>, addOk: bool, commitOk: bool,
                            snapshot: (string, string) -> Option<StateSnapshot>, processCwd: string)
      returns (trace: seq<Effect>, commitMade: bool)
      requires IsHookEvent(e)
      ensures commitMade <==> GetAutoCommit(d, parse) && addOk && commitOk
      ensures InPipelineOrder(trace)
      ensures HasStage(trace, 0) <==> GetAutoCommit(d, parse)
      ensures HasStage(trace, 1) <==> GetAutoCommit(d, parse) && addOk
      ensures exists i :: 0 <= i < |trace| && trace[i] == CaptureContext(Str(SnapshotCwd(e, processCwd)), commitMade, SnapshotDir(e, processCwd))
      ensures forall i :: 0 <= i < |trace| && (trace[i].GitAdd? || trace[i].GitCommit?) ==> trace[i].cwd == Str(SnapshotCwd(e, processCwd))
      ensures HasStage(trace, 3) <==> WritesCompactState(planDir, d, snapshot)
      ensures WritesCompactState(planDir, d, snapshot) ==>
                trace[|trace| - 1] == WriteCompactState(PathJoin(planDir.value, "compact-state.json"), CompactState(e, CompactSnapshot(planDir, d, snapshot)))
    {
      var snapshotCwd := Str(SnapshotCwd(e, processCwd));
      var snapshotDir := SnapshotDir(e, processCwd);
      var git;
      git, commitMade := GitSteps(GetAutoCommit(d, parse), addOk, commitOk, snapshotCwd);
      var capture := CaptureContext(snapshotCwd, commitMade, snapshotDir);
      var write := CompactStateStep(planDir, e, d, snapshot);
      trace := git + [capture] + write;
      PipelineParts(git, capture, write);
      assert trace[|git|] == capture;
    }

    /** `hookEvent.cwd ?? (planDir ? join(planDir, '..') : process.cwd())`. */
    function SnapshotCwd(e: Event, processCwd: string): string
      requires IsHookEvent(e)
    {
      if e["cwd"].Str? then e["cwd"].s
      else if Truthful(planDir) then PathJoin(planDir.value, "..")
      else processCwd
    }

    /** `planDir ?? join(snapshotCwd, '.claudedash')`: where the context snapshot goes. */
    function SnapshotDir(e: Event, processCwd: string): string
      requires IsHookEvent(e)
    {
      if planDir.Some? then planDir.value else PathJoin(SnapshotCwd(e, processCwd), ".claudedash")
    }

    /** `handlePostCompact`: the restore note for this service's plan directory. */
    function HandlePostCompact(e: Event, d: Disk, parse: string -> Option<Value>): (r: Option<Append>)
      reads this
      ensures !Truthful(planDir) ==> r.None?
      ensures Truthful(planDir) && !Exists(d, PathJoin(planDir.value, "compact-state.json")) ==> r.None?
      ensures r.Some? ==> Truthful(planDir) && r.value.path == PathJoin(planDir.value, "CLAUDE.md")
    {
      RestoreAppend(planDir, e, d, parse)
    }

    /** A `PostToolUse` entry that mentions the hook endpoint means the hooks are installed. */
    lemma HooksInstalledByPostToolUse(d: Disk, parse: string -> Option<Value>, stringify: Value -> string,
                                      settings: Value, hooks: map<string, Value>, items: seq<Value>, h: Value)
      requires SettingsPath() in d.files
      requires parse(d.files[SettingsPath()]) == Some(settings) && Prop(settings, "hooks") == Some(Obj(hooks))
      requires Get(hooks, "PostToolUse") == Arr(items) && h in items && MentionsHook(h, stringify)
      ensures GetHooksInstalled(d, parse, stringify)
    {
      assert HasHook(Obj(hooks), "PostToolUse", stringify) == Some(true);
    }

    /** When `PostToolUse` is absent or an array, a mentioning `Stop` entry is enough. */
    lemma HooksInstalledByStop(d: Disk, parse: string -> Option<Value>, stringify: Value -> string,
                               settings: Value, hooks: map<string, Value>, items: seq<Value>, h: Value)
      requires SettingsPath() in d.files
      requires parse(d.files[SettingsPath()]) == Some(settings) && Prop(settings, "hooks") == Some(Obj(hooks))
      requires HookList(Obj(hooks), "PostToolUse").Arr?
      requires Get(hooks, "Stop") == Arr(items) && h in items && MentionsHook(h, stringify)
      ensures GetHooksInstalled(d, parse, stringify)
    {
      assert HasHook(Obj(hooks), "PostToolUse", stringify).Some?;
      assert HasHook(Obj(hooks), "Stop", stringify) == Some(true);
    }

    /**
     * A `PostToolUse` value that is a string has no `.some`: the call throws
     * and the answer is false, whatever `Stop` holds.
     */
    lemma HooksNotInstalledWhenPostToolUseIsText(d: Disk, parse: string -> Option<Value>, stringify: Value -> string,
                                                 settings: Value, hooks: map<string, Value>, text: string)
      requires SettingsPath() in d.files
      requires parse(d.files[SettingsPath()]) == Some(settings) && Prop(settings, "hooks") == Some(Obj(hooks))
      requires Get(hooks, "PostToolUse") == Str(text)
      ensures !GetHooksInstalled(d, parse, stringify)
    {
      assert HasHook(Obj(hooks), "PostToolUse", stringify).None?;
    }

    /** Hook lists whose entries never mention the endpoint mean not installed. */
    lemma HooksNotInstalledWithoutMention(d: Disk, parse: string -> Option<Value>, stringify: Value -> string,
                                          settings: Value, hooks: map<string, Value>)
      requires SettingsPath() in d.files
      requires parse(d.files[SettingsPath()]) == Some(settings) && Prop(settings, "hooks") == Some(Obj(hooks))
      requires forall key, h :: key in hooks && hooks[key].Arr? && h in hooks[key].items ==> !MentionsHook(h, stringify)
      ensures !GetHooksInstalled(d, parse, stringify)
    {
      var hv := Obj(hooks);
      assert HasHook(hv, "PostToolUse", stringify) != Some(true);
      assert HasHook(hv, "Stop", stringify) != Some(true);
    }

    /** PostCompact appends a note naming the stored `done` and `ready` counts. */
    lemma PostCompactNote(e: Event, d: Disk, parse: string -> Option<Value>, state: map<string, Value>, done: nat, ready: nat)
      requires Truthful(planDir)
      requires PathJoin(planDir.value, "compact-state.json") in d.files
      requires parse(d.files[PathJoin(planDir.value, "compact-state.json")]) == Some(Obj(state))
      requires CountField(Get(state, "summary"), "done", done)
      requires CountField(Get(state, "summary"), "ready", ready)
      ensures var r := HandlePostCompact(e, d, parse);
              && r.Some?
              && Text.Contains(r.value.text, StatePhrase(Text.NatToString(done), Text.NatToString(ready)))
    {
      NoteForCounts(e, state, done, ready);
      var path := PathJoin(planDir.value, "compact-state.json");
      assert ReadJson(d, path, parse) == Some(Obj(state));
      assert HandlePostCompact(e, d, parse) == Some(Append(PathJoin(planDir.value, "CLAUDE.md"), NoteFor(e, Obj(state)).value));
    }

    /** What PreCompact writes, PostCompact reads back: the note carries the snapshot's counts. */
    lemma CompactStateRoundTrip(e: Event, d: Disk, parse: string -> Option<Value>, written: Event, snap: StateSnapshot,
                                done: nat, ready: nat)
      requires Truthful(planDir)
      requires PathJoin(planDir.value, "compact-state.json") in d.files
      requires parse(d.files[PathJoin(planDir.value, "compact-state.json")]) == Some(CompactState(written, snap))
      requires CountField(snap.summary, "done", done) && CountField(snap.summary, "ready", ready)
      ensures var r := HandlePostCompact(e, d, parse);
              && r.Some?
              && Text.Contains(r.value.text, StatePhrase(Text.NatToString(done), Text.NatToString(ready)))
    {
      PostCompactNote(e, d, parse, CompactState(written, snap).fields, done, ready);
    }
  }

  /** `(hooks[key] ?? []).some(h => typeof h === 'object' && mentions)`: `None` when `.some` is missing and the call throws. */
  function HasHook(hooks: Value, key: string, stringify: Value -> string): (r: Option<bool>)
    ensures r == Some(true) <==> MentionedUnder(hooks, key, stringify)
    ensures r.None? <==> !HookList(hooks, key).Arr?
  {
    var list := HookList(hooks, key);
    if !list.Arr? then None
    else Some(AnyMentions(list.items, stringify))
  }

  /** `items.some(h => typeof h === 'object' && mentions)`, entry by entry. */
  function AnyMentions(items: seq<Value>, stringify: Value -> string): (r: bool)
    ensures r <==> exists h :: h in items && MentionsHook(h, stringify)
  {
    if items == [] then false
    else MentionsHook(items[0], stringify) || AnyMentions(items[1..], stringify)
  }

  /** The hook list under `key` is an array with an entry that mentions the endpoint. */
  predicate MentionedUnder(hooks: Value, key: string, stringify: Value -> string) {
    HookList(hooks, key).Arr? && exists h :: h in HookList(hooks, key).items && MentionsHook(h, stringify)
  }

  /** `hooks[key] ?? []` (`hooks` is never nullish here). */
  function HookList(hooks: Value, key: string): Value {
    Nullish(OptionalProp(hooks, key), Arr([]))
  }

  /** `summary?.[key] ?? 0` renders as `n`. */
  predicate CountField(summary: Value, key: string, n: nat) {
    var v := OptionalProp(summary, key);
    v == Num(n) || ((v.Undefined? || v.Null?) && n == 0)
  }

  predicate MentionsHook(h: Value, stringify: Value -> string) {
    IsObjectType(h) && (Text.Contains(stringify(h), "claudedash") || Text.Contains(stringify(h), "/hook"))
  }
}
