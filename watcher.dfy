/**
 * `createWatcher` (src/server/watcher.ts): which paths are watched, how raw
 * file-system notifications are classified and coalesced, and the 100 ms
 * debounce that turns a burst of them into one change event. The debounce
 * timer is explicit: `OnFsEvent` (re)arms it and `Fire` is the moment it
 * runs.
 */
module Watch {
  import opened Common
  import opened Disk
  import opened Paths
  import Text
  import SourceLayout

  const DEBOUNCE_MS: nat := 100

  /** `WatchEvent['type']`. */
  datatype Kind = Sessions | Plan

  /** The chokidar notifications the watcher subscribes to. */
  datatype FsEvent = Change | Add | Unlink | AddDir

  /** `classifyEvent`: anything under a `.claudedash` directory is a plan change. */
  function Classify(path: string): (k: Kind)
    ensures k == Plan <==> Text.Contains(path, ".claudedash")
  {
    if Text.Contains(path, ".claudedash") then Plan else Sessions
  }

  /** Files of a plan directory named `.claudedash` are plan changes, wherever that directory is. */
  lemma PlanFilesArePlan(parent: string, file: string)
    ensures Classify(parent + "/.claudedash/" + file) == Plan
  {
    assert parent + "/.claudedash/" + file == parent + "/" + ".claudedash" + ("/" + file);
    Text.ContainsEmbedded(parent + "/", ".claudedash", "/" + file);
  }

  /** The pending type after one more raw event: two different types coalesce to `Sessions`. */
  function Coalesce(pending: Option<Kind>, incoming: Kind): (r: Kind)
    ensures r == Plan <==> incoming == Plan && (pending.None? || pending.value == Plan)
  {
    if pending.Some? && pending.value != incoming then Sessions else incoming
  }

  /** The pending type after a burst of raw events of the given types. */
  function Burst(pending: Option<Kind>, kinds: seq<Kind>): Option<Kind> {
    if kinds == [] then pending else Some(Coalesce(Burst(pending, kinds[..|kinds| - 1]), kinds[|kinds| - 1]))
  }

  /**
   * A burst ends with `Plan` pending exactly when it started with nothing or
   * `Plan` pending and every raw event in it was a plan change.
   */
  lemma {:induction false} BurstPlanIffAllPlan(pending: Option<Kind>, kinds: seq<Kind>)
    requires kinds != []
    ensures Burst(pending, kinds) == Some(Plan) <==>
              (pending.None? || pending.value == Plan) && forall i :: 0 <= i < |kinds| ==> kinds[i] == Plan
  {
    var front := kinds[..|kinds| - 1];
    if front != [] {
      BurstPlanIffAllPlan(pending, front);
    }
    assert forall i :: 0 <= i < |front| ==> front[i] == kinds[i];
  }

  /** A non-empty burst always leaves one type pending. */
  lemma {:induction false} BurstLeavesPending(pending: Option<Kind>, kinds: seq<Kind>)
    requires kinds != []
    ensures Burst(pending, kinds).Some?
  {
  }

  class FileWatcher {
    const tasksDir: string
    const todosDir: string
    /** The paths handed to chokidar, followed by those added later by `watcher.add`. */
    var watched: seq<string>
    /** `trackedSessionDirs`. */
    var tracked: set<string>
    /** False for the no-op watcher created when there was nothing to watch. */
    var live: bool
    /** `pendingEventType`. */
    var pending: Option<Kind>
    /** Whether a debounce timer is scheduled and has not run yet. */
    var armed: bool

    ghost predicate Valid()
      reads this
    {
      && tracked <= {tasksDir, todosDir}
      && (forall dir :: dir in tracked ==> dir in watched)
      && (live <==> watched != [])
      && (armed ==> live)
      && (pending.Some? ==> armed)
    }

    /** `createWatcher`: the watcher starts on the assembled paths, with nothing pending. */
    constructor(claudeDir: string, planDir: Option<string>, d: Disk)
      ensures Valid()
      ensures var layout := SourceLayout.GetSourceLayout(SourceLayout.ClaudeCode, claudeDir);
              tasksDir == layout.tasksDir && todosDir == layout.todosDir
      ensures forall p :: p in watched <==> WatchCandidate(p, claudeDir, planDir, d)
      ensures tracked == set dir | dir in {tasksDir, todosDir} && Exists(d, dir)
      ensures live <==> watched != []
      ensures pending.None? && !armed
    {
      var layout := SourceLayout.GetSourceLayout(SourceLayout.ClaudeCode, claudeDir);
      tasksDir := layout.tasksDir;
      todosDir := layout.todosDir;
      var paths, dirs := WatchPaths(claudeDir, planDir, d);
      watched := paths;
      tracked := dirs;
      live := paths != [];
      pending := None;
      armed := false;
    }

    /**
     * A notification from chokidar. `addDir` only tracks late-created session
     * directories; `change`, `add` and `unlink` classify the path, coalesce
     * the pending type and restart the debounce timer. The no-op watcher
     * receives nothing.
     */
    method OnFsEvent(ev: FsEvent, path: string, d: Disk)
      requires Valid()
      modifies this
      ensures Valid()
      ensures !old(live) ==> unchanged(this)
      ensures old(live) && ev != AddDir ==>
                && pending == Some(Coalesce(old(pending), Classify(path)))
                && armed
                && watched == old(watched) && tracked == old(tracked)
      ensures ev == AddDir ==> pending == old(pending) && armed == old(armed)
      ensures old(live) && ev == AddDir && path !in old(tracked) && path in {tasksDir, todosDir} && Exists(d, path) ==>
                watched == old(watched) + [path] && tracked == old(tracked) + {path}
      ensures ev == AddDir && (path in old(tracked) || path !in {tasksDir, todosDir} || !Exists(d, path)) ==>
                watched == old(watched) && tracked == old(tracked)
      ensures live == old(live)
    {
      if !live {
        return;
      }
      if ev == AddDir {
        MaybeTrackNewDir(path, d);
      } else {
        pending := Some(Coalesce(pending, Classify(path)));
        armed := true;
      }
    }

    /**
     * `maybeTrackNewDir`: start watching the tasks or todos directory the
     * first time it shows up (and exists); any other path, or a directory
     * already tracked, changes nothing.
     */
    method MaybeTrackNewDir(path: string, d: Disk)
      requires Valid() && live
      modifies this
      ensures Valid()
      ensures pending == old(pending) && armed == old(armed) && live == old(live)
      ensures (path in old(tracked) || path !in {tasksDir, todosDir} || !Exists(d, path)) ==>
                watched == old(watched) && tracked == old(tracked)
      ensures path !in old(tracked) && path in {tasksDir, todosDir} && Exists(d, path) ==>
                watched == old(watched) + [path] && tracked == old(tracked) + {path}
    {
      var dirs := [tasksDir, todosDir];
      for i := 0 to 2
        invariant Valid() && live == old(live)
        invariant pending == old(pending) && armed == old(armed)
        invariant (path in old(tracked) || path !in dirs[..i] || !Exists(d, path)) ==>
                    watched == old(watched) && tracked == old(tracked)
        invariant path !in old(tracked) && path in dirs[..i] && Exists(d, path) ==>
                    watched == old(watched) + [path] && tracked == old(tracked) + {path}
      {
        var dir := dirs[i];
        if path == dir && dir !in tracked && Exists(d, dir) {
          watched := watched + [dir];
          tracked := tracked + {dir};
        }
      }
      assert dirs[..2] == dirs;
    }

    /**
     * The debounce timer runs: report the pending type once, if there is one,
     * and clear it.
     */
    method Fire() returns (emitted: Option<Kind>)
      requires Valid() && armed
      modifies this
      ensures Valid()
      ensures emitted == old(pending)
      ensures pending.None? && !armed
      ensures watched == old(watched) && tracked == old(tracked) && live == old(live)
    {
      emitted := pending;
      pending := None;
      armed := false;
    }
  }

  /**
   * The path list of `createWatcher`: the tasks and todos directories that
   * exist, the plan's `queue.md` and `execution.log` when the plan directory
   * is set and exists, and the agent's directory itself if it exists; and
   * the session directories tracked from the start.
   */
  method WatchPaths(claudeDir: string, planDir: Option<string>, d: Disk) returns (paths: seq<string>, dirs: set<string>)
    ensures forall p :: p in paths ==> Exists(d, p)
    ensures forall p :: p in paths <==> WatchCandidate(p, claudeDir, planDir, d)
    ensures var layout := SourceLayout.GetSourceLayout(SourceLayout.ClaudeCode, claudeDir);
            dirs == set dir | dir in {layout.tasksDir, layout.todosDir} && Exists(d, dir)
    ensures forall dir :: dir in dirs ==> dir in paths
    ensures |paths| <= 5
  {
    var layout := SourceLayout.GetSourceLayout(SourceLayout.ClaudeCode, claudeDir);
    paths := [];
    dirs := {};
    var sessionDirs := [layout.tasksDir, layout.todosDir];
    for i := 0 to 2
      invariant |paths| <= i
      invariant forall p :: p in paths <==> p in sessionDirs[..i] && Exists(d, p)
      invariant dirs == set dir | dir in sessionDirs[..i] && Exists(d, dir)
    {
      var dir := sessionDirs[i];
      if Exists(d, dir) {
        paths := paths + [dir];
        dirs := dirs + {dir};
      }
    }
    assert sessionDirs[..2] == sessionDirs;
    if planDir.Some? && planDir.value != "" && Exists(d, planDir.value) {
      var queuePath := PathJoin(planDir.value, "queue.md");
      var logPath := PathJoin(planDir.value, "execution.log");
      if Exists(d, queuePath) {
        paths := paths + [queuePath];
      }
      if Exists(d, logPath) {
        paths := paths + [logPath];
      }
    }
    if Exists(d, claudeDir) {
      paths := paths + [claudeDir];
    }
  }

  /** A path that `createWatcher` puts on the initial watch list. */
  predicate WatchCandidate(p: string, claudeDir: string, planDir: Option<string>, d: Disk) {
    var layout := SourceLayout.GetSourceLayout(SourceLayout.ClaudeCode, claudeDir);
    && Exists(d, p)
    && (|| p == layout.tasksDir
        || p == layout.todosDir
        || p == claudeDir
        || (planDir.Some? && planDir.value != "" && Exists(d, planDir.value)
            && (p == PathJoin(planDir.value, "queue.md") || p == PathJoin(planDir.value, "execution.log"))))
  }

  /**
   * A burst of three notifications followed by the timer produces one change
   * event, of type `Sessions` because the burst mixed plan and session paths.
   */
  method BurstScenario(d: Disk, claudeDir: string) returns (first: Option<Kind>, watcherLive: bool)
    requires Exists(d, claudeDir)
    ensures watcherLive
    ensures first == Some(Sessions)
  {
    var w := new FileWatcher(claudeDir, None, d);
    assert claudeDir in w.watched;
    watcherLive := w.live;
    w.OnFsEvent(Change, "/p/.claudedash/queue.md", d);
    PlanFilesArePlan("/p", "queue.md");
    Text.ContainsNeedsRoom("/t/a.json", ".claudedash");
    w.OnFsEvent(Add, "/t/a.json", d);
    w.OnFsEvent(Change, "/p/.claudedash/execution.log", d);
    first := w.Fire();
  }
}
