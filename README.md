# claudedash core, modelled in Dafny

claudedash (the `claude-watch` repository) is a local dashboard for coding-agent sessions. A Fastify server reads the agent's task and todo files under `~/.claude`. It also reads the optional plan directory `.claudedash/`. It watches both for changes and pushes change events to browsers over Server-Sent Events. It accepts hook callbacks from the agent on `POST /hook`, and derives insights, timelines and bottlenecks from the tasks.

This project models the core of that server:

- **todo reader**: reading the `tasks/` and `todos/` directories into sessions. This covers validation of each file, the session-id pattern, merging and sorting.
- **session service**: the session cache, the `days` cut-off, and the persisted dismissed-task set.
- **hook service**: the hook ring, event normalisation, auto-commit and hooks-installed detection, and the PreCompact/PostCompact steps.
- **SSE hub**: the client set, broadcast and per-client ping intervals.
- **watcher**: the watch list, event classification, debouncing and coalescing, and late directory tracking.
- **insights engine**: status counts, slices, timelines and bottlenecks for the plan and for live sessions.
- **live routes**: `tailRead`, the change handler, `/health`, `/sessions` and its `days` parameter, session lookup, resume command, context summary, dismiss, `/hook` and `/hook/events`.
- **server helpers**: the cookie parser, the bearer-token gate, login and logout, and the per-route timing ring with its percentile report.
- **source layout**: the source name and the paths under the base directory.

Everything the source does through the outside world is a parameter of the model:

- the file system is a `Disk` value holding files, directories, listings and modification times;
- `JSON.parse` and `JSON.stringify` are functions on JSON values, with `None` standing for a parse failure;
- UTF-8 decoding, `decodeURIComponent` and `encodeURIComponent` are functions;
- git's outcome is a pair of booleans;
- the clock is a number in milliseconds;
- timers are explicit `Fire`/`AdvanceTo` steps.

Objects whose fields the source updates in place are classes:

- `SessionService`, `HookService`, `SseHub`, the watcher state, the `/live` route state (`LiveState`) and the timing store (`Timings`);
- each has a `Valid()` invariant;
- each method's postcondition gives the whole new state in terms of a specification function.

Loops in the source are methods with loop invariants, proved against those functions. Examples:

- `tailRead`'s backwards scan;
- the transcript scan of the context route;
- the tool counting;
- `parseCookieToken`;
- the timing report;
- the bottleneck and timeline accumulations.

`Array.prototype.sort` is a stable insertion sort (`Sorting.SortBy`). `localeCompare` on the ISO timestamps the source sorts by is code-point order on integer milliseconds.

A JavaScript "line" in `tailRead` is a `\n`-separated piece of the byte buffer. A file that ends in a newline therefore contributes an empty last piece, which the non-blank filter then drops.

## Model

| member | source | states |
|---|---|---|
| SourceLayout.ParseSourceDefault | src/platform/source.ts:18-22 | With no input, `parseSource` falls back to `claude-code` and accepts it |
| SourceLayout.EmptySourceRejected | src/platform/source.ts:19-21 | An empty string is not nullish, so it gets no default and yields null |
| SourceLayout.ParseSourceIgnoresCaseAndSpace | src/platform/source.ts:19-20 | Any white-space padding around any upper/lower-case spelling of `claude` yields `claude-code` |
| SourceLayout.LayoutDistinct | src/platform/source.ts:24-35 | The seven layout paths are `baseDir` joined with `tasks`, `todos`, `projects`, `usage-data`, `plans`, `stats-cache.json`, `history.jsonl`, and are pairwise distinct |
| SourceLayout.HasLiveSourceData | src/platform/source.ts:39-42 | True exactly when the tasks or the todos directory of the layout exists |
| Hub.FiredPerPeriod | src/services/SseHub.ts:29 | An interval started at `s` has fired exactly `k` times at `s + 30000k` and `k - 1` times one millisecond earlier |
| Hub.FiredMonotone | src/services/SseHub.ts:29 | Advancing the clock never decreases how often an interval has fired |
| Hub.Remove | src/services/SseHub.ts:32 | `clients.delete(send)`: exactly the other clients remain, still without duplicates |
| Hub.StopInterval | src/services/SseHub.ts:33 | `clearInterval(id)`: exactly the other intervals remain |
| Hub.RemoveIdempotent | src/services/SseHub.ts:31-34 | Deleting a client twice is deleting it once |
| Hub.RemoveAbsent | src/services/SseHub.ts:32 | Deleting a client that is not registered changes nothing |
| Hub.StopIntervalIdempotent | src/services/SseHub.ts:33 | Clearing an interval twice is clearing it once |
| Hub.DistinctCardinality | src/services/SseHub.ts:46-48 | A duplicate-free client list has as many entries as the set it forms |
| Hub.SseHub.constructor | src/services/SseHub.ts:13-14 | A new hub has no clients and no intervals, and `clientCount` is 0 |
| Hub.SseHub.ClientCount | src/services/SseHub.ts:46-48 | `clientCount` is the size of the client set |
| Hub.SseHub.AddClient | src/services/SseHub.ts:23-38 | Adds the send once (set semantics) and always starts a new 30 s interval; the count grows by one only for a new send; returns the cleanup handle |
| Hub.SseHub.Cleanup | src/services/SseHub.ts:31-34 | Removes the send and stops its interval; nothing else changes |
| Hub.SseHub.Broadcast | src/services/SseHub.ts:41-43 | Calls every registered send exactly once, in insertion order, with the event |
| Hub.SseHub.AdvanceTo | src/services/SseHub.ts:29 | Moving the clock reports, per running interval, how many pings fired in between; the client state is unchanged |
| Hub.DuplicateSendScenario | src/services/SseHub.ts:28-37 | Registering one send twice keeps one client but two intervals; after the first cleanup the count is 0 while the second interval still pings |
| Hub.CleanupBeforeBroadcastScenario | tests/services/SseHub.test.ts:49-58 | A client cleaned up before a broadcast does not receive it |
| Hub.PingScenario | tests/services/SseHub.test.ts:60-80 | One ping per 30 s while connected, none after cleanup |
| Watch.Classify | src/server/watcher.ts:92-94 | A path is a plan change exactly when it contains `.claudedash` |
| Watch.PlanFilesArePlan | src/server/watcher.ts:92-94 | Any file under a `.claudedash` directory is classified as a plan change |
| Watch.Coalesce | src/server/watcher.ts:72-76 | The pending type becomes `plan` exactly when the incoming event is `plan` and nothing or `plan` was pending |
| Watch.BurstPlanIffAllPlan | src/server/watcher.ts:71-90 | After a burst, `plan` is pending exactly when it started with nothing or `plan` pending and every event was a plan change |
| Watch.BurstLeavesPending | src/server/watcher.ts:71-76 | A non-empty burst always leaves a type pending |
| Watch.WatchPaths | src/server/watcher.ts:25-51 | The initial watch list holds exactly the existing tasks/todos directories, the plan's existing `queue.md`/`execution.log` (plan directory set and existing), and the agent directory if it exists; at most five entries; the tracked directories are on it |
| Watch.FileWatcher.constructor | src/server/watcher.ts:23-69 | Starts on the assembled list, tracking the existing session directories; a watcher with nothing to watch is the inert no-op one; nothing pending |
| Watch.FileWatcher.OnFsEvent | src/server/watcher.ts:71-120 | `change`/`add`/`unlink` coalesce the path's type into the pending type and re-arm the 100 ms timer; `addDir` only tracks new session directories; the no-op watcher ignores everything |
| Watch.FileWatcher.MaybeTrackNewDir | src/server/watcher.ts:97-104 | A newly existing, untracked tasks/todos directory is added to the watch list and tracked; anything else changes nothing |
| Watch.FileWatcher.Fire | src/server/watcher.ts:80-89 | The timer emits the pending type (if any) and clears it |
| Watch.BurstScenario | src/server/watcher.ts:71-94 | A burst mixing plan and session paths followed by the timer emits one `sessions` change |
| Hooks.StringOrUndefined | src/services/HookService.ts:49-50 | A string field of the body is returned as it is; any other value of the field, or a missing one, gives undefined |
| Hooks.Normalise | src/services/HookService.ts:43-52 | Keys are the body's plus the six normalised ones; `type` is always `hook`; `event` is the body's string or `unknown`; `tool` is kept only as a non-empty string; `session`/`cwd` only as strings; `receivedAt` is the given time; every other body field is kept |
| Hooks.NormaliseIsHookEvent | src/services/HookService.ts:20-52 | Whatever the body holds, the result satisfies the `HookEvent` interface |
| Hooks.NormaliseIdempotent | src/services/HookService.ts:43-52 | Normalising an already-normalised event at the same time returns it unchanged |
| Hooks.GitSteps | src/services/HookService.ts:97-108 | `git add` runs exactly when auto-commit is on, `git commit` exactly when the add also succeeded, and a commit is made exactly when both succeed; both git steps run in the given cwd |
| Hooks.PipelineParts | src/services/HookService.ts:97-144 | Git steps, then the capture, then the optional compact-state write form a trace in pipeline order |
| Hooks.CompactState | src/services/HookService.ts:130-136 | The written object has exactly `compactedAt`, `sessionId`, `summary`, `readyTasks`: the event's `receivedAt`, its session or `null` when that is undefined or null, the snapshot's summary, and the ids of the READY tasks as strings, in order |
| Hooks.NoteNamesCounts | src/services/HookService.ts:158-160 | The restore note contains the phrase `State: <done> DONE, <ready> READY` |
| Hooks.NoteFor | src/services/HookService.ts:153-160 | Reading `summary` throws (no note) exactly when the parsed state is null or undefined |
| Hooks.NoteForCounts | src/services/HookService.ts:155-160 | The note names the stored `done` and `ready` counts, 0 when absent or null |
| Hooks.AutoCommit | src/services/HookService.ts:64-72 | True exactly when the plan directory is truthy and its `config.json` parses to a value whose `autoCommit` is exactly `true`; a missing file or parse error gives false |
| Hooks.HooksInstalled | src/services/HookService.ts:75-88 | True only when `settings.json` exists and parses, and its `hooks` (or `{}`) has a `PostToolUse` or `Stop` entry mentioning the endpoint |
| Hooks.HasHook | src/services/HookService.ts:81-85 | Some(true) exactly when the list under the key is mentioned as `MentionedUnder` defines it (an array with an object entry whose JSON contains `claudedash` or `/hook`); no answer (the `.some` call throws) exactly when the list is not an array |
| Hooks.AnyMentions | src/services/HookService.ts:82-85 | True exactly when some entry of the list is an object whose JSON mentions `claudedash` or `/hook` |
| Hooks.HookService.constructor | src/services/HookService.ts:35-40 | Stores both directories; the ring starts empty |
| Hooks.HookService.Push | src/services/HookService.ts:43-56 | Returns the normalised event and appends it, dropping the oldest once over 100; read newest first, the event is in front of the 99 newest earlier ones |
| Hooks.HookService.GetEvents | src/services/HookService.ts:59-61 | The ring reversed: newest first, same length |
| Hooks.HookService.HandlePreCompact | src/services/HookService.ts:91-145 | Steps run in pipeline order; git add iff auto-commit; git commit iff the add succeeded too; both git steps run in the snapshot cwd; the context capture always runs, in the event's cwd (or the plan's parent, or the process cwd), told whether a commit was made, into the plan directory or `<cwd>/.claudedash`; compact-state is written exactly when the plan directory is truthy, `queue.md` reads, the log reads or is absent and the snapshot is computed, and then it is the last step, writing `CompactState` of that snapshot to `<planDir>/compact-state.json` |
| Hooks.HookService.SnapshotDir | src/services/HookService.ts:95 | The plan directory when there is one, otherwise `.claudedash` under the snapshot cwd |
| Hooks.CompactStateStep | src/services/HookService.ts:120-144 | Shared by `handlePreCompact` and the `/hook` route (src/server/routes/live.ts:308-326). At most one write; a write exactly when the plan directory is truthy, `queue.md` reads, `execution.log` reads or is absent (read as empty) and the snapshot is computed; it writes `CompactState` of that snapshot to `<planDir>/compact-state.json` |
| Hooks.LogText | src/services/HookService.ts:127-128 | The text of `execution.log` when it exists (nothing when it cannot be read), otherwise the empty string |
| Hooks.RestoreAppend | src/services/HookService.ts:148-163 | The PostCompact note, shared by `handlePostCompact` and the `/hook` route (src/server/routes/live.ts:331-344): an append exactly when the plan directory is truthy and `compact-state.json` reads, parses and has a readable `summary`; it appends `NoteFor` of that state to the plan's `CLAUDE.md`; nothing without a plan directory or the file |
| Hooks.HookService.HandlePostCompact | src/services/HookService.ts:148-163 | Does nothing without a truthy plan directory or without `compact-state.json`; otherwise any append goes to the plan's `CLAUDE.md` |
| Hooks.HookService.HooksInstalledByPostToolUse | tests/services/HookService.test.ts:90-98 | A `PostToolUse` entry mentioning the hook means installed |
| Hooks.HookService.HooksInstalledByStop | tests/services/HookService.test.ts:100-108 | Whatever array `PostToolUse` holds, or none, a mentioning `Stop` entry means installed |
| Hooks.HookService.HooksNotInstalledWhenPostToolUseIsText | src/services/HookService.ts:80-87 | A string `PostToolUse` makes `.some` throw: not installed, whatever `Stop` holds |
| Hooks.HookService.HooksNotInstalledWithoutMention | tests/services/HookService.test.ts:110-118 | No entry mentioning the endpoint: not installed |
| Hooks.HookService.PostCompactNote | tests/services/HookService.test.ts:122-140 | With a parseable compact-state file, the appended note names its `done` and `ready` counts |
| Hooks.HookService.CompactStateRoundTrip | src/services/HookService.ts:131-161 | A compact-state written by PreCompact, read back by PostCompact, yields a note naming the snapshot's counts |
| Sessions.DismissKey | src/services/SessionService.ts:44 | The key is the session id, a slash, then the task id |
| Sessions.DismissKeyCollision | src/services/SessionService.ts:44 | Two different (session, task) pairs can share a key when an id holds a slash |
| Sessions.DismissKeyInjective | src/services/SessionService.ts:44 | With no slash in the session ids, equal keys mean equal pairs |
| Sessions.FromArray | src/services/SessionService.ts:120 | `new Set(arr)`: no repeats, the same members, never longer |
| Sessions.FromArrayDistinct | src/services/SessionService.ts:120 | An array without repeats becomes a set in the same order |
| Sessions.StoredArray | src/services/SessionService.ts:116-121 | Some exactly when the dismissed file reads as a JSON array, and then that array |
| Sessions.LoadDismissed | src/services/SessionService.ts:115-124 | Empty when the file is missing, unreadable, not JSON or not an array; otherwise the array's members as a set |
| Sessions.LoadSavedDismissed | src/services/SessionService.ts:115-131 | What `saveDismissed` writes, `loadDismissed` reads back as the same keys in the same order |
| Sessions.CutoffFilter | src/services/SessionService.ts:61-63 | The filtered list is never longer than the cache |
| Sessions.CutoffKeeps | src/services/SessionService.ts:61-63 | A session survives iff there is no cutoff (null or 0) or it was updated at or after the cutoff; with no cutoff the list is unchanged |
| Sessions.BuildSession | src/services/SessionService.ts:79-94 | Id, timestamps and metadata are kept; every shown task is one of the session's, is not dismissed, and is stale iff in progress in a session older than 24 hours |
| Sessions.BuildSessionKeeps | src/services/SessionService.ts:82-87 | The shown tasks are exactly the non-dismissed ones in their order; a task shows iff it is the session's and its key is not dismissed |
| Sessions.BuildFreshSession | src/services/SessionService.ts:80-87 | Nothing dismissed and a fresh session: all tasks show, none stale |
| Sessions.NumberField | src/services/SessionService.ts:107-110 | A field is read iff it holds a number |
| Sessions.ReadMeta | src/services/SessionService.ts:96-113 | `null` when the file is missing or reading throws; a field is present iff the file has it with the right type; `languages` only when truthy and object-typed |
| Sessions.ReadSessionsWellFormed | src/core/todoReader.ts:12-47 | What `readSessions` returns has unique ids, non-empty task lists, and is sorted most recent first |
| Sessions.Views | src/services/SessionService.ts:66 | One view per session, in order, with its id and `updatedAt` |
| Sessions.ListingOf | src/services/SessionService.ts:61-68 | `total` counts the cache, `filtered` the listed sessions, and with no cutoff they are equal |
| Sessions.ListingIncludes | src/services/SessionService.ts:61-68 | Every cached session passing the cutoff is listed, built with its own metadata |
| Sessions.ListingOnly | src/services/SessionService.ts:61-68 | Every listed session is built from a cached session passing the cutoff, in cache order |
| Sessions.FindById | src/services/SessionService.ts:74 | None iff no session has the id; otherwise the first one with it |
| Sessions.FindByIdUnique | src/services/SessionService.ts:74 | With unique ids, the session found is the one with that id |
| Sessions.SessionService.constructor | src/services/SessionService.ts:32-35 | Empty cache; the dismissed keys are those on disk |
| Sessions.SessionService.Invalidate | src/services/SessionService.ts:38-40 | The cache is dropped and nothing else changes |
| Sessions.SessionService.Dismiss | src/services/SessionService.ts:43-47 | The key is added (old keys kept), the whole set is written to the dismissed file, the cache is dropped |
| Sessions.SessionService.Load | src/services/SessionService.ts:58-73 | An empty cache is filled from `readSessions`; a full one is kept |
| Sessions.SessionService.GetSessions | src/services/SessionService.ts:54-69 | The result is the listing over the (possibly refilled) cache; dismissed keys unchanged; none when reading throws |
| Sessions.SessionService.GetById | src/services/SessionService.ts:72-77 | Throws iff reading throws; not found iff no cached session has the id; otherwise that session built for `now` |
| Sessions.DismissScenario | src/services/SessionService.ts:43-69 | After `dismiss`, the next listing never shows that task, even if the cache was full before |
| TodoReader.ParseStatus | src/core/todoReader.ts:170-173 | A status is accepted iff it is the string `pending`, `in_progress` or `completed` |
| TodoReader.ParseStatusName | src/core/todoReader.ts:172-173 | Each status is accepted under its own name and no other |
| TodoReader.StringItems | src/core/todoReader.ts:185-186 | A string is kept iff it is a string element of the array; never longer |
| TodoReader.StringItemsAppend | src/core/todoReader.ts:185-186 | Filtering distributes over concatenation, preserving order |
| TodoReader.StringItemsOfStrings | src/core/todoReader.ts:185-186 | An all-string array is kept whole, element by element |
| TodoReader.StringList | src/core/todoReader.ts:185-186 | A non-array gives `[]`; an array gives its string elements |
| TodoReader.ValidateClaudeTask | src/core/todoReader.ts:193-213 | Accepted iff an object with a string `id` and a valid status |
| TodoReader.ClaudeTaskFields | src/core/todoReader.ts:204-212 | An accepted legacy task has the record's id and status, text fields defaulting to `''`, lists reduced to their strings |
| TodoReader.ValidateTodoItem | src/core/todoReader.ts:165-188 | Accepted iff an object with a valid status (no id needed) |
| TodoReader.TodoItemFields | src/core/todoReader.ts:176-187 | The id is the record's string id or the 1-based position; the subject is `content`, then `subject`, then `''` |
| TodoReader.TodoIdFromPosition | src/core/todoReader.ts:180 | A position-derived id parses back to the 1-based position |
| TodoReader.ValidatorsAgree | src/core/todoReader.ts:165-213 | A record with a string id and no string `content` validates the same in both formats |
| TodoReader.IdRun | src/core/todoReader.ts:130 | The longest prefix made of `[a-f0-9-]` |
| TodoReader.SessionIdOf | src/core/todoReader.ts:130-133 | The capture is a prefix at which the pattern matches, and whenever the pattern matches that prefix is the capture |
| TodoReader.SessionIdOfRoundTrip | src/core/todoReader.ts:126-133 | `<id>-agent-<rest>` gives back `<id>` for any id drawn from `[a-f0-9-]` |
| TodoReader.TasksFromFiles | src/core/todoReader.ts:99-111 | At most one task per entry |
| TodoReader.TasksFromFilesMembers | src/core/todoReader.ts:99-111 | A task is collected iff some entry reads, parses and validates to it |
| TodoReader.TaskOrderAntisymmetric | src/core/todoReader.ts:114-119 | The id comparator is antisymmetric: swapping two ids flips the sign of the comparison |
| TodoReader.TaskOrderCycle | src/core/todoReader.ts:114-119 | The id comparator is not transitive: ids `10`, ` 50` and `-x` each compare below the next, and `-x` below `10` |
| TodoReader.ReadSessionTasks | src/core/todoReader.ts:95-122 | The valid tasks of the `.json` entries other than the lock files, permuted into comparator order |
| TodoReader.NumericIdsAscending | src/core/todoReader.ts:114-119 | When every id is an integer, tasks come out in ascending numeric order |
| TodoReader.StatsOf | src/core/todoReader.ts:69-78 | At most one time record per entry |
| TodoReader.EarliestIsMinimum | src/core/todoReader.ts:66 | `Infinity` remains iff no entry has a time; otherwise the minimum birth time |
| TodoReader.LatestIsMaximum | src/core/todoReader.ts:67 | The latest time is at least 0, bounds every mtime, and is 0 or one of them |
| TodoReader.ReadSession | src/core/todoReader.ts:52-90 | Nothing when the directory is missing or has no valid task; otherwise that id, its sorted tasks, and times falling back to the clock |
| TodoReader.FileTimes | src/core/todoReader.ts:66-78 | The loop's results are the minimum birth time and the maximum mtime above 0, skipping entries whose stat throws |
| TodoReader.TodoTasks | src/core/todoReader.ts:142-146 | At most one task per item |
| TodoReader.TodoTasksMembers | src/core/todoReader.ts:142-146 | A task is kept iff some item, validated at its own position, gives it |
| TodoReader.ReadTodosFile | src/core/todoReader.ts:128-160 | A session iff the name matches, the file is an array with a valid item, and its times can be read; under the captured id, with tasks |
| TodoReader.SetSession | src/core/todoReader.ts:23 | `Map.set` keeps ids unique |
| TodoReader.SetSessionEntries | src/core/todoReader.ts:23 | After a set, an entry is present iff it is the new session or an entry under another id |
| TodoReader.SetAll | src/core/todoReader.ts:19-38 | Setting in turn keeps ids unique |
| TodoReader.SetAllFrom | src/core/todoReader.ts:19-38 | Every entry after the sets was there before or was set |
| TodoReader.SetAllLastWins | src/core/todoReader.ts:35-36 | The last session set under an id is the one the map holds |
| TodoReader.SetAllKeeps | src/core/todoReader.ts:19-38 | An entry whose id no later session shares stays |
| TodoReader.CollectedHaveTasks | src/core/todoReader.ts:22 | Only sessions with at least one task are collected |
| TodoReader.ReadSessions | src/core/todoReader.ts:12-47 | The result is the merge of the two directories; nothing when a directory read throws |
| TodoReader.ReadLegacy | src/core/todoReader.ts:16-26 | The first loop's map is the `tasks/` sessions set in entry order |
| TodoReader.MergeTodos | src/core/todoReader.ts:29-39 | The second loop sets the `todos/` sessions over the map |
| TodoReader.MergePromises | src/core/todoReader.ts:35-44 | Most recent first, unique ids, every entry from one of the two directories; the last `todos/` session per id shows; a `tasks/` session shows when nothing later claims its id |
| TodoReader.SortKeepsUniqueIds | src/core/todoReader.ts:41-44 | Sorting by time keeps one entry per id |
| TodoReader.ReadSessionsMerges | src/core/todoReader.ts:12-47 | `readSessions` is that merge, and every session in it has a task |
| Insights.StatusCountsBounded | src/core/insightsEngine.ts:14-17 | The counts of three different statuses add up to at most the number of tasks |
| Insights.Ratio | src/core/insightsEngine.ts:19-23 | 0 for a zero denominator, otherwise the exact quotient, in [0, 1] when the numerator is at most the denominator |
| Insights.Summary | src/core/insightsEngine.ts:14-23 | Totals and status counts of the plan, the three counts never exceeding the total; success rate = `Ratio` of DONE over DONE+FAILED and completion rate = `Ratio` of DONE over all tasks, both in [0, 1] |
| Insights.StatOf | src/core/insightsEngine.ts:40-52 | A slice's totals and counts; progress in [0, 100], the exact percentage when the slice has tasks |
| Insights.GroupSlices | src/core/insightsEngine.ts:30-37 | Slice names without repeats, exactly the slices of the tasks, each group the slice's tasks in plan order |
| Insights.SliceStats | src/core/insightsEngine.ts:39-53 | One stat per slice, computed from its group |
| Insights.SliceSizesSum | src/core/insightsEngine.ts:30-53 | The sizes of distinct slices add up to the tasks in those slices |
| Insights.SliceTotalsCoverTasks | src/core/insightsEngine.ts:30-53 | The slice totals add up to the number of tasks |
| Insights.ComputeTimeline | src/core/insightsEngine.ts:143-177 | The timeline is the per-day cumulative count of DONE and FAILED events |
| Insights.AdjoinAllMembers | src/core/insightsEngine.ts:256-267 | The map's keys are the old keys plus the new ids, without repeats |
| Insights.KeyOrderMembers | src/core/insightsEngine.ts:256-267 | A key is present iff it is some task's id or one of its dependencies; no repeats |
| Insights.BlockCountZero | src/core/insightsEngine.ts:258-266 | An id nobody depends on blocks nothing |
| Insights.BlockCountPositive | src/core/insightsEngine.ts:258-266 | An id with a positive count is a dependency of some task |
| Insights.Entries | src/core/insightsEngine.ts:270 | One entry per key |
| Insights.FindTask | src/core/insightsEngine.ts:275 | None iff no task has the id; otherwise a task with it |
| Insights.DescriptionOf | src/core/insightsEngine.ts:275-279 | `Unknown task` iff the task is missing or its description is empty (or that text); otherwise its description |
| Insights.BottlenecksOf | src/core/insightsEngine.ts:270-281 | One bottleneck per top entry |
| Insights.TallyDeps | src/core/insightsEngine.ts:264-266 | The inner loop adds each dependency's occurrences to its count |
| Insights.CountBlocks | src/core/insightsEngine.ts:256-267 | Keys in insertion order; each count is the number of times the id is depended upon |
| Insights.ComputeBottlenecks | src/core/insightsEngine.ts:252-284 | The result is the bottleneck list of the tasks |
| Insights.TopEntriesPromises | src/core/insightsEngine.ts:270-273 | At most five entries, each from the input with a positive count, largest first; none left out beats one shown |
| Insights.EntriesExact | src/core/insightsEngine.ts:256-270 | Every entry has its exact count, and every id with a positive count has an entry |
| Insights.BottleneckCounts | src/core/insightsEngine.ts:252-284 | At most five; each count positive and exact; descriptions looked up; largest first |
| Insights.BottleneckLeftOut | src/core/insightsEngine.ts:270-273 | No id left out is depended upon more than one shown |
| Insights.ComputePlanInsights | src/core/insightsEngine.ts:10-75 | Summary, timeline, slice stats covering every task, and bottlenecks, each as specified |
| SessionInsights.TokenTotalsOf | src/core/insightsEngine.ts:99-104 | The total is the sum of the four token kinds |
| SessionInsights.Rows | src/core/insightsEngine.ts:111-118 | One row per session, in order |
| SessionInsights.ComputeLiveTimeline | src/core/insightsEngine.ts:179-209 | The timeline is the per-day cumulative count of completed tasks, with no failures |
| SessionInsights.LiveTimelineNoFailures | src/core/insightsEngine.ts:199-207 | Every live point has 0 failures and total equal to completed |
| SessionInsights.ComputeLiveInsights | src/core/insightsEngine.ts:77-141 | Summary, token totals, timeline and top sessions, each as specified |
| SessionInsights.SessionStatusesPartition | src/core/insightsEngine.ts:94-97 | A session's completed, in-progress and pending counts add up to its task count |
| SessionInsights.LiveSummaryPartition | src/core/insightsEngine.ts:78-97 | Completed + in progress + pending = total tasks; active sessions never exceed sessions |
| SessionInsights.TopSessionsOrder | src/core/insightsEngine.ts:111-120 | At most five rows, most tasks first, every session when there are at most five |
| SessionInsights.TopSessionsFromInput | src/core/insightsEngine.ts:111-120 | Each row shown is the row of an input session |
| SessionInsights.TopSessionsLeftOut | src/core/insightsEngine.ts:111-120 | No session left out has more tasks than one shown |
| Timelines.DistinctDays | src/core/insightsEngine.ts:147-153 | The days of the map, without repeats |
| Timelines.DistinctDaysMembers | src/core/insightsEngine.ts:147-153 | A day is present iff some item falls on it |
| Timelines.SortedDaysCover | src/core/insightsEngine.ts:160-162 | The sorted days are strictly increasing and contain every item's day |
| Timelines.SortedDaysFromItems | src/core/insightsEngine.ts:160-162 | Every sorted day is some item's day |
| Timelines.DaySumSnoc | src/core/insightsEngine.ts:155-156 | One more item adds its weight to its own day only |
| Timelines.SumUpToMonotone | src/core/insightsEngine.ts:164-176 | Running totals never decrease with the day |
| Timelines.SumUpToAll | src/core/insightsEngine.ts:164-176 | Up to the last day the running total is the sum of all weights |
| Timelines.PointOn | src/core/insightsEngine.ts:170-175 | A point's total is completed plus failed |
| Timelines.CumulativeEmpty | src/core/insightsEngine.ts:144 | The timeline is empty iff there are no items |
| Timelines.CumulativeOrdered | src/core/insightsEngine.ts:160-162 | Points are in strictly increasing day order |
| Timelines.CumulativeCoversItems | src/core/insightsEngine.ts:147-157 | Every item's day has a point |
| Timelines.CumulativeFromItems | src/core/insightsEngine.ts:147-157 | Every point's day is some item's day |
| Timelines.CumulativeAt | src/core/insightsEngine.ts:164-176 | The k-th point holds the running totals up to the k-th day |
| Timelines.CumulativeMonotone | src/core/insightsEngine.ts:164-176 | Completed and failed never decrease along the timeline; total = completed + failed |
| Timelines.CumulativeLast | src/core/insightsEngine.ts:164-176 | The last point holds the sums of all weights |
| Timelines.GroupByDay | src/core/insightsEngine.ts:147-157 | The grouping loop yields the distinct days and each day's sums |
| Timelines.Accumulate | src/core/insightsEngine.ts:164-176 | The accumulation loop yields the cumulative timeline |
| Ring.Push | src/services/HookService.ts:53-54 | Below capacity the item is appended; at capacity the oldest is dropped and the item appended; the ring never exceeds its capacity |
| Ring.PushNewestFirst | src/services/HookService.ts:53-60 | Read newest first, a push puts the new item in front of the newest `cap - 1` older items |
| Ring.Newest | src/server/routes/live.ts:271-272 | The newest `cap` items, or all when there are fewer |
| Ring.PushAllKeepsNewest | src/server/routes/live.ts:271-272 | Pushing items one by one into an empty ring leaves exactly the newest `cap` of them, in order |
| Ring.PushAllBounded | src/server/server.ts:135-136 | However many pushes, the ring stays within its capacity |
| Tail.NewlinesSplit | src/server/routes/live.ts:29-43 | Newline counts add up over a split of the buffer |
| Tail.CutoffUnique | src/server/routes/live.ts:37-38 | The cutoff for the n-th newline from the end is unique |
| Tail.NthNewlineFromEnd | src/server/routes/live.ts:29-43 | Some iff the buffer holds at least n newlines, and then the position just after the n-th newline from the end |
| Tail.ScanCutoff | src/server/routes/live.ts:23-43 | The chunked backward scan: with enough newlines it stops at the n-th from the end, inside the last chunk read; otherwise it reads everything, counts every newline and leaves the cutoff at the end of the file; where it stops and what it counts are `ScanStart` and `ScanFound`, independent of how the reads fall |
| Tail.ScanRead | src/server/routes/live.ts:34-42 | One read scanned from its last byte to its first: either it reaches `lineCount` at a newline inside the read, which is then the whole-buffer cutoff, or it counts every newline from the read's start to the end of the buffer |
| Tail.ScanEnds | src/server/routes/live.ts:29-43 | When the outer loop exits, the cutoff, the count and the scan start are the ones `ScanStart` and `ScanFound` name |
| Tail.ChunkStart | src/server/routes/live.ts:29-33 | The start of the 64 KB read holding a byte lies at or before it, less than one read before it, and a whole number of reads before the end of the file (or at the start) |
| Tail.WholeScanEstimate | src/server/routes/live.ts:48-50 | A file with fewer newlines than asked for is scanned whole, so the density estimate is exactly its newline count |
| Tail.SmallFileEstimate | src/server/routes/live.ts:48-50 | A file no larger than one read is scanned whole, so the estimate is the number of newlines found |
| Tail.ShortFileNoLines | src/server/routes/live.ts:25-57 | As written, any file with fewer than `lineCount` newlines yields no lines |
| Tail.Decoded | src/server/routes/live.ts:57 | Each piece is decoded on its own, in order |
| Tail.LastN | src/server/routes/live.ts:57 | The last n elements, or all when there are fewer |
| Tail.SplitCount | src/server/routes/live.ts:57 | Splitting on newlines gives one more piece than there are newlines |
| Tail.PiecesAfterCutoff | src/server/routes/live.ts:53-57 | The text after the cutoff splits into exactly the last n pieces of the file |
| Tail.TailLinesFixedAreLastPieces | src/server/routes/live.ts:53-57 | The corrected read returns the non-blank lines among the file's last n pieces, whatever its newline count |
| Tail.TailLinesShortFile | src/server/routes/live.ts:25-57 | As written, a file with fewer than n newlines reads from its end: only an empty piece, so no line |
| Tail.TailLinesAgreeWhenEnoughNewlines | src/server/routes/live.ts:29-57 | With at least n newlines the as-written and corrected reads agree |
| Tail.ShortFileLosesItsLines | src/server/routes/live.ts:25-57 | A one-line file `a` asked for 500 lines: as written nothing, corrected `["a"]` |
| Tail.RoundRatio | src/server/routes/live.ts:49-50 | `Math.round(a / b)`, halves rounded up, stated exactly |
| Tail.RoundWhole | src/server/routes/live.ts:49-50 | A whole ratio rounds to itself |
| Tail.TailRead | src/server/routes/live.ts:12-64 | Missing or empty file: no lines and 0; otherwise the as-written lines (`TailOf`) and the total `max(round(found / scanned * size), lines)` with the scan's own figures (`TotalOf`), never below the line count and exactly the newline count for a file with too few newlines |
| Tail.TailReadFixed | src/server/routes/live.ts:12-64 | The same scan and total, with a short file read from its start (`TailOfFixed`) |
| ContextSummary.UserPrompt | src/server/routes/live.ts:202-212 | A prompt taken from a user message is at most 300 characters |
| ContextSummary.FirstText | src/server/routes/live.ts:207-210 | The first `text` block's text, at most 300 characters |
| ContextSummary.CountTool | src/server/routes/live.ts:221-223 | One more call of a tool: its count goes up by one, others unchanged, a new name joins the keys, the texts stay |
| ContextSummary.BlockStep | src/server/routes/live.ts:217-224 | One assistant block keeps the counts well formed (keys in first-use order, counts positive) |
| ContextSummary.Blocks | src/server/routes/live.ts:216-225 | The block loop keeps the counts well formed |
| ContextSummary.LineStep | src/server/routes/live.ts:196-227 | One transcript line keeps the counts well formed |
| ContextSummary.SummaryOf | src/server/routes/live.ts:192-228 | The summary of any transcript is well formed |
| ContextSummary.AssistantBlocks | src/server/routes/live.ts:216-225 | The block loop computes the block fold, stopping at a block that throws |
| ContextSummary.Summarize | src/server/routes/live.ts:192-228 | The line loop computes the transcript's summary |
| ContextSummary.BlocksCount | src/server/routes/live.ts:217-224 | After the blocks, each tool's count grew by its number of calls among them |
| ContextSummary.LineCount | src/server/routes/live.ts:196-227 | After a line, each tool's count grew by its number of calls in that line |
| ContextSummary.ToolCountsAreCalls | src/server/routes/live.ts:192-228 | Each tool's count is its number of calls in the transcript; a tool is a key iff it is called |
| ContextSummary.LastPromptWins | src/server/routes/live.ts:202-212 | A later user line with a prompt sets the last prompt |
| ContextSummary.UnparsedLineIgnored | src/server/routes/live.ts:197-198 | A line that does not parse changes nothing |
| ContextSummary.LatestIsLast | src/server/routes/live.ts:192-228 | "The last one" is the value at the greatest index that has one, and there is one iff some index has one |
| ContextSummary.LatestCons | src/server/routes/live.ts:216-225 | An earlier value counts only when no later index has one |
| ContextSummary.BlocksTexts | src/server/routes/live.ts:216-225 | The block loop leaves the prompt alone and ends on the last text block before any block that throws, or keeps the text it had |
| ContextSummary.LineTextsStep | src/server/routes/live.ts:196-227 | A line sets the prompt iff it is a user line with a prompt, and the text iff it is an assistant line with a text block; otherwise both stay |
| ContextSummary.SummaryTextsAreLast | src/server/routes/live.ts:192-228 | `lastUserPrompt` is the prompt of the last user line that has one and `lastAssistantSummary` the text of the last assistant line that has one, `None` when there is none |
| ContextSummary.Entries | src/server/routes/live.ts:230 | `Object.entries`: one pair per key in first-use order, with its count |
| ContextSummary.TopEntriesFacts | src/server/routes/live.ts:230-232 | At most 10, all when there are at most 10, each from the entries, largest count first, none left out above one kept |
| ContextSummary.TopEntryCounted | src/server/routes/live.ts:230-233 | Every kept entry names a counted tool and carries its count |
| ContextSummary.RecentToolsByCount | src/server/routes/live.ts:230-233 | Recent tools are listed most called first |
| ContextSummary.RecentToolsCounted | src/server/routes/live.ts:230-233 | At most 10 recent tools, each one counted |
| ContextSummary.RecentToolsAll | src/server/routes/live.ts:230-233 | With at most 10 tools, every counted tool is recent |
| ContextSummary.LeftOutPair | src/server/routes/live.ts:230-233 | A tool left out was called no more than a recent one |
| ContextSummary.RecentToolsLeftOut | src/server/routes/live.ts:230-233 | No tool left out was called more than any recent one |
| ContextSummary.NoRecentTools | src/server/routes/live.ts:192-233 | A summary of no lines is well formed and lists no recent tools |
| ContextSummary.DistinctKeys | src/server/routes/live.ts:194 | There are as many keys in order as counted tools |
| LiveRoutes.DaysCutoff | src/server/routes/live.ts:147-153 | `all` and `0` switch the cutoff off; absent or empty means 7 days; otherwise `parseInt` days back from now, none when not a positive number |
| LiveRoutes.DaysRoundTrip | src/server/routes/live.ts:147-153 | The decimal text of a positive day count selects exactly that many days |
| LiveRoutes.NormaliseInline | src/server/routes/live.ts:261-270 | The event has the body's keys plus the normalised ones; the body's values win; the others are the normalised values |
| LiveRoutes.InlineMatchesServiceIff | src/server/routes/live.ts:261-270 | The route and `HookService.push` build the same event iff every normalised field in the body already holds the normalised value |
| LiveRoutes.InlineKeepsForeignType | src/server/routes/live.ts:262-270 | A body with `type: "x"` yields a route event that is not a hook event, while `push` yields one |
| LiveRoutes.InlineKeepsForeignTime | src/server/routes/live.ts:268-269 | A body's own `receivedAt` replaces the server's time |
| LiveRoutes.Spread | src/server/routes/live.ts:261-269 | `{...body}`: an object's fields, an array's or a string's elements under their indices, nothing for other values |
| LiveRoutes.Chars | src/server/routes/live.ts:269 | A string spreads as its one-character strings, in order |
| LiveRoutes.IndexedAt | src/server/routes/live.ts:269 | Each element of a spread array sits under its own decimal index |
| LiveRoutes.IndexedKeys | src/server/routes/live.ts:269 | Every key of a spread array is the decimal name of an index |
| LiveRoutes.IndexNamesDistinct | src/server/routes/live.ts:269 | Different indices have different decimal names, so no element of a spread array hides another |
| LiveRoutes.SpreadOfText | src/server/routes/live.ts:261-269 | A missing body spreads to nothing; the body `"ab"` spreads to the keys `0` and `1` |
| LiveRoutes.InlineCwd | src/server/routes/live.ts:277 | The route's snapshot cwd is the event's `cwd` whenever it is neither `null` nor `undefined`, whatever its type; otherwise the plan's parent or the process cwd |
| LiveRoutes.InlineSnapshotDir | src/server/routes/live.ts:278 | Fails (the `join` throws) exactly when there is no plan directory and the cwd is not a string; otherwise the plan directory, or `.claudedash` under the cwd |
| LiveRoutes.InlinePreCompact | src/server/routes/live.ts:276-327 | Throws exactly when there is no plan directory and the cwd is not a string; otherwise steps in pipeline order, `git add` iff auto-commit, `git commit` iff the add succeeded in a string cwd, both git steps in the route's cwd, the capture in the route's cwd and snapshot directory, and the compact-state write exactly when `WritesCompactState` holds, last |
| LiveRoutes.InlineCwdAgreesOnHookEvents | src/server/routes/live.ts:277-278 | On an event `push` could have built, the route's cwd and snapshot directory are `HookService`'s |
| LiveRoutes.InlinePreCompactDiverges | src/server/routes/live.ts:261-278 | A body `{"event":"PreCompact","cwd":5,"session":5}` without a plan directory makes the route throw where `HookService` uses the process cwd, and the route's compact-state would carry `sessionId` 5 where `HookService`'s carries `null` |
| LiveRoutes.FirstTranscript | src/server/routes/live.ts:180-183 | None iff no project directory holds the transcript; otherwise the candidate under the first one that does |
| LiveRoutes.FindTranscript | src/server/routes/live.ts:176-185 | The search loop finds the first transcript, none when `projects` is missing or cannot be listed |
| LiveRoutes.LiveState.constructor | src/server/routes/live.ts:90-95 | A fresh hub without clients, a session service with an empty cache, no sessions change yet, no hook events |
| LiveRoutes.LiveState.OnChange | src/server/routes/live.ts:97-103 | A sessions change records its time and drops the cache; a plan change touches neither; every change goes to every client |
| LiveRoutes.LiveState.Health | src/server/routes/live.ts:105-122 | Live iff `tasks` or `todos` exists; plan iff a plan directory holds `queue.md`; the distinct client count; the last sessions change; auto-commit as `getAutoCommit` decides it (true only with a config file) |
| LiveRoutes.LiveState.ListSessions | src/server/routes/live.ts:143-156 | The listing for the cutoff the `days` query selects |
| LiveRoutes.LiveState.SessionById | src/server/routes/live.ts:158-162 | An empty cache is filled from `readSessions` and a full one kept; a throw iff reading throws; `null` iff no cached session has the id; otherwise a cached session with that id, built with the dismissed set, `now` and the session file's metadata |
| LiveRoutes.LiveState.ResumeCommand | src/server/routes/live.ts:164-169 | 404 iff no cached session has the id; otherwise `claude resume <id>` |
| LiveRoutes.LiveState.DismissTask | src/server/routes/live.ts:249-257 | The task's key is dismissed and persisted, the cache dropped, and every client told the sessions changed |
| LiveRoutes.InlineCompactSteps | src/server/routes/live.ts:276-346 | The PreCompact steps run iff the event is `PreCompact`, then throw exactly when `InlinePreCompact` does and otherwise meet `InlinePipeline` (git steps in the route's cwd); the PostCompact note is `RestoreAppend`'s iff the event is `PostCompact` |
| LiveRoutes.LiveState.PostHook | src/server/routes/live.ts:260-346 | The event built from the spread body (`{}` when none) is pushed into the 100-entry ring and sent to every client; the PreCompact steps run iff the event is `PreCompact`, and then throw exactly when `InlinePreCompact` does; the PostCompact note is `RestoreAppend`'s iff the event is `PostCompact`, and nothing otherwise |
| LiveRoutes.LiveState.HookEvents | src/server/routes/live.ts:350-376 | The ring newest first; auto-commit and hooks-installed as the hook service decides them (each false without its file) |
| LiveRoutes.LiveState.ContextOf | src/server/routes/live.ts:172-242 | 404 iff no transcript is found; otherwise the summary of the as-written `tailRead` of it, the message count `tailRead` estimates, and the recent tools |
| LiveRoutes.LiveState.ContextOfFixed | src/server/routes/live.ts:172-242 | The same route over the corrected read of the transcript |
| LiveRoutes.ShortTranscriptSummarisesNothing | src/server/routes/live.ts:25-57 | As written, a transcript with fewer than 500 newlines is summarised from no lines: empty summary and no recent tools, while its message count is its newline count |
| LiveRoutes.ShortTranscriptSummarisedWhole | src/server/routes/live.ts:25-57 | With the corrected read, the same transcript is summarised from all of its non-blank lines |
| Server.ParseCookieToken | src/server/server.ts:26-40 | The loop returns the header's first cookie of that name, decoded (raw when decoding throws); none for a missing or empty header |
| Server.FirstCookieNone | src/server/server.ts:29-39 | No cookie is found iff no trimmed part starts with `name=` |
| Server.FirstCookieAt | src/server/server.ts:29-38 | The first part naming the cookie decides the value |
| Server.OtherCookieSkipped | src/server/server.ts:28-31 | A leading cookie of another name does not change the result |
| Server.EmptyHeaderFindsNothing | src/server/server.ts:27-39 | Splitting an empty header finds no cookie |
| Server.PlainConcat | src/server/server.ts:28-32 | Texts without `;` or spaces concatenate to one |
| Server.TrimNoSpace | src/server/server.ts:30 | Trimming a text without spaces leaves it unchanged |
| Server.PairReadsBack | src/server/server.ts:26-40 | A `name=value; attributes` pair, cut at its first `;`, reads back as the decoded value |
| Server.UnprotectedPass | src/server/server.ts:74-80 | Without a token, or on a static asset, `/`, `/auth/login` or `/auth/logout`, every request passes |
| Server.ProtectedNeedsToken | src/server/server.ts:82-90 | On any other path a request passes iff its bearer token or its `claudedash_token` cookie equals the token |
| Server.BearerAccepted | src/server/server.ts:83-85 | `Bearer <token>` opens every path |
| Server.QueryIgnored | src/server/server.ts:77 | The gate judges only the part of the url before `?` |
| Server.StaticSuffixOpensApiPath | src/server/server.ts:77-80 | Any path ending in `.js`, such as `/sessions/<id>.js`, passes without a token |
| Server.CookieNamePlain | src/server/server.ts:86 | The cookie name has no `;` and no spaces |
| Server.LoginOutcomes | src/server/server.ts:104-110 | 400 iff auth is off; 401 iff on and the body's token (a non-string counts as `''`) differs; a session cookie iff it matches |
| Server.SessionCookieReadsBack | src/server/server.ts:26-40 | The login cookie, sent back, reads as the token |
| Server.LoginThenAuthorized | src/server/server.ts:73-110 | After a successful login the cookie alone passes every path |
| Server.LogoutCookieRejected | src/server/server.ts:82-90 | The emptied logout cookie does not pass a protected path |
| Server.PercentileIndex | src/server/server.ts:146 | The index is in range, and is `floor(n * pct / 100)` unless clamped at 100% |
| Server.PercentileIndexMonotone | src/server/server.ts:146-149 | A higher percentile never picks an earlier index |
| Server.MaxOfIsMax | src/server/server.ts:150 | The maximum is a sample and bounds every sample |
| Server.SortedSamples | src/server/server.ts:145 | The sorted copy is a permutation of the samples in ascending numeric order |
| Server.StatsOrdered | src/server/server.ts:145-152 | p50, p95 and max are samples; p50 ≤ p95 ≤ max; max bounds every sample; `samples` is the count |
| Server.ReportCoversOrder | src/server/server.ts:141-155 | A report holding every recorded route has exactly the recorded routes |
| Server.Timings.constructor | src/server/server.ts:124-125 | No routes and no samples |
| Server.Timings.Record | src/server/server.ts:127-139 | `/events`, `/debug/timing` and SSE responses change nothing; otherwise the route's samples get the time pushed into a 100-entry ring, and a new route joins the order |
| Server.Timings.Report | src/server/server.ts:141-155 | A route is reported iff it has samples, with the statistics of its samples |

## Left out
- Insights.SliceStats: the source collects the stats in a plain object, so `Object.entries` lists integer-like slice names first and a slice named `__proto__` sets the prototype instead of adding a key; the model's `map` has no key order and keeps `__proto__` like any other name.
- Sessions.FromArray: `new Set(arr)` drops repeats by identity, so two equal but distinct objects both stay; the model compares values by structure and drops the second.

- File-system access, `JSON.parse`/`JSON.stringify`, `git`, the context-snapshot writer, the clock and timers are parameters or explicit steps, not real I/O; a failed write is a value the caller may ignore, as the source does.
- `computeSnapshot`, `parseQueue`, `parseLog`, `captureContextSnapshot`, `writeContextSnapshot` and `buildContextHealth` are not part of this model; their results are inputs (the compact-state snapshot counts, the git outcome), and `contextHealth` is not a field of `Sessions.SessionView`.
- The `model` query parameter of `/sessions` and `/sessions/:id` only reaches `buildContextHealth`, so it is left out with it.
- `computeVelocity` works in floating point (hours, rates rounded to two decimals) and is left out; the other ratios (`successRate`, `completionRate`, slice `progress`) are exact `real`s.
- Insights.Summary: the rates are exact rationals, not IEEE doubles, so they can differ from the source in the last bit.
- Server.StatsOf: samples are integer milliseconds; `reply.elapsedTime` is a float and the report rounds each figure to one decimal (`Math.round(x * 10) / 10`), which is not modelled.
- Tail.TailRead: the `totalLines` estimate `Math.round(linesFound / scannedBytes * fileSize)` is pinned to the scan's own figures (`Tail.TotalOf`) but computed exactly over the rationals (`Tail.RoundRatio`); the double division and multiplication could round differently at an exact half.
- Tail.TailReadFixed: the same exact estimate as `Tail.TailRead`.
- `content.toString('utf-8').split('\n')` is modelled as splitting the bytes at `\n` and decoding each piece with a decoding function; the two agree because a `\n` byte never occurs inside a UTF-8 sequence, but the decoder itself is a parameter.
- `decodeURIComponent` and `encodeURIComponent` are parameters; a throwing decode is `None`.
- `path.join` is `Paths.PathJoin`, which puts one `/` between a directory and a name; normalisation of `.`, `..` and repeated slashes is not modelled.
- `Object.entries` is modelled as listing tool names in first-insertion order; JavaScript lists integer-like keys (a tool named `"1"`) first, and a tool named `__proto__` does not become a key at all. Neither is modelled.
- Sessions.CutoffFilter: the source also keeps a session with no `updatedAt`; `readSessions` always sets it, so every session in the model has one.
- Dates are integer milliseconds; ISO formatting and parsing, and `localeCompare` on ISO strings, become integer comparison.
- `Array.prototype.sort` is modelled as a stable insertion sort. For a consistent comparator that is the order the engine's stable sort produces; for an inconsistent comparator (the task-id order below) the engine's result is implementation-defined, so the model fixes one of the possible outcomes.
- TodoReader.ReadSessionTasks: `localeCompare` on two non-numeric task ids is modelled as code-point order (`Text.Compare`); the ICU collation Node uses orders letters, case and punctuation differently. The source's comparator mixes numeric and string comparison, so it is not transitive (`"10"` < `" 50"` numerically, `" 50"` < `"-x"` and `"-x"` < `"10"` as strings); the model proves its antisymmetry and exhibits such a cycle (`TodoReader.TaskOrderCycle`); the order of ids in a cycle is whatever the insertion sort leaves.
- ContextSummary.UserPrompt: `slice(0, 300)` counts UTF-16 code units, while the model's strings count characters (`PREVIEW_CHARS`); text outside the Basic Multilingual Plane is cut at a different place, and the source can cut a surrogate pair in half.
- JSON numbers are integers in the model (`Value.Num`); fractional and exponent numbers in task files, hook bodies and transcripts are not modelled.
- ContextSummary.CountTool: `toolCounts[name] ?? 0` on a plain object reads the prototype for tool names such as `constructor` or `toString`, giving a function rather than undefined, so the source's count for such a name becomes a string; the model counts such names like any other.
- LiveRoutes.InlinePreCompact: a `cwd` that is not a string makes Node reject the `git` commands, so the model records `git add` as failed; an object that Node would accept as a file URL is not modelled. What `captureContextSnapshot` does with such a cwd is not modelled either; the capture is recorded as attempted.
- The `try`/`catch` returning 500 in `/sessions/:id/context` is unreachable in the model, because `tailRead` and the per-line parse already catch everything.
- Fastify wiring is not modelled: the rate limiter, CORS, the static plugin, the SPA fallback, `listen`, and the `ignoreTrailingSlash` router option (under which `/auth/login/` is gated while `/auth/login` is not).
- The `/events` route's socket writes (`data:` frames, `: ping` comments) and its never-resolving promise are not modelled; the hub is modelled through the send and ping calls it makes.
- chokidar itself (`depth`, `awaitWriteFinish`, the order in which it reports) is not modelled; the watcher receives its notifications as inputs.
- The observability routes, the plan routes and the dashboard UI are outside this model.

## Findings

| source | as written | input that shows it | evidently intended | confidence | as-written member | corrected member |
|---|---|---|---|---|---|---|
| src/server/routes/live.ts:25-57 | `cutoffPos` starts at `fileSize` and only moves when the `lineCount`-th newline from the end is found, so a file with fewer newlines is read from its end and yields no lines | a file holding the single byte `a`, read with `lineCount` 500, gives `[]` | the last `lineCount` lines, as the function's doc comment says: a short file is read from its start and gives `["a"]` | not executed | Tail.TailRead, Tail.TailLinesShortFile, Tail.ShortFileLosesItsLines, LiveRoutes.LiveState.ContextOf, LiveRoutes.ShortTranscriptSummarisesNothing | Tail.TailReadFixed, Tail.TailLinesFixedAreLastPieces, LiveRoutes.LiveState.ContextOfFixed, LiveRoutes.ShortTranscriptSummarisedWhole |

The context route as written, `LiveRoutes.LiveState.ContextOf`, therefore returns an empty summary for any transcript of fewer than 500 lines; `LiveRoutes.LiveState.ContextOfFixed` is the same route over the corrected read.
