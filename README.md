# Flamenco Manager and Shaman garbage collection in Dafny

Flamenco is a render-farm manager. Workers register with a Manager, ask it for
tasks, report progress and failures, and sign on and off. The Manager caches
tasks in MongoDB, queues task updates and pushes them to Flamenco Server in
batches, and applies the cancel requests the Server returns. It also forgets
workers that have been offline too long, watches a directory for rendered
images, and reads its configuration from `flamenco-manager.yaml`. Requests to
the Manager's web interface carry a JWT that is checked against the trusted
public keys. The Shaman file store removes stored files that are old and that
no checkout links to any more.

This project models that logic in Dafny and proves properties of the model.

- **Database.** The Mongo collections `flamenco_tasks`, `flamenco_workers` and
  the task-update queue become the fields of a `Db` class.
- **Update documents.** The `$set`, `$push` and `$unset` documents are records
  with one `Option` per field the Manager writes.
- **Go map iteration.** Iteration over a Go map is a nondeterministic choice
  (`:|`). Where a result depends on the order, a ghost `order` output names
  the order taken.
- **Outside effects.** Clocks, the network, the file system and the crypto
  library are parameters:
  - `now` is a parameter.
  - `upstream` answers SendTaskUpdates.
  - `refetch` answers RefetchTask.
  - `verify` answers the ES256 check, and `sign` produces a signature.
  - Walks are sequences of visited entries.
  - Failing removals are sets of paths or IDs.

Modules, one per core file:

- `Common`: options, times and the Go string functions the core relies on.
- `Database`: the Mongo collections and their update documents.
- `TaskUpdates`: `flamenco/task_updates.go`.
- `LegacyTaskUpdates`: the older manager's `task_updates.go`.
- `Scheduler`: the older manager's `scheduler.go`.
- `Workers`: `flamenco/workers.go`.
- `WorkerRemover`: `flamenco/worker_remover.go`.
- `VarRepl`: `flamenco/varrepl.go`.
- `Settings`: `settings.go`.
- `FsWatcher`: `fswatcher.go`.
- `JwtAuth`: `jwtauth/jwt.go`.
- `ShamanCleanup`: `shaman/cleanup.go`.

## Model

| member | source | states |
|---|---|---|
| Common.SplitPiecesFree | flamenco/task_updates.go:354 | no piece of strings.Split contains the separator |
| Common.JoinSplit | flamenco/task_updates.go:354-360 | Join(Split(s, sep), sep) == s for every string |
| Common.TrimRightSpec | src/flamenco-manager/flamenco/settings.go:101 | strings.TrimRight(v, "/") is a prefix of v, does not end in '/', and what it drops is all slashes |
| Common.Ext | src/flamenco-manager/flamenco/fswatcher.go:211 | filepath.Ext: empty exactly when no '.' follows the last '/'; otherwise the suffix from the last such '.', holding no other '.' and no '/' |
| Database.ApplyToTask | flamenco/task_updates.go:255-262 | applying a `$set`/`$push` document to a cached task never changes its ID, job, priority, job type, commands or locality |
| Database.ApplyToWorker | flamenco/workers.go:112-118 | applying a worker update document never changes the worker's ID, platform or job types |
| Database.Db.UpdateTask | flamenco/task_updates.go:257-262 | UpdateId on flamenco_tasks: found iff the task is cached; then exactly that task gets the update, other collections unchanged |
| Database.Db.SetStatusAll | flamenco/task_updates.go:815-818 | UpdateAll `$in` ids: Matched is the number of requested cached tasks; exactly those get the status, the key set is kept |
| Database.Db.UpdateWorker | flamenco/workers.go:32-36 | UpdateId on flamenco_workers: found iff the worker exists; only that worker changes |
| TaskUpdates.TaskStatusTransitionValid | flamenco/task_updates.go:566-589 | valid iff the new status is canceled/failed/completed or the current status is not cancel-requested |
| TaskUpdates.TransitionAgreesWithLegacy | flamenco/task_updates.go:566-577 | for a cached task the in-memory check agrees with the older manager's database check |
| TaskUpdates.TrimLogForTaskUpdateSpec | flamenco/task_updates.go:350-361 | an empty log gives ""; otherwise the tail ends in a newline, what precedes that newline is a suffix of the whitespace-trimmed log, it holds min(lines, 10) newlines, and it is the whole trimmed log plus a newline when that has fewer than 10 line breaks |
| TaskUpdates.TrimLogStartsAtLine | flamenco/task_updates.go:350-361 | the tail of a non-empty log starts at the beginning of a line of the trimmed log: it is the whole trimmed log, or a newline precedes it there |
| TaskUpdates.LastLinesSpec | flamenco/task_updates.go:354-360 | the kept lines are a suffix of the trimmed log with min(line breaks, 9) newlines, and all of it when it has fewer than 10 line breaks |
| TaskUpdates.LastLinesStartAtLine | flamenco/task_updates.go:354-360 | the kept lines are all of the text or the rest of it after a newline |
| TaskUpdates.ConstructUpdatesOnTask | flamenco/task_updates.go:277-307 | the `$set` of the extra updates gains last_updated, the status only when the transition is valid, activity, log and timing only when given |
| TaskUpdates.UpdatesOnTaskApplied | flamenco/task_updates.go:277-307 | the cached task after the update: status changed only by a non-empty status whose transition is valid, activity, log and timing only when given, last_updated set, failed-by list extended by the `$push`, nothing else changed |
| TaskUpdates.UpdatesOnTaskKeepsExtra | flamenco/task_updates.go:281-284 | the `$push`, last_worker_ping and worker_id of the extra updates pass through untouched, and a field they already `$set` stays set |
| TaskUpdates.FailureStatus | flamenco/task_updates.go:180-207 | soft-failed iff the failed-by list is below the soft-fail limit and some worker left is not in it; failed iff the limit is reached or every worker left is in the list |
| TaskUpdates.FailureStatusReporterExcluded | flamenco/task_updates.go:163-207 | after adding the reporter the outcome is failed or soft-failed, and removing the reporter from the workers left (as maybeBlacklistWorker does) does not change it |
| TaskUpdates.OnTaskFailed | flamenco/task_updates.go:162-208 | the reporter is appended to the failed-by list in memory, in the update and in the `$push`; task and update both get FailureStatus |
| TaskUpdates.AddWorkerToFailedListAsWritten | flamenco/task_updates.go:363-383 | as written: defined only when the task carries a worker_id (the dereference at line 372); then the list gains that worker |
| TaskUpdates.UnassignedTaskFailureDereferencesNil | flamenco/task_updates.go:122-146 | a queued task with no worker_id passes the ownership check, stays runnable, and the as-written failed-list step has no result for it |
| TaskUpdates.ReporterIdAgreesWhenAssigned | flamenco/task_updates.go:126 | whenever the task does carry a worker_id, the 409 check made it the reporter's, so the corrected step gives the same list |
| TaskUpdates.QueueTaskUpdateWithExtra | flamenco/task_updates.go:217-273 | the stamped update (log moved to the trimmed tail) is queued unless manager-local; the log write fails iff there is text for a known job; only on success is the cached task updated |
| TaskUpdates.LogTaskActivity | flamenco/task_updates.go:310-327 | queues an update holding only the activity and the log line, with the same cache effect |
| TaskUpdates.Sanitized | flamenco/task_updates.go:135-140 | a runnable task keeps the report; otherwise status and activity are blanked and nothing else changes |
| TaskUpdates.PrepareReport | flamenco/task_updates.go:135-149 | the prepared report keeps its task ID, its log and the task's job, and carries the task's manager-local flag |
| TaskUpdates.NonRunnableTaskKeepsStatus | flamenco/task_updates.go:135-140 | a report on a non-runnable task changes neither status, activity nor failed-by list; the task is still pinged and stamped |
| TaskUpdates.FailedReportOutcome | flamenco/task_updates.go:142-147 | a failed report on a runnable task adds the reporter to the failed-by list and sets FailureStatus |
| TaskUpdates.RunnableTaskTakesReportedStatus | flamenco/task_updates.go:135-150 | any other status reported on a runnable task is applied as reported (an empty one keeps the status), likewise the activity |
| TaskUpdates.QueueTaskUpdateFromWorker | flamenco/task_updates.go:82-158 | 403 iff the worker is unknown, 400 iff the body is unreadable, 404 iff the task is unknown, 409 iff assigned elsewhere; 403 changes nothing; 400, 404 and 409 leave tasks and queue alone and only record that the worker was seen; otherwise the worker is seen and pinged, then 204 or 500 with the queued report |
| TaskUpdates.PrepareReported | flamenco/task_updates.go:133-149 | blanking status and activity for a non-runnable task, then onTaskFailed for a failed report, gives PrepareReport's task, update and `$push` |
| TaskUpdates.AcceptReport | flamenco/task_updates.go:133-157 | the prepared update is queued unless manager-local; 500 iff the log write fails, else 204; the cached task shows the ping and, on 204, AcceptedTask; the reporting worker records the ping time and reported status |
| TaskUpdates.CancelEffect | flamenco/task_updates.go:803-840 | a requested active task becomes cancel-requested, any other requested one canceled; only status, last_updated and activity can change |
| TaskUpdates.QueueTaskCancel | flamenco/task_updates.go:784-801 | queues the activity note (unless manager-local) and then a "canceled" update; the cached task is canceled |
| TaskUpdates.CancelUpdatesApplied | flamenco/task_updates.go:784-801 | the note and the canceled update together give CanceledTask |
| TaskUpdates.CanceledAll | flamenco/task_updates.go:803-812 | canceling a set of tasks keeps the key set of the cache |
| TaskUpdates.CancelOneFetched | flamenco/task_updates.go:809-811 | one more inactive fetched task is canceled and its two updates are queued |
| TaskUpdates.CancelFetched | flamenco/task_updates.go:803-812 | exactly the inactive requested cached tasks are canceled, once each; the active ones are collected for cancel-requested |
| TaskUpdates.CancelOneUnknown | flamenco/task_updates.go:836-840 | a fake task for an unknown ID gets its cancel pair queued, the cache is untouched |
| TaskUpdates.CancelUnknown | flamenco/task_updates.go:829-841 | one cancel pair per requested ID the manager has no task for, in request order |
| TaskUpdates.CancelKnown | flamenco/task_updates.go:763-827 | fetch, cancel inactive, mark active cancel-requested: every cached task ends as CancelEffect, Matched counts the active ones |
| TaskUpdates.HandleIncomingCancelRequests | flamenco/task_updates.go:754-851 | no IDs change nothing; otherwise every cached task ends as CancelEffect, the queue only grows by the cancel pairs, and a shortfall is reported iff Matched + canceled < requested |
| TaskUpdates.CancelQueueOutcome | flamenco/task_updates.go:803-841 | the queue after both loops is the old queue followed by the cancel pairs of the canceled and the unknown IDs |
| TaskUpdates.CancelOutcome | flamenco/task_updates.go:803-827 | the cache after both status changes is CancelEffect of every cached task |
| TaskUpdates.CancelCoversEveryIdOnce | flamenco/task_updates.go:845 | with distinct requested IDs, active + inactive + unknown counts add up to the request, so no shortfall is logged |
| TaskUpdates.Push | flamenco/task_updates.go:696-749 | a failed send changes nothing; otherwise the handled updates are unqueued unless that fails, and the queue continues with one cancel pair per inactive or unknown requested task; cancel requests are always applied to the cache, and the result reports an unqueue failure |
| TaskUpdates.FirstRoundPushes | flamenco/task_updates.go:638-673 | against the zero lastPush the elapsed time saturates, so the first round always pushes |
| TaskUpdates.TaskUpdatePusher.constructor | flamenco/task_updates.go:592-608 | a pusher with the configured limits and lastPush at the zero time |
| TaskUpdates.TaskUpdatePusher.Round | flamenco/task_updates.go:647-686 | pushes iff forced or MayPush; lastPush moves to now only after a successful push |
| LegacyTaskUpdates.ValidForCancelRequested | packages/flamenco-manager-go/src/flamenco-manager/flamenco/task_updates.go:138-148 | true iff the status is canceled, failed or completed |
| LegacyTaskUpdates.TaskStatusTransitionValid | packages/flamenco-manager-go/src/flamenco-manager/flamenco/task_updates.go:119-136 | terminal statuses are valid without a lookup; an unknown task refuses the rest; otherwise valid iff not cancel-requested |
| LegacyTaskUpdates.CancelRequestedIsSticky | packages/flamenco-manager-go/src/flamenco-manager/flamenco/task_updates.go:82-95 | a cancel-requested task only moves to a terminal status, and a reported "active" leaves it cancel-requested |
| LegacyTaskUpdates.QueueTaskUpdate | packages/flamenco-manager-go/src/flamenco-manager/flamenco/task_updates.go:71-113 | the stamped update is appended to the queue; the cached task takes a valid status and a non-empty activity |
| LegacyTaskUpdates.MayPush | packages/flamenco-manager-go/src/flamenco-manager/flamenco/task_updates.go:200-207 | pushes iff the cancel-fetch interval passed, or the queue is non-empty and holds a full batch or the push interval passed |
| LegacyTaskUpdates.Batch | packages/flamenco-manager-go/src/flamenco-manager/flamenco/task_updates.go:235 | Find().Limit(n) gives a prefix of the queue of length min(n, queue), the whole queue for Limit(0) |
| LegacyTaskUpdates.Unqueue | packages/flamenco-manager-go/src/flamenco-manager/flamenco/task_updates.go:257-259 | RemoveAll `$in` handled keeps exactly the updates whose ID was not handled, each as often as before and in their original order |
| LegacyTaskUpdates.Push | packages/flamenco-manager-go/src/flamenco-manager/flamenco/task_updates.go:229-269 | a failed send changes nothing; otherwise handled updates leave the queue unless unqueueing fails, and the queue continues with one "canceled" update per inactive or unknown requested task; cancel requests are handled in either case |
| LegacyTaskUpdates.Unknown | packages/flamenco-manager-go/src/flamenco-manager/flamenco/task_updates.go:336-344 | only requested IDs without a cached task |
| LegacyTaskUpdates.UnknownExactly | packages/flamenco-manager-go/src/flamenco-manager/flamenco/task_updates.go:336-344 | every occurrence of an uncached requested ID is kept, as often as requested and in request order |
| LegacyTaskUpdates.CanceledUpdateApplied | packages/flamenco-manager-go/src/flamenco-manager/flamenco/task_updates.go:300-304 | the queued "canceled" update only sets the cached task's status to canceled |
| LegacyTaskUpdates.WithStatus | packages/flamenco-manager-go/src/flamenco-manager/flamenco/task_updates.go:325-328 | setting a status on a set of tasks keeps the key set |
| LegacyTaskUpdates.QueueTaskCancel | packages/flamenco-manager-go/src/flamenco-manager/flamenco/task_updates.go:300-311 | one "canceled" update for the task is queued and a cached task becomes canceled |
| LegacyTaskUpdates.CancelOneFetched | packages/flamenco-manager-go/src/flamenco-manager/flamenco/task_updates.go:319-321 | one more inactive fetched task is canceled and its update queued |
| LegacyTaskUpdates.CancelFetched | packages/flamenco-manager-go/src/flamenco-manager/flamenco/task_updates.go:313-322 | exactly the inactive requested cached tasks are canceled, one update each; the active ones are collected |
| LegacyTaskUpdates.CancelUnknown | packages/flamenco-manager-go/src/flamenco-manager/flamenco/task_updates.go:336-344 | one "canceled" update per requested ID without a cached task, in order; the cache is untouched |
| LegacyTaskUpdates.CancelKnown | packages/flamenco-manager-go/src/flamenco-manager/flamenco/task_updates.go:280-334 | every cached task ends as CancelEffect; Matched counts the active requested ones |
| LegacyTaskUpdates.HandleIncomingCancelRequests | packages/flamenco-manager-go/src/flamenco-manager/flamenco/task_updates.go:274-354 | no IDs change nothing; otherwise the cache ends as CancelEffect, the queue grows only by "canceled" updates for the inactive and unknown IDs, and a shortfall is reported iff Matched + canceled < requested |
| LegacyTaskUpdates.CancelTasksOutcome | packages/flamenco-manager-go/src/flamenco-manager/flamenco/task_updates.go:313-334 | the cache after both status changes is CancelEffect of every cached task |
| LegacyTaskUpdates.CancelQueueOutcome | packages/flamenco-manager-go/src/flamenco-manager/flamenco/task_updates.go:313-344 | the queue after both loops is the old queue followed by updates for exactly the inactive and unknown IDs |
| LegacyTaskUpdates.NoShortfallForDistinctIds | packages/flamenco-manager-go/src/flamenco-manager/flamenco/task_updates.go:348 | with distinct requested IDs the three classes add up to the request |
| Scheduler.HighestExists | packages/flamenco-manager-go/src/flamenco-manager/flamenco/scheduler.go:122-124 | whenever an eligible task exists, one of highest priority exists, so Sort("-priority").Limit(1) has a result |
| Scheduler.Activated | packages/flamenco-manager-go/src/flamenco-manager/flamenco/scheduler.go:115-118 | the change sets the status to active, which is no longer schedulable |
| Scheduler.ClaimHighest | packages/flamenco-manager-go/src/flamenco-manager/flamenco/scheduler.go:124 | no task iff nothing is eligible; otherwise the claimed task is of highest priority and becomes active |
| Scheduler.NextClaimNoHigher | packages/flamenco-manager-go/src/flamenco-manager/flamenco/scheduler.go:122-124 | a claimed task cannot be claimed again, and the next claim has no higher priority |
| Scheduler.SchedulingProjection | packages/flamenco-manager-go/src/flamenco-manager/flamenco/scheduler.go:42-43 | the fetched worker keeps only its platform, job types and address |
| Scheduler.AssignUpdate | packages/flamenco-manager-go/src/flamenco-manager/flamenco/scheduler.go:79-80 | the update only sets worker_id |
| Scheduler.TaskScheduler.constructor | packages/flamenco-manager-go/src/flamenco-manager/flamenco/scheduler.go:16-32 | the throttle is configured and last_upstream_check starts at the zero time |
| Scheduler.TaskScheduler.FetchTaskFromQueueOrManager | packages/flamenco-manager-go/src/flamenco-manager/flamenco/scheduler.go:97-148 | no job types: nothing; otherwise a kick (and re-query) iff nothing eligible and the throttle passed; 204 iff still nothing eligible, else the highest-priority task is claimed active |
| Scheduler.TaskScheduler.FetchUnchangedTask | packages/flamenco-manager-go/src/flamenco-manager/flamenco/scheduler.go:52-74 | ends with no task, with 1000 changed attempts, or with an active claimed task RefetchTask reports unchanged |
| Scheduler.TaskScheduler.AssignTask | packages/flamenco-manager-go/src/flamenco-manager/flamenco/scheduler.go:75-84 | the returned task differs only by variable replacement; the stored task only gains worker_id |
| Scheduler.TaskScheduler.ScheduleTask | packages/flamenco-manager-go/src/flamenco-manager/flamenco/scheduler.go:34-92 | 403 iff the worker is unknown; otherwise the worker record is as Seen leaves it; 204 only when nothing is eligible; 500 after 1000 changed refetches; a returned task is claimed, active, assigned to the worker and variable-replaced |
| Workers.Identifier | flamenco/workers.go:24-29 | the address, followed by " (nickname)" exactly when there is a nickname |
| Workers.IsRunnableTaskStatus | flamenco/workers.go:280-289 | runnable iff active, claimed-by-manager or queued |
| Workers.Projected | flamenco/workers.go:238-239 | the address/nickname projection keeps the identifier |
| Workers.SplitHostPort | flamenco/workers.go:97-101 | a split host and port join back to the address and hold no stray colon or bracket |
| Workers.SplitHostPortJoin | flamenco/workers.go:97 | "host:port" splits into host and port |
| Workers.SeenEx | flamenco/workers.go:87-119 | the in-memory worker gains now and the remote host; the stored worker gets the update iff it exists |
| Workers.Seen | flamenco/workers.go:76-84 | SeenEx without extra updates: the registry becomes AfterSeen |
| Workers.SeenEffect | flamenco/workers.go:87-119 | afterwards the stored worker is awake, last active now and at the request's host, keeps its ID and platform, and takes nickname and task types only from the extra `$set` |
| Workers.SetStatus | flamenco/workers.go:32-36 | status set in memory and, iff stored, in the database |
| Workers.SetCurrentTask | flamenco/workers.go:39-43 | current task set in memory and, iff stored, in the database |
| Workers.Timeout | flamenco/workers.go:46-73 | the stored worker's status becomes "timeout" |
| Workers.WorkerPingedTask | flamenco/workers.go:294-328 | the task gets the ping time and worker; only if the task exists is the worker stamped |
| Workers.PingedWorker | flamenco/workers.go:316-321 | current_task_updated is now; the status only changes when one is reported; nothing else changes |
| Workers.MayKeepRunningReason | flamenco/workers.go:253-268 | not found, reassigned and non-runnable in that order of checks; none iff the worker may keep running |
| Workers.WorkerMayRunTask | flamenco/workers.go:229-277 | unknown worker iff 403; the answer follows MayKeepRunningReason and only a yes records the ping; otherwise the worker record is as Seen leaves it, plus the ping time on a yes |
| Workers.WorkerSignOn | flamenco/workers.go:395-440 | 403, 400 or 204; on 204 the worker is seen, its current task unset, nickname and task types updated when given |
| Workers.SignOnEffect | flamenco/workers.go:417-433 | after sign-on the worker is awake, has no current task and has the new nickname and types exactly when given |
| Workers.Requeued | flamenco/workers.go:369-379 | handing tasks back keeps the key set |
| Workers.SignOffUpdate | flamenco/workers.go:361-367 | the update re-queues as claimed-by-manager for worker "-" with an activity |
| Workers.RequeueTasks | flamenco/workers.go:369-379 | every active task of the worker gets exactly one queued update |
| Workers.WorkerSignOff | flamenco/workers.go:331-390 | 403 iff unknown; otherwise all active tasks of the worker are handed back, one update each, and the worker goes down |
| WorkerRemover.Without | flamenco/worker_remover.go:117-124 | the registry without the removed workers has exactly the other keys |
| WorkerRemover.WorkerRemover.constructor | flamenco/worker_remover.go:50-68 | the remover keeps the configured maximum age and statuses |
| WorkerRemover.WorkerRemover.CleanupWorkers | flamenco/worker_remover.go:97-128 | every matching worker is visited once; its tasks are returned and it is removed unless the removal fails |
| WorkerRemover.CreateWorkerRemover | flamenco/worker_remover.go:50-68 | no remover iff the maximum age is zero or no statuses are configured |
| VarRepl.ReplaceInSettings | flamenco/varrepl.go:35-43 | every string setting is expanded, other values unchanged, same keys |
| VarRepl.ReplaceVariables | flamenco/varrepl.go:33-45 | the same commands in the same order, each with its string settings expanded; nothing else about the task changes |
| VarRepl.ReplaceIdempotent | flamenco/varrepl.go:33-45 | with an expansion that fixes its own output, replacing twice equals replacing once |
| VarRepl.ReplaceLocal | flamenco/varrepl.go:48-51 | gives the value ReplaceVariables gives a string setting for a worker on the local platform |
| VarRepl.LocalAgreesWithWorker | flamenco/varrepl.go:33-51 | a string setting of a replaced task equals ReplaceLocal of the original on the worker's platform |
| Settings.AddColumn | src/flamenco-manager/flamenco/settings.go:132-137 | the output gains out[p][v] for every platform of the variable and nothing else |
| Settings.StoreValue | src/flamenco-manager/flamenco/settings.go:133-136 | one pair is stored, creating the inner map when missing |
| Settings.TransposeVariableMatrix | src/flamenco-manager/flamenco/settings.go:129-139 | out[p][v] == in[v][p] for exactly the pairs of the input |
| Settings.SamePairsEqual | src/flamenco-manager/flamenco/settings.go:129-139 | matrices with the same pairs and no empty rows are equal |
| Settings.TransposeUnique | src/flamenco-manager/flamenco/settings.go:129-139 | the transpose does not depend on the map iteration order |
| Settings.NonEmptyRows | src/flamenco-manager/flamenco/settings.go:129-139 | the matrix without its empty inner maps |
| Settings.TransposeTwice | src/flamenco-manager/flamenco/settings.go:105-139 | transposing twice gives the matrix back, less its empty rows |
| Settings.YamlOverridesDefaults | src/flamenco-manager/flamenco/settings.go:66-78 | for every YAML file, each key present gives its value and each key absent keeps its default (300 s, 10 s, 30 s, 10, 10 s, 1 min, 15 min, 14 days, empty matrices) |
| Settings.CheckAndTrimPaths | src/flamenco-manager/flamenco/settings.go:89-103 | a duplicate is flagged iff some path variable is also a regular variable; every path value loses its trailing slashes |
| Settings.TrimRow | src/flamenco-manager/flamenco/settings.go:100-102 | every platform's value is TrimRight(value, "/") |
| Settings.TrimmedPaths | src/flamenco-manager/flamenco/settings.go:98-102 | no trimmed path ends in '/', and each is its value less trailing slashes |
| Settings.GetConf | src/flamenco-manager/flamenco/settings.go:59-127 | unreadable file, bad URL and duplicates are fatal; otherwise the defaults overridden by the file, trimmed paths and both transposes |
| FsWatcher.SendsAfterUnlock | src/flamenco-manager/flamenco/fswatcher.go:280-285 | locking, unlocking and then sending keeps every send outside the lock and the lock balanced |
| FsWatcher.AsWrittenSendsWhileLocked | src/flamenco-manager/flamenco/fswatcher.go:262-285 | with the deferred unlock, any non-empty report is sent while the lock is held |
| FsWatcher.RipePaths | src/flamenco-manager/flamenco/fswatcher.go:266-272 | the collected paths are distinct and are exactly the entries not written after the threshold |
| FsWatcher.ImageWatcher.constructor | src/flamenco-manager/flamenco/fswatcher.go:53-86 | an empty image map and nothing sent |
| FsWatcher.ImageWatcher.QueueImage | src/flamenco-manager/flamenco/fswatcher.go:199-235 | an existing non-directory .exr/.jpg/.png (any case) enters or refreshes the map with now; anything else changes nothing |
| FsWatcher.ImageWatcher.RenamePath | src/flamenco-manager/flamenco/fswatcher.go:183-197 | the old path's entry leaves the map |
| FsWatcher.ImageWatcher.CreatePath | src/flamenco-manager/flamenco/fswatcher.go:143-171 | a file is queued; a directory or a failed stat changes no entry |
| FsWatcher.ImageWatcher.HandleEvent | src/flamenco-manager/flamenco/fswatcher.go:98-132 | the first matching operation bit (create, write, remove, rename) decides the map change |
| FsWatcher.ImageWatcher.CollectRipe | src/flamenco-manager/flamenco/fswatcher.go:266-277 | the ripe entries are reported once each and removed; younger entries stay |
| FsWatcher.ImageWatcher.SendAll | src/flamenco-manager/flamenco/fswatcher.go:282-285 | the paths are sent in order |
| FsWatcher.ImageWatcher.ImageMapIteration | src/flamenco-manager/flamenco/fswatcher.go:253-286 | every entry written on or before now − 5s is sent once and removed, younger ones stay, and sends happen outside the lock |
| FsWatcher.ImageWatcher.ImageMapIterationAsWritten | src/flamenco-manager/flamenco/fswatcher.go:253-286 | same map effect, with every send between lock and deferred unlock |
| JwtAuth.GetBearerToken | jwtauth/jwt.go:53-68 | a token only after a case-insensitive "Bearer " scheme, and it is the rest of the header |
| JwtAuth.NoBearerScheme | jwtauth/jwt.go:56-66 | a header not starting with the scheme in any case gives no token |
| JwtAuth.BearerRoundTrip | jwtauth/jwt.go:62-67 | "Bearer " in any case followed by a token gives that token back |
| JwtAuth.CheckSignature | jwtauth/jwt.go:80-104 | accepted iff some trusted key verifies the signature of header.payload |
| JwtAuth.ValidateWithKeystore | jwtauth/jwt.go:75-135 | the method equals Validate |
| JwtAuth.AcceptedIsSound | jwtauth/jwt.go:79-134 | an accepted token has three parts, a signature some key verifies, algorithm ES256 and valid claims |
| JwtAuth.NoKeysRefuseAll | jwtauth/jwt.go:87-103 | with no trusted keys every token is refused |
| JwtAuth.ExpiredReported | jwtauth/jwt.go:124-128 | a verified ES256 token with the expired bit set gives the expired error |
| JwtAuth.AcceptsWellFormed | jwtauth/jwt.go:79-134 | three dot-free parts with a verifying key, ES256 and valid claims are accepted |
| JwtAuth.CookieTakesPrecedence | jwtauth/jwt.go:149-152 | a cookie token wins over the header |
| JwtAuth.NoTokenIff | jwtauth/jwt.go:149-155 | no token iff no cookie and no bearer token |
| JwtAuth.ParseToken | jwtauth/jwt.go:146-158 | no token gives the no-token error; otherwise validation of the token found |
| JwtAuth.Respond | jwtauth/jwt.go:162-186 | served iff valid; expired gets StatusTokenExpired, other errors 401 with the detail only when friendly; the user-id header is the subject |
| JwtAuth.FriendlyDetail | jwtauth/jwt.go:170-173 | in friendly mode the message extends the fixed text |
| JwtAuth.Wrap | jwtauth/jwt.go:161-187 | the response is Respond of the parse result |
| JwtAuth.ExpiresOneDayLater | jwtauth/jwt.go:208-213 | the token expires 86400 seconds after it was issued |
| JwtAuth.GenerateToken | jwtauth/jwt.go:200-224 | no private key fails with that error; with a key, a successful signature of the claims at now is the token and a failed one gives SigningFailed |
| ShamanCleanup.RoundToSecond | shaman/cleanup.go:62-65 | a whole second, less than half a second below or at most half a second above the input, so halfway values round up |
| ShamanCleanup.GcAgeThreshold | shaman/cleanup.go:62-65 | now minus the maximum age, rounded to a whole second with halfway values up |
| ShamanCleanup.OldFilesExactly | shaman/cleanup.go:153-166 | a path is in the old-file map iff some visited file with that path is older than the threshold; its mtime is one such visit's and lies before the threshold |
| ShamanCleanup.FindOldFiles | shaman/cleanup.go:140-175 | an error iff the walk fails; else exactly the old files |
| ShamanCleanup.FirstError | shaman/cleanup.go:188-191 | the position of the first walk error, or the walk's length |
| ShamanCleanup.Unlinked | shaman/cleanup.go:212-213 | deleting link targets removes exactly those keys |
| ShamanCleanup.FilterLinkedFiles | shaman/cleanup.go:178-222 | ok iff the walk has no error; the old files lose the targets of the symlinks visited before the error; the counter grows by those symlinks |
| ShamanCleanup.UnlinkedTwice | shaman/cleanup.go:103-111 | filtering twice is filtering by both target sets |
| ShamanCleanup.FilterAll | shaman/cleanup.go:101-111 | the directories are walked in order until one fails; the result is the filter over the concatenated walk up to that error |
| ShamanCleanup.WalkFailsAt | shaman/cleanup.go:103-110 | the loop stops at the first directory whose walk fails |
| ShamanCleanup.DryRunRemovesNothing | shaman/cleanup.go:241-243 | a dry run removes no file |
| ShamanCleanup.RemovedOnlyUnusedUntouched | shaman/cleanup.go:224-249 | a removed file was old, is not linked, was not written since it was found, and its removal did not fail |
| ShamanCleanup.Server.constructor | shaman/cleanup.go:70 | a server over the given stored files |
| ShamanCleanup.Server.DeleteOldFiles | shaman/cleanup.go:224-252 | every old file is visited once; bytes counted for files not touched again; files removed exactly as Removed, count equals their number |
| ShamanCleanup.Server.GCStorage | shaman/cleanup.go:70-138 | files older than GcAgeThreshold count as old; zero stats when the store walk fails or nothing is old; failed checkout walks keep not-deleted = old; else unused/still-used split, deletions and not-deleted = old − deleted |
| ShamanCleanup.DeleteLoop | shaman/cleanup.go:227-249 | the value-level deletion loop: all old files visited, files removed exactly as Removed |
| ShamanCleanup.DeleteOne | shaman/cleanup.go:228-248 | one old file: bytes when not touched again, removed unless dry or failing |

## Left out

- I/O and logging: HTTP response bodies, log output and JSON encoding and decoding are left out. A failed decode is a `None` body.
- Goroutines, timers and channels are left out:
  - the Close/Go machinery and `shutdownChan` with `filepath.SkipDir`;
  - the blocking of the `imageCreated` channel;
  - the kick channel, where only the forced flag of a round is kept.
- fsnotify watches and the `filepath.Walk` in createPath are left out. Only the image-map effect is modelled.
- `maybeBlacklistWorker` (flamenco/task_updates.go:462-551) is left out. Its blacklist and its hard-failing of earlier tasks are database side effects outside the cached task. Its result, the set of workers left, is a parameter.
- `writeTaskLog`, `rotateTaskLogFile`, `taskLogPath` and `onTaskStatusMayHaveChanged` are file operations. A log write appears only as the `writeFails` flag.
- `taskLogUploader`, `RefetchTask`, `KickDownloader`, `SendTaskUpdates` and `returnAllTasks` are calls into code that is not part of this model. They are parameters, or for KickDownloader a set of downloaded tasks merged into the cache.
- `RegisterWorker`, `StoreNewWorker`, `WorkerSecret`, `FindWorkerByID` and `WorkerCount` are left out. They need bcrypt hashing or only read the database.
- Database errors other than "not found" are left out. So are failing queue inserts, except in Push, where `unqueueFails` models them.
- The older manager's `WorkerSeen` is not part of this model. ScheduleTask calls the newer `Worker.Seen` (flamenco/workers.go:76-84) in its place, so its worker-record effect is Seen's.
- YAML parsing and `url.Parse` are inputs to GetConf. `GetTestConfig` and the debug printing of the matrices are left out.
- From the jwt-go library, the following are inputs: ParseUnverified, Claims.Valid, the ES256 check and signing, and the number behind StatusTokenExpired. `SubjectFromContext` is the parsed subject.
- `WrapFunc` and `GenerateToken` only fetch the global key store, so they are not modelled separately.
- `strings.EqualFold` and `strings.ToLower` are modelled for ASCII letters only. Strings are sequences of characters, not bytes.
- ShamanCleanup.Server.GCStorage: after a checkout walk fails, the contract states the symlink count only up to the failing walk, as gathered so far.
- ShamanCleanup.Server.GCStorage: `bytesDeleted` is an unbounded integer. The overflow of Go's int64 is not modelled, and neither is `humanizeByteSize`.
- `periodicCleanup` is left out: it is the timer loop around GCStorage.
- Scheduler.TaskScheduler.ScheduleTask: when a worker has no job types, the source writes no response and the model reports 200 with no task.
- TaskUpdates.TaskUpdatePusher.Round: Go's `time.Duration` saturates when subtracting the zero time, and this is modelled by `Sub`. Wall-clock values outside int64 are not modelled.

## Findings

| source | as written | input that shows it | evidently intended | confidence | as-written member | corrected member |
|---|---|---|---|---|---|---|
| flamenco/task_updates.go:372 | `addWorkerToFailedList` (and `maybeBlacklistWorker` at line 464) dereferences `*task.WorkerID`, while the ownership check at line 126 admits tasks whose `worker_id` is nil | a queued task that was never assigned, for which a worker reports status "failed" | use the reporting worker's ID, which the check at line 126 shows equals `worker_id` whenever one is set | not executed | TaskUpdates.AddWorkerToFailedListAsWritten, TaskUpdates.UnassignedTaskFailureDereferencesNil | TaskUpdates.OnTaskFailed, TaskUpdates.ReporterIdAgreesWhenAssigned |
| src/flamenco-manager/flamenco/fswatcher.go:262-285 | the unlock is `defer`red inside a bare block, so it runs when the function returns; the paths are sent on the channel while the map lock is held | any iteration that reports at least one ripe image | unlock before sending, as the comment at lines 280-281 says, so a blocked channel does not block the watch loop | not executed | FsWatcher.ImageWatcher.ImageMapIterationAsWritten, FsWatcher.AsWrittenSendsWhileLocked | FsWatcher.ImageWatcher.ImageMapIteration, FsWatcher.SendsAfterUnlock |
