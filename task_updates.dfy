/** Task updates of the current manager (flamenco/task_updates.go): what a
    worker's report does to the cached task and the queue, the soft-fail /
    hard-fail decision, the log tail sent upstream, the push loop and the
    handling of cancel requests coming back from Flamenco Server. */
module TaskUpdates {
  import opened Common
  import opened Database
  import Workers
  import LegacyTaskUpdates

  /** How many lines of logging are sent to the server. */
  const TaskQueueRetainLogLines := 10

  /** The empty ObjectId, used as the job of a task the manager knows nothing about. */
  const UnknownJobId: ObjectId := 0

  // ---------------------------------------------------------------------
  // Status transitions

  /** taskStatusTransitionValid: only a cancel-requested task refuses a new
      status, and even it accepts canceled, failed and completed. */
  function TaskStatusTransitionValid(currentStatus: string, newStatus: string): (valid: bool)
    ensures valid <==> newStatus in {StatusCanceled, StatusFailed, StatusCompleted}
                       || currentStatus != StatusCancelRequested
  {
    if LegacyTaskUpdates.ValidForCancelRequested(newStatus) then true
    else currentStatus != StatusCancelRequested
  }

  /** The check on the in-memory status agrees with the older manager's check,
      which looked the status up in the task cache. */
  lemma TransitionAgreesWithLegacy(tasks: map<ObjectId, Task>, taskId: ObjectId, newStatus: string)
    requires taskId in tasks
    ensures LegacyTaskUpdates.TaskStatusTransitionValid(tasks, taskId, newStatus)
            == TaskStatusTransitionValid(tasks[taskId].status, newStatus)
  {
  }

  // ---------------------------------------------------------------------
  // Log tail

  /** trimLogForTaskUpdate: the last lines of the trimmed log, newline-terminated. */
  function TrimLogForTaskUpdate(logText: string): string
  {
    if logText == "" then "" else LastLines(TrimSpace(logText)) + "\n"
  }

  /** The last TaskQueueRetainLogLines lines of a text, joined again. */
  function LastLines(text: string): string
  {
    var lines := Split(text, '\n');
    var fromLine := if |lines| > TaskQueueRetainLogLines then |lines| - TaskQueueRetainLogLines else 0;
    Join(lines[fromLine..], '\n')
  }

  /** The log tail is empty for an empty log; otherwise it ends in a newline,
      holds the last min(n, 10) lines of the trimmed log, and is the whole
      trimmed log when that has fewer than 10 line breaks. */
  lemma TrimLogForTaskUpdateSpec(logText: string)
    ensures logText == "" ==> TrimLogForTaskUpdate(logText) == ""
    ensures logText != "" ==>
              var tail := TrimLogForTaskUpdate(logText);
              var trimmed := TrimSpace(logText);
              && |tail| > 0 && tail[|tail| - 1] == '\n'
              && IsSuffix(tail[..|tail| - 1], trimmed)
              && Count(tail, '\n') == (if Count(trimmed, '\n') < TaskQueueRetainLogLines
                                       then Count(trimmed, '\n') + 1 else TaskQueueRetainLogLines)
              && (Count(trimmed, '\n') < TaskQueueRetainLogLines ==> tail == trimmed + "\n")
  {
    if logText != "" {
      var trimmed := TrimSpace(logText);
      var kept := LastLines(trimmed);
      var tail := TrimLogForTaskUpdate(logText);
      assert tail == kept + "\n";
      assert tail[..|tail| - 1] == kept;
      LastLinesSpec(trimmed);
      CountAppend(kept, "\n", '\n');
    }
  }

  /** The last lines of a text are a suffix of it holding min(n, 10) - 1
      newlines, and all of it when it has fewer than 10 line breaks. */
  lemma LastLinesSpec(text: string)
    ensures IsSuffix(LastLines(text), text)
    ensures Count(LastLines(text), '\n')
            == if Count(text, '\n') < TaskQueueRetainLogLines then Count(text, '\n') else TaskQueueRetainLogLines - 1
    ensures Count(text, '\n') < TaskQueueRetainLogLines ==> LastLines(text) == text
  {
    var lines := Split(text, '\n');
    var fromLine := if |lines| > TaskQueueRetainLogLines then |lines| - TaskQueueRetainLogLines else 0;
    var kept := lines[fromLine..];
    SplitPiecesFree(text, '\n');
    JoinSplit(text, '\n');
    CountJoin(lines, '\n');
    assert forall i :: 0 <= i < |kept| ==> kept[i] == lines[fromLine + i];
    CountJoin(kept, '\n');
    JoinDropIsSuffix(lines, fromLine, '\n');
    if fromLine == 0 {
      assert kept == lines;
    }
  }


  /** The log tail starts at the beginning of a line of the trimmed log: it is
      the whole trimmed log, or what precedes it there is a newline. */
  lemma TrimLogStartsAtLine(logText: string)
    requires logText != ""
    ensures var tail := TrimLogForTaskUpdate(logText);
            var trimmed := TrimSpace(logText);
            && 0 < |tail| <= |trimmed| + 1
            && (|tail| - 1 == |trimmed| || trimmed[|trimmed| - |tail|] == '\n')
  {
    LastLinesStartAtLine(TrimSpace(logText));
  }

  /** The last lines of a text are the rest of the text after a newline, or all of it. */
  lemma LastLinesStartAtLine(text: string)
    ensures var kept := LastLines(text);
            && |kept| <= |text| && (|kept| == |text| || text[|text| - |kept| - 1] == '\n')
  {
    var lines := Split(text, '\n');
    var fromLine := if |lines| > TaskQueueRetainLogLines then |lines| - TaskQueueRetainLogLines else 0;
    JoinSplit(text, '\n');
    if fromLine == 0 {
      assert lines[fromLine..] == lines;
    } else {
      JoinDropAfterSeparator(lines, fromLine, '\n');
    }
  }

  // ---------------------------------------------------------------------
  // Updates on the cached task

  /** Whether the reported status goes into the `$set`: it is non-empty and a
      valid transition from the current status. */
  predicate StatusApplies(currentStatus: string, tupdate: TaskUpdate)
  {
    tupdate.taskStatus != "" && TaskStatusTransitionValid(currentStatus, tupdate.taskStatus)
  }

  /** What constructUpdatesOnTask returns: the extra updates, with last_updated,
      and the status, activity, log and timing of the update, added to their `$set`. */
  function UpdatesOnTask(currentStatus: string, tupdate: TaskUpdate, extra: TaskUpdateDoc): TaskUpdateDoc
  {
    var s := extra.sets.(lastUpdated := Some(tupdate.receivedOnManager));
    var s := if StatusApplies(currentStatus, tupdate) then s.(status := Some(tupdate.taskStatus)) else s;
    var s := if tupdate.activity != "" then s.(activity := Some(tupdate.activity)) else s;
    var s := if tupdate.log != "" then s.(log := Some(tupdate.log)) else s;
    var s := if |tupdate.timing| > 0 then s.(timing := Some(tupdate.timing)) else s;
    extra.(sets := s)
  }

  /** constructUpdatesOnTask: fills the `$set` of the extra updates in place. */
  method ConstructUpdatesOnTask(currentTaskStatus: string, tupdate: TaskUpdate, extraUpdates: TaskUpdateDoc)
    returns (updates: TaskUpdateDoc)
    ensures updates == UpdatesOnTask(currentTaskStatus, tupdate, extraUpdates)
  {
    updates := extraUpdates;
    var updatesSet := updates.sets;
    updatesSet := updatesSet.(lastUpdated := Some(tupdate.receivedOnManager));

    if tupdate.taskStatus != "" {
      // Before blindly applying the task status, first check if the transition is valid.
      if TaskStatusTransitionValid(currentTaskStatus, tupdate.taskStatus) {
        updatesSet := updatesSet.(status := Some(tupdate.taskStatus));
      }
    }
    if tupdate.activity != "" {
      updatesSet := updatesSet.(activity := Some(tupdate.activity));
    }
    if tupdate.log != "" {
      updatesSet := updatesSet.(log := Some(tupdate.log));
    }
    if |tupdate.timing| > 0 {
      updatesSet := updatesSet.(timing := Some(tupdate.timing));
    }
    updates := updates.(sets := updatesSet);
  }

  /** The extra updates of a report: nothing, or the `$push` of the failing
      worker onto failed_by_workers. */
  function ExtraFor(failed: Option<WorkerRef>): TaskUpdateDoc
  {
    TaskUpdateDoc(NoTaskSet, failed)
  }

  /** The cached task after the update document of a report has been applied:
      the status only on a valid transition, activity, log and timing only when
      the report carries them, always last_updated, and the failing worker
      appended to failed_by_workers; nothing else changes. */
  lemma UpdatesOnTaskApplied(t: Task, currentStatus: string, u: TaskUpdate, failed: Option<WorkerRef>)
    ensures ApplyToTask(t, UpdatesOnTask(currentStatus, u, ExtraFor(failed)))
            == t.(status := if u.taskStatus != "" && TaskStatusTransitionValid(currentStatus, u.taskStatus)
                            then u.taskStatus else t.status,
                  activity := if u.activity != "" then u.activity else t.activity,
                  log := if u.log != "" then u.log else t.log,
                  lastUpdated := u.receivedOnManager,
                  timing := if |u.timing| > 0 then u.timing else t.timing,
                  failedByWorkers := if failed.None? then t.failedByWorkers else t.failedByWorkers + [failed.value])
  {
  }

  /** The fields the extra updates already `$set` stay set unless the report
      itself carries a value for them. */
  lemma UpdatesOnTaskKeepsExtra(currentStatus: string, tupdate: TaskUpdate, extra: TaskUpdateDoc)
    ensures var r := UpdatesOnTask(currentStatus, tupdate, extra);
      && r.push == extra.push
      && r.sets.lastWorkerPing == extra.sets.lastWorkerPing && r.sets.workerId == extra.sets.workerId
      && (extra.sets.status.Some? ==> r.sets.status.Some?)
      && (extra.sets.activity.Some? ==> r.sets.activity.Some?)
      && (extra.sets.log.Some? ==> r.sets.log.Some?)
      && (extra.sets.timing.Some? ==> r.sets.timing.Some?)
  {
  }

  // ---------------------------------------------------------------------
  // Failure handling

  /** The workers named in a failed-by list. */
  function RefIds(refs: seq<WorkerRef>): set<ObjectId>
  {
    set r | r in refs :: r.id
  }

  /** The status a failed task gets: hard-failed once `failAfter` workers have
      failed it, soft-failed while some worker that may still run it has not
      failed it yet, hard-failed otherwise. */
  function FailureStatus(failedBy: seq<WorkerRef>, workersLeft: set<ObjectId>, failAfter: int): (status: string)
    ensures status == StatusSoftFailed <==>
              |failedBy| < failAfter && exists w :: w in workersLeft && w !in RefIds(failedBy)
    ensures status == StatusFailed <==>
              |failedBy| >= failAfter || forall w :: w in workersLeft ==> w in RefIds(failedBy)
  {
    if |failedBy| >= failAfter then StatusFailed
    else if workersLeft - RefIds(failedBy) != {} then StatusSoftFailed
    else
      assert forall w :: w in workersLeft ==> w in RefIds(failedBy) by {
        forall w | w in workersLeft
          ensures w in RefIds(failedBy)
        {
          assert w !in workersLeft - RefIds(failedBy);
        }
      }
      StatusFailed
  }

  /** A failure report on a task can only ever end in "failed" or "soft-failed",
      and the reporting worker is never one of the workers left. */
  lemma FailureStatusReporterExcluded(failedBy: seq<WorkerRef>, workersLeft: set<ObjectId>, reporter: WorkerRef, failAfter: int)
    ensures FailureStatus(failedBy + [reporter], workersLeft, failAfter)
            == FailureStatus(failedBy + [reporter], workersLeft - {reporter.id}, failAfter)
    ensures FailureStatus(failedBy + [reporter], workersLeft, failAfter) in {StatusFailed, StatusSoftFailed}
  {
    assert reporter.id in RefIds(failedBy + [reporter]) by {
      assert (failedBy + [reporter])[|failedBy|] == reporter;
    }
    assert workersLeft - RefIds(failedBy + [reporter]) == (workersLeft - {reporter.id}) - RefIds(failedBy + [reporter]);
  }

  /** onTaskFailed with addWorkerToFailedList: append the reporting worker to the
      failed-by list (in memory and as a `$push`), then hard- or soft-fail the
      task. `workersLeft` is what the blacklist reports for the job and task type;
      `reporterId` is the ID of the worker that sent the report. */
  method OnTaskFailed(task: Task, tupdate: TaskUpdate, reporterId: ObjectId, workersLeft: set<ObjectId>,
                      failAfter: int, extraUpdates: TaskUpdateDoc)
    returns (task': Task, tupdate': TaskUpdate, extraUpdates': TaskUpdateDoc)
    ensures var ref := WorkerRef(reporterId, tupdate.worker);
            var failedBy := task.failedByWorkers + [ref];
            var status := FailureStatus(failedBy, workersLeft - {reporterId}, failAfter);
            && task' == task.(failedByWorkers := failedBy, status := status)
            && tupdate' == tupdate.(failedByWorkers := failedBy, taskStatus := status)
            && extraUpdates' == extraUpdates.(push := Some(ref))
  {
    // maybeBlacklistWorker: the workers that may still run this task, minus this one.
    var left := workersLeft - {reporterId};

    // addWorkerToFailedList
    var workerRef := WorkerRef(reporterId, tupdate.worker);
    task' := task.(failedByWorkers := task.failedByWorkers + [workerRef]);
    tupdate' := tupdate.(failedByWorkers := task'.failedByWorkers);
    extraUpdates' := extraUpdates.(push := Some(workerRef));

    if |task'.failedByWorkers| >= failAfter {
      // Too many workers failed this task: hard-fail it.
      task' := task'.(status := StatusFailed);
      tupdate' := tupdate'.(taskStatus := StatusFailed);
      return;
    }

    // Remove all the workers that failed this task (even when they weren't blacklisted).
    var failedBy := task'.failedByWorkers;
    for idx := 0 to |failedBy|
      invariant left == (workersLeft - {reporterId}) - RefIds(failedBy[..idx])
    {
      assert failedBy[..idx + 1] == failedBy[..idx] + [failedBy[idx]];
      assert RefIds(failedBy[..idx + 1]) == RefIds(failedBy[..idx]) + {failedBy[idx].id};
      left := left - {failedBy[idx].id};
    }
    assert failedBy[..|failedBy|] == failedBy;

    // If there are still workers left that can execute this task, it's all fine.
    if |left| > 0 {
      task' := task'.(status := StatusSoftFailed);
      tupdate' := tupdate'.(taskStatus := StatusSoftFailed);
    } else {
      task' := task'.(status := StatusFailed);
      tupdate' := tupdate'.(taskStatus := StatusFailed);
    }
  }

  /** addWorkerToFailedList as written: the worker reference takes its ID from
      the task's worker_id, which may be unset; None stands for the nil
      dereference that follows. */
  function AddWorkerToFailedListAsWritten(task: Task, tupdate: TaskUpdate): (r: Option<Task>)
    ensures r.None? <==> task.workerId.None?
    ensures r.Some? ==> r.value.failedByWorkers == task.failedByWorkers + [WorkerRef(task.workerId.value, tupdate.worker)]
  {
    match task.workerId
    case None => None
    case Some(id) => Some(task.(failedByWorkers := task.failedByWorkers + [WorkerRef(id, tupdate.worker)]))
  }

  /** A task nobody was assigned to, still queued, passes the ownership check of
      QueueTaskUpdateFromWorker; a "failed" report for it reaches
      addWorkerToFailedList with no worker_id to dereference. */
  lemma UnassignedTaskFailureDereferencesNil()
    ensures var task := Task(1, 2, StatusQueued, 50, "blender", "render", None, "", [], "", "", 0, 0, map[], [], false);
            var tupdate := BlankUpdate(1).(taskStatus := StatusFailed, worker := "192.168.0.5 (w1)");
            && !AssignedElsewhere(task, 7)
            && Workers.IsRunnableTaskStatus(task.status)
            && Sanitized(task, tupdate).taskStatus == StatusFailed
            && AddWorkerToFailedListAsWritten(task, tupdate).None?
  {
  }

  /** Whenever the task does carry a worker_id, the check before it has made that
      the reporting worker, so taking the reporter's ID changes nothing. */
  lemma ReporterIdAgreesWhenAssigned(task: Task, tupdate: TaskUpdate, reporterId: ObjectId)
    requires task.workerId.Some? && !AssignedElsewhere(task, reporterId)
    ensures AddWorkerToFailedListAsWritten(task, tupdate)
            == Some(task.(failedByWorkers := task.failedByWorkers + [WorkerRef(reporterId, tupdate.worker)]))
  {
  }

  // ---------------------------------------------------------------------
  // Queueing an update

  /** The update as it is queued: stamped with the receive time and a new ID,
      with the log replaced by its tail. */
  function Stamped(tupdate: TaskUpdate, now: Time, newId: ObjectId): TaskUpdate
  {
    tupdate.(receivedOnManager := now, id := newId, logTail := TrimLogForTaskUpdate(tupdate.log), log := "")
  }

  /** writeTaskLog fails only when there is text to write for a task of a known
      job and the file system refuses it. */
  predicate LogWriteFailed(task: Task, logText: string, writeFails: bool)
  {
    logText != "" && task.job != UnknownJobId && writeFails
  }

  /** QueueTaskUpdateWithExtra: queue the stamped update (unless it is local to
      the manager), then apply it to the cached task after the log was written.
      `writeFails` says whether the file system refuses the log write. */
  method QueueTaskUpdateWithExtra(db: Db, task: Task, tupdate: TaskUpdate, extraUpdates: TaskUpdateDoc,
                                  now: Time, newId: ObjectId, writeFails: bool)
    returns (queued: TaskUpdate, ok: bool)
    modifies db
    ensures queued == Stamped(tupdate, now, newId)
    ensures db.queue == old(db.queue) + if tupdate.isManagerLocal then [] else [queued]
    ensures ok <==> !LogWriteFailed(task, tupdate.log, writeFails)
    ensures db.tasks == if ok && tupdate.taskId in old(db.tasks)
                        then old(db.tasks)[tupdate.taskId := ApplyToTask(old(db.tasks)[tupdate.taskId],
                                                   UpdatesOnTask(task.status, queued, extraUpdates))]
                        else old(db.tasks)
    ensures db.workers == old(db.workers)
  {
    queued := tupdate.(receivedOnManager := now, id := newId);
    var logToWrite := queued.log;

    // Only send the tail of the log to the Server.
    queued := queued.(logTail := TrimLogForTaskUpdate(queued.log), log := "");

    // Store the update in the queue for sending to the Flamenco Server later.
    if !queued.isManagerLocal {
      db.queue := db.queue + [queued];
    }

    var updatesOnTask := ConstructUpdatesOnTask(task.status, queued, extraUpdates);

    if LogWriteFailed(task, logToWrite, writeFails) {
      return queued, false;
    }
    ok := true;
    // The update is never empty: it always sets last_updated.
    var _ := db.UpdateTask(queued.taskId, updatesOnTask);
  }

  /** LogTaskActivity: queue an update carrying only an activity and a log line;
      a failure is only logged. */
  method LogTaskActivity(db: Db, task: Task, activity: string, logLine: string, now: Time, newId: ObjectId,
                         writeFails: bool)
    returns (queued: TaskUpdate)
    modifies db
    ensures queued == Stamped(BlankUpdate(task.id).(activity := activity, log := logLine,
                                                    isManagerLocal := task.managerLocal), now, newId)
    ensures db.queue == old(db.queue) + if task.managerLocal then [] else [queued]
    ensures db.tasks == if !LogWriteFailed(task, logLine, writeFails) && task.id in old(db.tasks)
                        then old(db.tasks)[task.id := ApplyToTask(old(db.tasks)[task.id],
                                                 UpdatesOnTask(task.status, queued, ExtraFor(None)))]
                        else old(db.tasks)
    ensures db.workers == old(db.workers)
  {
    var tupdate := BlankUpdate(task.id).(activity := activity, log := logLine, isManagerLocal := task.managerLocal);
    var ok;
    queued, ok := QueueTaskUpdateWithExtra(db, task, tupdate, ExtraFor(None), now, newId, writeFails);
  }

  // ---------------------------------------------------------------------
  // A report from a worker

  /** The 409 check: the task carries another worker's ID. */
  predicate AssignedElsewhere(task: Task, workerId: ObjectId)
  {
    task.workerId.Some? && task.workerId.value != workerId
  }

  /** A worker may not change the status or activity of a task that is no
      longer runnable: those two fields of its report are dropped. */
  function Sanitized(task: Task, tupdate: TaskUpdate): (u: TaskUpdate)
    ensures Workers.IsRunnableTaskStatus(task.status) ==> u == tupdate
    ensures !Workers.IsRunnableTaskStatus(task.status) ==>
              u.taskStatus == "" && u.activity == "" && u.(taskStatus := tupdate.taskStatus, activity := tupdate.activity) == tupdate
  {
    if Workers.IsRunnableTaskStatus(task.status) then tupdate else tupdate.(taskStatus := "", activity := "")
  }

  /** The in-memory task, the update and the extra updates that reach
      QueueTaskUpdateWithExtra for a report. */
  datatype Prepared = Prepared(task: Task, update: TaskUpdate, failed: Option<WorkerRef>)

  function PrepareReport(task: Task, tupdate: TaskUpdate, reporterId: ObjectId, workersLeft: set<ObjectId>,
                         failAfter: int): (p: Prepared)
    ensures p.update.isManagerLocal == task.managerLocal && p.update.taskId == tupdate.taskId
    ensures p.update.log == tupdate.log && p.task.job == task.job
  {
    var u := Sanitized(task, tupdate);
    if u.taskStatus == StatusFailed then
      var ref := WorkerRef(reporterId, u.worker);
      var failedBy := task.failedByWorkers + [ref];
      var status := FailureStatus(failedBy, workersLeft - {reporterId}, failAfter);
      Prepared(task.(failedByWorkers := failedBy, status := status),
               u.(failedByWorkers := failedBy, taskStatus := status, isManagerLocal := task.managerLocal),
               Some(ref))
    else
      Prepared(task, u.(isManagerLocal := task.managerLocal), None)
  }

  /** The cached task once a report has been accepted: pinged by the worker, then
      updated as constructUpdatesOnTask says. */
  function AcceptedTask(task: Task, tupdate: TaskUpdate, reporterId: ObjectId, workersLeft: set<ObjectId>,
                        failAfter: int, now: Time, newId: ObjectId): Task
  {
    var p := PrepareReport(task, tupdate, reporterId, workersLeft, failAfter);
    var pinged := task.(lastWorkerPing := now, workerId := Some(reporterId));
    ApplyToTask(pinged, UpdatesOnTask(p.task.status, Stamped(p.update, now, newId), ExtraFor(p.failed)))
  }

  /** A report on a task that is no longer runnable changes neither its status
      nor its activity. */
  lemma NonRunnableTaskKeepsStatus(task: Task, tupdate: TaskUpdate, reporterId: ObjectId, workersLeft: set<ObjectId>,
                                   failAfter: int, now: Time, newId: ObjectId)
    requires !Workers.IsRunnableTaskStatus(task.status)
    ensures var r := AcceptedTask(task, tupdate, reporterId, workersLeft, failAfter, now, newId);
            && r.status == task.status && r.activity == task.activity
            && r.failedByWorkers == task.failedByWorkers
            && r.workerId == Some(reporterId) && r.lastWorkerPing == now && r.lastUpdated == now
  {
    var p := PrepareReport(task, tupdate, reporterId, workersLeft, failAfter);
    UpdatesOnTaskApplied(task.(lastWorkerPing := now, workerId := Some(reporterId)), p.task.status,
                         Stamped(p.update, now, newId), p.failed);
  }

  /** A "failed" report on a runnable task adds the reporter to the failed-by
      list and leaves the task failed or soft-failed, as FailureStatus decides. */
  lemma FailedReportOutcome(task: Task, tupdate: TaskUpdate, reporterId: ObjectId, workersLeft: set<ObjectId>,
                            failAfter: int, now: Time, newId: ObjectId)
    requires Workers.IsRunnableTaskStatus(task.status) && tupdate.taskStatus == StatusFailed
    ensures var r := AcceptedTask(task, tupdate, reporterId, workersLeft, failAfter, now, newId);
            var failedBy := task.failedByWorkers + [WorkerRef(reporterId, tupdate.worker)];
            && r.failedByWorkers == failedBy
            && r.status == FailureStatus(failedBy, workersLeft - {reporterId}, failAfter)
            && r.status in {StatusFailed, StatusSoftFailed}
            && r.workerId == Some(reporterId) && r.lastUpdated == now
  {
    var p := PrepareReport(task, tupdate, reporterId, workersLeft, failAfter);
    var ref := WorkerRef(reporterId, tupdate.worker);
    UpdatesOnTaskApplied(task.(lastWorkerPing := now, workerId := Some(reporterId)), p.task.status,
                         Stamped(p.update, now, newId), p.failed);
    FailureStatusReporterExcluded(task.failedByWorkers, workersLeft, ref, failAfter);
  }

  /** Any other status reported on a runnable task is applied as reported. */
  lemma RunnableTaskTakesReportedStatus(task: Task, tupdate: TaskUpdate, reporterId: ObjectId,
                                        workersLeft: set<ObjectId>, failAfter: int, now: Time, newId: ObjectId)
    requires Workers.IsRunnableTaskStatus(task.status) && tupdate.taskStatus != StatusFailed
    ensures var r := AcceptedTask(task, tupdate, reporterId, workersLeft, failAfter, now, newId);
            && r.status == (if tupdate.taskStatus != "" then tupdate.taskStatus else task.status)
            && r.activity == (if tupdate.activity != "" then tupdate.activity else task.activity)
            && r.failedByWorkers == task.failedByWorkers
            && r.workerId == Some(reporterId) && r.lastUpdated == now
  {
    var p := PrepareReport(task, tupdate, reporterId, workersLeft, failAfter);
    UpdatesOnTaskApplied(task.(lastWorkerPing := now, workerId := Some(reporterId)), p.task.status,
                         Stamped(p.update, now, newId), p.failed);
  }

  /** The report as the handler queues it: for this task, signed with the
      worker's identifier (after Seen has updated its address). */
  function Reported(body: TaskUpdate, taskId: ObjectId, worker: Worker, req: Workers.Request): TaskUpdate
  {
    body.(taskId := taskId, worker := Workers.Identifier(worker.(address := Workers.RemoteHost(req))))
  }

  /** QueueTaskUpdateFromWorker: 403 for an unknown worker, 400 for an unreadable
      report, 404 for an unknown task, 409 for a task of another worker;
      otherwise the ping is recorded, the report is sanitised and, on failure,
      the failure is accounted for, then it is queued (500 when writing the log
      fails, 204 otherwise). `workersLeft` is the blacklist's answer for the
      task's job and task type; `failAfter` is TaskFailAfterSoftFailCount. */
  method QueueTaskUpdateFromWorker(db: Db, workerId: ObjectId, taskId: ObjectId, req: Workers.Request,
                                   body: Option<TaskUpdate>, workersLeft: set<ObjectId>, failAfter: int,
                                   now: Time, newId: ObjectId, writeFails: bool)
    returns (code: int)
    modifies db
    ensures code == 403 <==> workerId !in old(db.workers)
    ensures code == 400 <==> workerId in old(db.workers) && body.None?
    ensures code == 404 <==> workerId in old(db.workers) && body.Some? && taskId !in old(db.tasks)
    ensures code == 409 <==> workerId in old(db.workers) && body.Some? && taskId in old(db.tasks)
                             && AssignedElsewhere(old(db.tasks)[taskId], workerId)
    ensures code in {403, 400, 404, 409, 500, 204}
    ensures code in {403, 400, 404, 409} ==> db.tasks == old(db.tasks) && db.queue == old(db.queue)
    ensures code == 403 ==> db.workers == old(db.workers)
    ensures code != 403 ==>
              var seen := Workers.AfterSeen(old(db.workers), Workers.Projected(workerId, old(db.workers)[workerId]),
                                            req, now);
              db.workers == if code in {400, 404, 409} then seen
                            else seen[workerId := Workers.PingedWorker(seen[workerId], body.value.taskStatus, now)]
    ensures code in {500, 204} ==>
              var task := old(db.tasks)[taskId];
              var tupdate := Reported(body.value, taskId, old(db.workers)[workerId], req);
              var p := PrepareReport(task, tupdate, workerId, workersLeft, failAfter);
              && db.queue == old(db.queue) + (if task.managerLocal then [] else [Stamped(p.update, now, newId)])
              && (code == 500 <==> LogWriteFailed(task, body.value.log, writeFails))
              && db.tasks == old(db.tasks)[taskId :=
                   if code == 204 then AcceptedTask(task, tupdate, workerId, workersLeft, failAfter, now, newId)
                   else task.(lastWorkerPing := now, workerId := Some(workerId))]
  {
    // Get the worker.
    if workerId !in db.workers {
      return 403;
    }
    var worker := Workers.Projected(workerId, db.workers[workerId]);
    worker := Workers.Seen(db, worker, req, now);

    // Parse the task JSON.
    if body.None? {
      return 400;
    }
    var tupdate := body.value.(taskId := taskId, worker := Workers.Identifier(worker));

    // Check that this worker is allowed to update this task.
    if taskId !in db.tasks {
      return 404;
    }
    var task := db.tasks[taskId];
    if task.workerId.Some? && task.workerId.value != worker.id {
      return 409;
    }
    code := AcceptReport(db, task, tupdate, worker.id, workersLeft, failAfter, now, newId, writeFails);
  }

  /** The part of QueueTaskUpdateFromWorker between the ping and the queueing:
      drop what a worker may not change, then account for a failure. */
  method PrepareReported(task: Task, tupdate: TaskUpdate, reporterId: ObjectId, workersLeft: set<ObjectId>,
                         failAfter: int)
    returns (task': Task, tupdate': TaskUpdate, extraUpdates: TaskUpdateDoc)
    ensures var p := PrepareReport(task, tupdate, reporterId, workersLeft, failAfter);
            task' == p.task && tupdate' == p.update && extraUpdates == ExtraFor(p.failed)
  {
    task' := task;
    tupdate' := tupdate;
    if !Workers.IsRunnableTaskStatus(task'.status) {
      // These statuses can never be overwritten by a worker.
      tupdate' := tupdate'.(taskStatus := "", activity := "");
    }

    // Handle soft-failing before actually queueing this task update.
    extraUpdates := ExtraFor(None);
    if tupdate'.taskStatus == StatusFailed {
      task', tupdate', extraUpdates := OnTaskFailed(task', tupdate', reporterId, workersLeft, failAfter, extraUpdates);
    }
    tupdate' := tupdate'.(isManagerLocal := task'.managerLocal);
  }

  /** The part of QueueTaskUpdateFromWorker after the checks. The failure is
      charged to `reporterId`, the worker that sent the report. */
  method AcceptReport(db: Db, task: Task, tupdate: TaskUpdate, reporterId: ObjectId, workersLeft: set<ObjectId>,
                      failAfter: int, now: Time, newId: ObjectId, writeFails: bool)
    returns (code: int)
    requires tupdate.taskId in db.tasks && db.tasks[tupdate.taskId] == task
    modifies db
    ensures var p := PrepareReport(task, tupdate, reporterId, workersLeft, failAfter);
            db.queue == old(db.queue) + (if task.managerLocal then [] else [Stamped(p.update, now, newId)])
    ensures code == 500 <==> LogWriteFailed(task, tupdate.log, writeFails)
    ensures code == 204 <==> !LogWriteFailed(task, tupdate.log, writeFails)
    ensures code == 204 ==>
              db.tasks == old(db.tasks)[tupdate.taskId :=
                            AcceptedTask(task, tupdate, reporterId, workersLeft, failAfter, now, newId)]
    ensures code == 500 ==>
              db.tasks == old(db.tasks)[tupdate.taskId := task.(lastWorkerPing := now, workerId := Some(reporterId))]
    ensures db.workers == if reporterId in old(db.workers)
                          then old(db.workers)[reporterId := Workers.PingedWorker(old(db.workers)[reporterId],
                                                                                  tupdate.taskStatus, now)]
                          else old(db.workers)
  {
    ghost var tasks0 := db.tasks;
    Workers.WorkerPingedTask(db, reporterId, tupdate.taskId, tupdate.taskStatus, now);
    ghost var tasks1 := db.tasks;

    var task', tupdate', extraUpdates := PrepareReported(task, tupdate, reporterId, workersLeft, failAfter);
    var queued, ok := QueueTaskUpdateWithExtra(db, task', tupdate', extraUpdates, now, newId, writeFails);
    AcceptCacheStep(tasks0, tasks1, db.tasks, task, tupdate, reporterId, workersLeft, failAfter, now, newId,
                    task', queued, extraUpdates, ok);
    if ok {
      code := 204;
    } else {
      code := 500;
    }
  }

  /** The task cache across the ping and the update of a report. */
  lemma AcceptCacheStep(tasks0: map<ObjectId, Task>, tasks1: map<ObjectId, Task>, tasks2: map<ObjectId, Task>,
                        task: Task, tupdate: TaskUpdate, reporterId: ObjectId, workersLeft: set<ObjectId>,
                        failAfter: int, now: Time, newId: ObjectId,
                        task': Task, queued: TaskUpdate, extraUpdates: TaskUpdateDoc, ok: bool)
    requires tupdate.taskId in tasks0 && tasks0[tupdate.taskId] == task
    requires tasks1 == tasks0[tupdate.taskId := task.(lastWorkerPing := now, workerId := Some(reporterId))]
    requires var p := PrepareReport(task, tupdate, reporterId, workersLeft, failAfter);
      task' == p.task && queued == Stamped(p.update, now, newId) && extraUpdates == ExtraFor(p.failed)
    requires tasks2 == if ok && queued.taskId in tasks1
                       then tasks1[queued.taskId := ApplyToTask(tasks1[queued.taskId],
                                                                UpdatesOnTask(task'.status, queued, extraUpdates))]
                       else tasks1
    ensures ok ==> tasks2 == tasks0[tupdate.taskId :=
                               AcceptedTask(task, tupdate, reporterId, workersLeft, failAfter, now, newId)]
    ensures !ok ==> tasks2 == tasks0[tupdate.taskId := task.(lastWorkerPing := now, workerId := Some(reporterId))]
  {
    var id := tupdate.taskId;
    var pinged := task.(lastWorkerPing := now, workerId := Some(reporterId));
    assert queued.taskId == id;
    if ok {
      var accepted := ApplyToTask(pinged, UpdatesOnTask(task'.status, queued, extraUpdates));
      assert accepted == AcceptedTask(task, tupdate, reporterId, workersLeft, failAfter, now, newId);
      OverwriteTwice(tasks0, tasks1, tasks2, id, pinged, accepted);
    }
  }

  /** Two writes to the same key of a map leave only the second. */
  lemma OverwriteTwice<K, V>(m0: map<K, V>, m1: map<K, V>, m2: map<K, V>, k: K, v1: V, v2: V)
    requires m1 == m0[k := v1] && m2 == m1[k := v2]
    ensures m2 == m0[k := v2]
  {
  }

  // ---------------------------------------------------------------------
  // Cancel requests from Flamenco Server

  const CancelMessage := "Manager cancelled task by request of Flamenco Server"

  /** The log line of a canceled task: the formatted current time, then the message. */
  function CancelLogLine(nowText: string): string
  {
    nowText + ": " + CancelMessage
  }

  /** A task as the cancel query fetches it: only its ID, job and status. */
  function CancelProjection(id: ObjectId, t: Task): Task
  {
    Task(id, t.job, t.status, 0, "", "", None, "", [], "", "", 0, 0, map[], [], false)
  }

  /** The stand-in for a task the manager has no record of. */
  function FakeTask(id: ObjectId): Task
  {
    Task(id, UnknownJobId, "", 0, "", "", None, "", [], "", "", 0, 0, map[], [], false)
  }

  /** A cached task after queueTaskCancel: canceled and touched now; the cancel
      message becomes its activity unless writing its log failed. */
  function CanceledTask(t: Task, now: Time, logFailed: bool): Task
  {
    t.(status := StatusCanceled, lastUpdated := now, activity := if logFailed then t.activity else CancelMessage)
  }

  /** Whether the log line of a fetched task cannot be written. */
  predicate CancelLogFails(t: Task, writeFails: bool)
  {
    t.job != UnknownJobId && writeFails
  }

  /** The cached task after cancel handling: an active task is left to its worker
      as cancel-requested, any other requested task is canceled. */
  function CancelEffect(t: Task, requested: bool, now: Time, writeFails: bool): (r: Task)
    ensures !requested ==> r == t
    ensures requested ==> r.status == (if t.status == StatusActive then StatusCancelRequested else StatusCanceled)
    ensures r.(status := t.status, lastUpdated := t.lastUpdated, activity := t.activity) == t
  {
    if !requested then t
    else if t.status == StatusActive then t.(status := StatusCancelRequested)
    else CanceledTask(t, now, CancelLogFails(t, writeFails))
  }

  /** The pair of updates queueTaskCancel queues for a task: a note carrying the
      cancel message, then the "canceled" status. */
  predicate IsCancelPair(note: TaskUpdate, cancel: TaskUpdate, id: ObjectId)
  {
    && note.taskId == id && note.activity == CancelMessage && note.taskStatus == ""
    && cancel.taskId == id && cancel.taskStatus == StatusCanceled && cancel.activity == ""
  }

  /** `added` is one cancel pair per entry of `ids`, in that order. */
  ghost predicate CancelPairs(added: seq<TaskUpdate>, ids: seq<ObjectId>)
  {
    |added| == 2 * |ids| && forall i :: 0 <= i < |ids| ==> IsCancelPair(added[2 * i], added[2 * i + 1], ids[i])
  }

  lemma CancelPairsAppend(added: seq<TaskUpdate>, ids: seq<ObjectId>, note: TaskUpdate, cancel: TaskUpdate, id: ObjectId)
    requires CancelPairs(added, ids) && IsCancelPair(note, cancel, id)
    ensures CancelPairs(added + [note, cancel], ids + [id])
  {
    var added' := added + [note, cancel];
    var ids' := ids + [id];
    forall i | 0 <= i < |ids'|
      ensures IsCancelPair(added'[2 * i], added'[2 * i + 1], ids'[i])
    {
      if i < |ids| {
        assert added'[2 * i] == added[2 * i] && added'[2 * i + 1] == added[2 * i + 1];
      }
    }
  }

  lemma {:induction false} CancelPairsConcat(a: seq<TaskUpdate>, ids: seq<ObjectId>, b: seq<TaskUpdate>, ids2: seq<ObjectId>)
    requires CancelPairs(a, ids) && CancelPairs(b, ids2)
    ensures CancelPairs(a + b, ids + ids2)
  {
    var ab := a + b;
    var all := ids + ids2;
    forall i | 0 <= i < |all|
      ensures IsCancelPair(ab[2 * i], ab[2 * i + 1], all[i])
    {
      if i < |ids| {
        assert ab[2 * i] == a[2 * i] && ab[2 * i + 1] == a[2 * i + 1] && all[i] == ids[i];
      } else {
        var k := i - |ids|;
        assert ab[2 * i] == b[2 * k] && ab[2 * i + 1] == b[2 * k + 1] && all[i] == ids2[k];
      }
    }
  }

  /** queueTaskCancel: note the cancellation in the task's activity and log,
      then queue a "canceled" update. That second update carries no log, so
      queueing it never fails and `ok` always holds. */
  method QueueTaskCancel(db: Db, task: Task, nowText: string, now: Time, newId: ObjectId, writeFails: bool)
    returns (note: TaskUpdate, cancel: TaskUpdate, ok: bool)
    modifies db
    ensures IsCancelPair(note, cancel, task.id) && ok
    ensures note.id == newId && cancel.id == newId + 1
    ensures note.logTail == TrimLogForTaskUpdate(CancelLogLine(nowText)) && note.log == ""
    ensures db.queue == old(db.queue) + (if task.managerLocal then [] else [note]) + [cancel]
    ensures db.tasks == if task.id in old(db.tasks)
                        then old(db.tasks)[task.id := CanceledTask(old(db.tasks)[task.id], now,
                                                 LogWriteFailed(task, CancelLogLine(nowText), writeFails))]
                        else old(db.tasks)
    ensures db.workers == old(db.workers)
  {
    ghost var tasks0 := db.tasks;
    note := LogTaskActivity(db, task, CancelMessage, CancelLogLine(nowText), now, newId, writeFails);
    ghost var tasks1 := db.tasks;

    var tupdate := BlankUpdate(task.id).(taskStatus := StatusCanceled);
    cancel, ok := QueueTaskUpdateWithExtra(db, task, tupdate, ExtraFor(None), now, newId + 1, writeFails);
    CancelCacheStep(tasks0, tasks1, db.tasks, task, note, cancel, LogWriteFailed(task, CancelLogLine(nowText), writeFails));
  }

  /** The task cache across the two updates of queueTaskCancel. */
  lemma CancelCacheStep(tasks0: map<ObjectId, Task>, tasks1: map<ObjectId, Task>, tasks2: map<ObjectId, Task>,
                        task: Task, note: TaskUpdate, cancel: TaskUpdate, logFailed: bool)
    requires note.activity == CancelMessage && note.taskStatus == "" && note.log == "" && |note.timing| == 0
    requires cancel.activity == "" && cancel.taskStatus == StatusCanceled && cancel.log == "" && |cancel.timing| == 0
    requires note.receivedOnManager == cancel.receivedOnManager && cancel.taskId == task.id
    requires tasks1 == if !logFailed && task.id in tasks0
                       then tasks0[task.id := ApplyToTask(tasks0[task.id], UpdatesOnTask(task.status, note, ExtraFor(None)))]
                       else tasks0
    requires tasks2 == if cancel.taskId in tasks1
                       then tasks1[cancel.taskId := ApplyToTask(tasks1[cancel.taskId], UpdatesOnTask(task.status, cancel, ExtraFor(None)))]
                       else tasks1
    ensures tasks2 == if task.id in tasks0
                      then tasks0[task.id := CanceledTask(tasks0[task.id], cancel.receivedOnManager, logFailed)]
                      else tasks0
  {
    if task.id in tasks0 {
      CancelUpdatesApplied(tasks0[task.id], task.status, note, cancel, logFailed);
      assert tasks1 == tasks0[task.id := CancelNoted(tasks0[task.id], task.status, note, logFailed)];
    }
  }

  /** The cached task after the note of queueTaskCancel, when it was written. */
  function CancelNoted(t: Task, currentStatus: string, note: TaskUpdate, logFailed: bool): Task
  {
    if logFailed then t else ApplyToTask(t, UpdatesOnTask(currentStatus, note, ExtraFor(None)))
  }

  /** The note and the "canceled" update together cancel the cached task. */
  lemma CancelUpdatesApplied(t: Task, currentStatus: string, note: TaskUpdate, cancel: TaskUpdate, logFailed: bool)
    requires note.activity == CancelMessage && note.taskStatus == "" && note.log == "" && |note.timing| == 0
    requires cancel.activity == "" && cancel.taskStatus == StatusCanceled && cancel.log == "" && |cancel.timing| == 0
    requires note.receivedOnManager == cancel.receivedOnManager
    ensures ApplyToTask(CancelNoted(t, currentStatus, note, logFailed), UpdatesOnTask(currentStatus, cancel, ExtraFor(None)))
            == CanceledTask(t, cancel.receivedOnManager, logFailed)
  {
    UpdatesOnTaskApplied(t, currentStatus, note, None);
    UpdatesOnTaskApplied(CancelNoted(t, currentStatus, note, logFailed), currentStatus, cancel, None);
  }

  /** The task cache with every task in `ids` canceled. */
  ghost function CanceledAll(tasks: map<ObjectId, Task>, ids: set<ObjectId>, now: Time, writeFails: bool)
    : (r: map<ObjectId, Task>)
    ensures r.Keys == tasks.Keys
  {
    map id | id in tasks :: if id in ids then CanceledTask(tasks[id], now, CancelLogFails(tasks[id], writeFails))
                            else tasks[id]
  }

  /** One inactive fetched task of the loop in handleIncomingCancelRequests. */
  method CancelOneFetched(db: Db, id: ObjectId, ghost tasks0: map<ObjectId, Task>, ghost queue0: seq<TaskUpdate>,
                          ghost done: set<ObjectId>, ghost added: seq<TaskUpdate>, ghost canceled: seq<ObjectId>,
                          nowText: string, now: Time, nextId: ObjectId, writeFails: bool)
    returns (ok: bool, ghost added': seq<TaskUpdate>, ghost canceled': seq<ObjectId>)
    modifies db
    requires id in tasks0 && id !in done
    requires db.tasks == CanceledAll(tasks0, done, now, writeFails)
    requires db.queue == queue0 + added && CancelPairs(added, canceled)
    requires multiset(canceled) == multiset(done) && |canceled| == |done|
    ensures ok
    ensures db.tasks == CanceledAll(tasks0, done + {id}, now, writeFails)
    ensures db.queue == queue0 + added' && CancelPairs(added', canceled')
    ensures multiset(canceled') == multiset(done + {id}) && |canceled'| == |done + {id}|
    ensures db.workers == old(db.workers)
  {
    ghost var tasks1 := db.tasks;
    ghost var queue1 := db.queue;
    var task := CancelProjection(id, db.tasks[id]);
    var note, cancel;
    note, cancel, ok := QueueTaskCancel(db, task, nowText, now, nextId, writeFails);
    CancelPairsAppend(added, canceled, note, cancel, id);
    added' := added + [note, cancel];
    canceled' := canceled + [id];
    assert db.queue == queue0 + added' by {
      assert db.queue == queue1 + [note] + [cancel];
    }
    CanceledOneMoreId(canceled, done, id);
    CanceledAllStep(tasks0, done, id, now, writeFails, tasks1, db.tasks, task, CancelLogLine(nowText),
                    LogWriteFailed(task, CancelLogLine(nowText), writeFails));
  }

  /** One more canceled ID keeps the list of canceled IDs a permutation of the set. */
  lemma CanceledOneMoreId(canceled: seq<ObjectId>, done: set<ObjectId>, id: ObjectId)
    requires multiset(canceled) == multiset(done) && |canceled| == |done| && id !in done
    ensures multiset(canceled + [id]) == multiset(done + {id}) && |canceled + [id]| == |done + {id}|
  {
    assert multiset(done + {id}) == multiset(done) + multiset{id};
  }

  /** The task cache after one more inactive task was canceled. */
  lemma CanceledAllStep(tasks0: map<ObjectId, Task>, done: set<ObjectId>, id: ObjectId, now: Time, writeFails: bool,
                        tasks1: map<ObjectId, Task>, tasks2: map<ObjectId, Task>, task: Task, line: string,
                        logFailed: bool)
    requires id in tasks0 && id !in done
    requires tasks1 == CanceledAll(tasks0, done, now, writeFails)
    requires task == CancelProjection(id, tasks1[id])
    requires line != "" && logFailed == LogWriteFailed(task, line, writeFails)
    requires tasks2 == if task.id in tasks1 then tasks1[task.id := CanceledTask(tasks1[task.id], now, logFailed)]
                       else tasks1
    ensures tasks2 == CanceledAll(tasks0, done + {id}, now, writeFails)
  {
    CanceledAllOneMore(tasks0, done, id, now, writeFails);
  }

  lemma CanceledAllOneMore(tasks0: map<ObjectId, Task>, done: set<ObjectId>, id: ObjectId, now: Time, writeFails: bool)
    requires id in tasks0 && id !in done
    ensures var tasks := CanceledAll(tasks0, done, now, writeFails);
            && tasks[id] == tasks0[id]
            && tasks[id := CanceledTask(tasks[id], now, CancelLogFails(tasks0[id], writeFails))]
               == CanceledAll(tasks0, done + {id}, now, writeFails)
  {
  }

  /** The loop over the fetched tasks: active ones are collected for
      cancel-requested, every other one is canceled. */
  method CancelFetched(db: Db, cancelIds: seq<ObjectId>, fetched: map<ObjectId, Task>, nowText: string, now: Time,
                       idBase: ObjectId, writeFails: bool)
    returns (goToCancelRequested: seq<ObjectId>, canceledCount: nat, nextId: ObjectId,
             ghost added: seq<TaskUpdate>, ghost canceled: seq<ObjectId>)
    modifies db
    requires fetched == map id | id in db.tasks && id in cancelIds :: db.tasks[id]
    ensures db.tasks == CanceledAll(old(db.tasks), LegacyTaskUpdates.KnownInactive(old(db.tasks), cancelIds), now, writeFails)
    ensures db.workers == old(db.workers)
    ensures (set id | id in goToCancelRequested) == LegacyTaskUpdates.KnownActive(old(db.tasks), cancelIds)
    ensures db.queue == old(db.queue) + added && CancelPairs(added, canceled)
    ensures canceledCount == |canceled| == |LegacyTaskUpdates.KnownInactive(old(db.tasks), cancelIds)|
    ensures multiset(canceled) == multiset(LegacyTaskUpdates.KnownInactive(old(db.tasks), cancelIds))
  {
    ghost var tasks0 := db.tasks;
    ghost var queue0 := db.queue;
    goToCancelRequested, canceledCount, nextId, added, canceled := [], 0, idBase, [], [];
    var pending := fetched.Keys;
    ghost var inactiveSeen: set<ObjectId> := {};

    while pending != {}
      invariant pending <= fetched.Keys
      invariant db.tasks == CanceledAll(tasks0, inactiveSeen, now, writeFails) && db.workers == old(db.workers)
      invariant forall id :: id in inactiveSeen <==> id in fetched && id !in pending && tasks0[id].status != StatusActive
      invariant forall id :: id in goToCancelRequested <==> id in fetched && id !in pending && tasks0[id].status == StatusActive
      invariant db.queue == queue0 + added && CancelPairs(added, canceled)
      invariant canceledCount == |canceled| == |inactiveSeen|
      invariant multiset(canceled) == multiset(inactiveSeen)
      decreases pending
    {
      var id :| id in pending;
      pending := pending - {id};
      if fetched[id].status == StatusActive {
        // This needs to be canceled through the worker, and thus go to cancel-requested.
        goToCancelRequested := goToCancelRequested + [id];
      } else {
        var ok;
        ok, added, canceled := CancelOneFetched(db, id, tasks0, queue0, inactiveSeen, added, canceled,
                                                nowText, now, nextId, writeFails);
        nextId := nextId + 2;
        if ok {
          canceledCount := canceledCount + 1;
        }
        inactiveSeen := inactiveSeen + {id};
      }
    }
    assert inactiveSeen == LegacyTaskUpdates.KnownInactive(tasks0, cancelIds);
  }

  lemma UnknownStep(tasks: map<ObjectId, Task>, ids: seq<ObjectId>, i: nat)
    requires i < |ids|
    ensures LegacyTaskUpdates.Unknown(tasks, ids[..i + 1])
            == LegacyTaskUpdates.Unknown(tasks, ids[..i]) + (if ids[i] in tasks then [] else [ids[i]])
  {
    assert ids[..i + 1][..i] == ids[..i];
  }

  /** One requested ID the manager has no task for. */
  method CancelOneUnknown(db: Db, id: ObjectId, ghost queue0: seq<TaskUpdate>, ghost added: seq<TaskUpdate>,
                          ghost unknown: seq<ObjectId>, nowText: string, now: Time, nextId: ObjectId, writeFails: bool)
    returns (ok: bool, ghost added': seq<TaskUpdate>)
    modifies db
    requires id !in db.tasks
    requires db.queue == queue0 + added && CancelPairs(added, unknown)
    ensures ok
    ensures db.tasks == old(db.tasks) && db.workers == old(db.workers)
    ensures db.queue == queue0 + added' && CancelPairs(added', unknown + [id])
  {
    var note, cancel;
    note, cancel, ok := QueueTaskCancel(db, FakeTask(id), nowText, now, nextId, writeFails);
    CancelPairsAppend(added, unknown, note, cancel, id);
    added' := added + [note, cancel];
  }

  /** The loop over the requested IDs that were not fetched: each gets a
      "canceled" update through a stand-in task, so Flamenco Server stops
      waiting for it. */
  method CancelUnknown(db: Db, cancelIds: seq<ObjectId>, seen: set<ObjectId>, nowText: string, now: Time,
                       idBase: ObjectId, writeFails: bool)
    returns (canceledCount: nat, ghost added: seq<TaskUpdate>)
    modifies db
    requires forall id :: id in cancelIds ==> (id in seen <==> id in db.tasks)
    ensures db.tasks == old(db.tasks) && db.workers == old(db.workers)
    ensures db.queue == old(db.queue) + added
    ensures CancelPairs(added, LegacyTaskUpdates.Unknown(old(db.tasks), cancelIds))
    ensures canceledCount == |LegacyTaskUpdates.Unknown(old(db.tasks), cancelIds)|
  {
    ghost var queue0 := db.queue;
    ghost var tasks0 := db.tasks;
    ghost var unknown: seq<ObjectId> := [];
    added := [];
    canceledCount := 0;
    var nextId := idBase;
    var i := 0;
    while i < |cancelIds|
      invariant 0 <= i <= |cancelIds|
      invariant db.tasks == tasks0 && db.workers == old(db.workers)
      invariant db.queue == queue0 + added
      invariant unknown == LegacyTaskUpdates.Unknown(tasks0, cancelIds[..i])
      invariant CancelPairs(added, unknown) && canceledCount == |unknown|
    {
      UnknownStep(tasks0, cancelIds, i);
      assert cancelIds[i] in cancelIds;
      if cancelIds[i] !in seen {
        var ok;
        ok, added := CancelOneUnknown(db, cancelIds[i], queue0, added, unknown, nowText, now, nextId, writeFails);
        unknown := unknown + [cancelIds[i]];
        nextId := nextId + 2;
        if ok {
          canceledCount := canceledCount + 1;
        }
      }
      i := i + 1;
    }
    assert cancelIds[..|cancelIds|] == cancelIds;
  }

  /** handleIncomingCancelRequests: active cached tasks go to cancel-requested
      (the worker has to stop them); every other cached task and every unknown
      ID is canceled, each with a note and a "canceled" update queued. The
      returned `canceled` lists the IDs of those pairs in queue order. */
  method HandleIncomingCancelRequests(db: Db, cancelIds: seq<ObjectId>, nowText: string, now: Time,
                                      idBase: ObjectId, writeFails: bool)
    returns (goToCancelRequested: seq<ObjectId>, canceledCount: nat, matched: nat, shortfall: bool,
             ghost canceled: seq<ObjectId>)
    modifies db
    ensures |cancelIds| == 0 ==> db.tasks == old(db.tasks) && db.queue == old(db.queue) && canceledCount == 0
    ensures db.tasks.Keys == old(db.tasks).Keys
    ensures forall id :: id in old(db.tasks) ==>
              db.tasks[id] == CancelEffect(old(db.tasks)[id], id in cancelIds, now, writeFails)
    ensures (set id | id in goToCancelRequested) == LegacyTaskUpdates.KnownActive(old(db.tasks), cancelIds)
    ensures matched == |LegacyTaskUpdates.KnownActive(old(db.tasks), cancelIds)|
    ensures canceledCount == |LegacyTaskUpdates.KnownInactive(old(db.tasks), cancelIds)|
                             + |LegacyTaskUpdates.Unknown(old(db.tasks), cancelIds)|
    ensures |old(db.queue)| <= |db.queue| && db.queue[..|old(db.queue)|] == old(db.queue)
    ensures CancelPairs(db.queue[|old(db.queue)|..], canceled) && |canceled| == canceledCount
    ensures multiset(canceled) == multiset(LegacyTaskUpdates.KnownInactive(old(db.tasks), cancelIds))
                                  + multiset(LegacyTaskUpdates.Unknown(old(db.tasks), cancelIds))
    ensures shortfall <==> matched + canceledCount < |cancelIds|
    ensures db.workers == old(db.workers)
  {
    goToCancelRequested, canceledCount, matched, shortfall, canceled := [], 0, 0, false, [];
    if |cancelIds| == 0 {
      return;
    }
    ghost var tasks0 := db.tasks;
    ghost var queue0 := db.queue;
    var fetchedCount, nextId, seen;
    ghost var added1, added2, canceled1;
    goToCancelRequested, fetchedCount, matched, nextId, seen, added1, canceled1 :=
      CancelKnown(db, cancelIds, nowText, now, idBase, writeFails);

    // Just push a "canceled" update to the Server about tasks we know nothing about.
    var unknownCount;
    unknownCount, added2 := CancelUnknown(db, cancelIds, seen, nowText, now, nextId, writeFails);
    canceledCount := fetchedCount + unknownCount;
    LegacyTaskUpdates.UnknownSameKeys(tasks0, db.tasks, cancelIds);
    canceled := canceled1 + LegacyTaskUpdates.Unknown(tasks0, cancelIds);
    CancelQueueOutcome(queue0, added1, canceled1, added2, LegacyTaskUpdates.Unknown(tasks0, cancelIds), db.queue);
    shortfall := matched + canceledCount < |cancelIds|;
  }

  /** The first part of handleIncomingCancelRequests: fetch the requested tasks
      the manager knows, cancel the inactive ones and mark the active ones
      cancel-requested. `seen` holds the IDs of the fetched tasks. */
  method CancelKnown(db: Db, cancelIds: seq<ObjectId>, nowText: string, now: Time, idBase: ObjectId, writeFails: bool)
    returns (goToCancelRequested: seq<ObjectId>, canceledCount: nat, matched: nat, nextId: ObjectId,
             seen: set<ObjectId>, ghost added: seq<TaskUpdate>, ghost canceled: seq<ObjectId>)
    modifies db
    ensures db.tasks.Keys == old(db.tasks).Keys
    ensures forall id :: id in old(db.tasks) ==>
              db.tasks[id] == CancelEffect(old(db.tasks)[id], id in cancelIds, now, writeFails)
    ensures forall id :: id in cancelIds ==> (id in seen <==> id in db.tasks)
    ensures (set id | id in goToCancelRequested) == LegacyTaskUpdates.KnownActive(old(db.tasks), cancelIds)
    ensures matched == |LegacyTaskUpdates.KnownActive(old(db.tasks), cancelIds)|
    ensures db.queue == old(db.queue) + added && CancelPairs(added, canceled)
    ensures canceledCount == |canceled| == |LegacyTaskUpdates.KnownInactive(old(db.tasks), cancelIds)|
    ensures multiset(canceled) == multiset(LegacyTaskUpdates.KnownInactive(old(db.tasks), cancelIds))
    ensures db.workers == old(db.workers)
  {
    ghost var tasks0 := db.tasks;

    // Fetch all to-be-canceled tasks.
    var fetched := map id | id in db.tasks && id in cancelIds :: db.tasks[id];
    seen := fetched.Keys;
    goToCancelRequested, canceledCount, nextId, added, canceled :=
      CancelFetched(db, cancelIds, fetched, nowText, now, idBase, writeFails);
    ghost var tasks1 := db.tasks;

    // Mark tasks as cancel-requested.
    var crSet := set id | id in goToCancelRequested;
    matched := db.SetStatusAll(crSet, StatusCancelRequested);
    CancelOutcome(tasks0, tasks1, db.tasks, cancelIds, crSet, now, writeFails);
  }

  /** The queue after handleIncomingCancelRequests: the old queue followed by the
      pairs of both loops. */
  lemma CancelQueueOutcome(queue0: seq<TaskUpdate>, added1: seq<TaskUpdate>, canceled1: seq<ObjectId>,
                           added2: seq<TaskUpdate>, unknown: seq<ObjectId>, queue2: seq<TaskUpdate>)
    requires queue2 == queue0 + added1 + added2
    requires CancelPairs(added1, canceled1) && CancelPairs(added2, unknown)
    ensures |queue0| <= |queue2| && queue2[..|queue0|] == queue0
    ensures CancelPairs(queue2[|queue0|..], canceled1 + unknown)
    ensures multiset(canceled1 + unknown) == multiset(canceled1) + multiset(unknown)
  {
    assert queue2[|queue0|..] == added1 + added2;
    CancelPairsConcat(added1, canceled1, added2, unknown);
  }

  /** The task cache after both status changes of handleIncomingCancelRequests. */
  lemma CancelOutcome(tasks0: map<ObjectId, Task>, tasks1: map<ObjectId, Task>, tasks2: map<ObjectId, Task>,
                      cancelIds: seq<ObjectId>, crSet: set<ObjectId>, now: Time, writeFails: bool)
    requires tasks1 == CanceledAll(tasks0, LegacyTaskUpdates.KnownInactive(tasks0, cancelIds), now, writeFails)
    requires crSet == LegacyTaskUpdates.KnownActive(tasks0, cancelIds)
    requires tasks2.Keys == tasks1.Keys
    requires forall id :: id in tasks2 ==>
               tasks2[id] == if id in crSet then tasks1[id].(status := StatusCancelRequested) else tasks1[id]
    ensures crSet * tasks1.Keys == crSet
    ensures tasks2.Keys == tasks0.Keys
    ensures forall id :: id in tasks0 ==> tasks2[id] == CancelEffect(tasks0[id], id in cancelIds, now, writeFails)
  {
  }

  /** Every requested ID is canceled or sent to cancel-requested exactly once
      when Flamenco Server names each task once. */
  lemma CancelCoversEveryIdOnce(tasks: map<ObjectId, Task>, ids: seq<ObjectId>)
    requires forall i, j :: 0 <= i < j < |ids| ==> ids[i] != ids[j]
    ensures |LegacyTaskUpdates.KnownActive(tasks, ids)| + |LegacyTaskUpdates.KnownInactive(tasks, ids)|
            + |LegacyTaskUpdates.Unknown(tasks, ids)| == |ids|
  {
    LegacyTaskUpdates.NoShortfallForDistinctIds(tasks, ids);
  }

  // ---------------------------------------------------------------------
  // Pushing the queue

  /** push: send the first `maxCount` queued updates, unqueue what the server
      handled, then cancel what it asked for, even when unqueueing failed.
      `upstream` is SendTaskUpdates (None: the request failed), `unqueueFails`
      says whether RemoveAll errs. */
  method Push(db: Db, maxCount: int, upstream: seq<TaskUpdate> -> Option<LegacyTaskUpdates.PushResponse>,
              unqueueFails: bool, nowText: string, now: Time, idBase: ObjectId, writeFails: bool)
    returns (result: LegacyTaskUpdates.PushResult, ghost canceled: seq<ObjectId>)
    modifies db
    ensures upstream(LegacyTaskUpdates.Batch(old(db.queue), maxCount)).None? ==>
              result == LegacyTaskUpdates.SendFailed && db.queue == old(db.queue) && db.tasks == old(db.tasks)
    ensures upstream(LegacyTaskUpdates.Batch(old(db.queue), maxCount)).Some? ==>
              var resp := upstream(LegacyTaskUpdates.Batch(old(db.queue), maxCount)).value;
              var kept := if |resp.handledUpdateIds| > 0 && !unqueueFails
                          then LegacyTaskUpdates.Unqueue(old(db.queue), set id | id in resp.handledUpdateIds)
                          else old(db.queue);
              && |kept| <= |db.queue| && db.queue[..|kept|] == kept
              && CancelPairs(db.queue[|kept|..], canceled)
              && multiset(canceled) == multiset(LegacyTaskUpdates.KnownInactive(old(db.tasks), resp.cancelTasksIds))
                                       + multiset(LegacyTaskUpdates.Unknown(old(db.tasks), resp.cancelTasksIds))
              && db.tasks.Keys == old(db.tasks).Keys
              && (forall id :: id in old(db.tasks) ==>
                    db.tasks[id] == CancelEffect(old(db.tasks)[id], id in resp.cancelTasksIds, now, writeFails))
              && result == (if |resp.handledUpdateIds| > 0 && unqueueFails
                            then LegacyTaskUpdates.UnqueueFailed else LegacyTaskUpdates.Pushed)
    ensures db.workers == old(db.workers)
  {
    canceled := [];
    var batch := LegacyTaskUpdates.Batch(db.queue, maxCount);
    var response := upstream(batch);
    if response.None? {
      return LegacyTaskUpdates.SendFailed, canceled;
    }
    var resp := response.value;

    // If successful, remove the accepted updates from the queue.
    var errUnqueue := false;
    if |resp.handledUpdateIds| > 0 {
      if unqueueFails {
        errUnqueue := true;
      } else {
        db.queue := LegacyTaskUpdates.Unqueue(db.queue, set id | id in resp.handledUpdateIds);
      }
    }
    var goToCancelRequested, canceledCount, matched, shortfall;
    goToCancelRequested, canceledCount, matched, shortfall, canceled :=
      HandleIncomingCancelRequests(db, resp.cancelTasksIds, nowText, now, idBase, writeFails);
    result := if errUnqueue then LegacyTaskUpdates.UnqueueFailed else LegacyTaskUpdates.Pushed;
  }

  /** Seen from any instant after 1970, the zero time lies further back than a
      Duration can count, so the first round always pushes. */
  lemma FirstRoundPushes(now: Time, updateCount: int, maxCount: int, maxInterval: Duration,
                         cancelFetchInterval: Duration)
    requires now >= 0 && cancelFetchInterval <= MaxDuration
    ensures Sub(now, ZeroTime) == MaxDuration
    ensures LegacyTaskUpdates.MayPush(updateCount, Sub(now, ZeroTime), maxCount, maxInterval, cancelFetchInterval)
  {
  }

  /** The pushing loop of TaskUpdatePusher.Go: the time of the last successful
      push and the three settings that decide when the next one is due. */
  class TaskUpdatePusher {
    const maxCount: int
    const maxInterval: Duration
    const cancelFetchInterval: Duration
    var lastPush: Time

    constructor (maxCount: int, maxInterval: Duration, cancelFetchInterval: Duration)
      ensures this.maxCount == maxCount && this.maxInterval == maxInterval
      ensures this.cancelFetchInterval == cancelFetchInterval
      ensures lastPush == ZeroTime
    {
      this.maxCount := maxCount;
      this.maxInterval := maxInterval;
      this.cancelFetchInterval := cancelFetchInterval;
      lastPush := ZeroTime;
    }

    /** One round of the loop: `forced` says the round was started by Kick
        rather than by the timer. A push is attempted when forced or due, and
        only a push without error moves `lastPush`. */
    method Round(db: Db, forced: bool, now: Time, upstream: seq<TaskUpdate> -> Option<LegacyTaskUpdates.PushResponse>,
                 unqueueFails: bool, nowText: string, idBase: ObjectId, writeFails: bool)
      returns (attempt: Option<LegacyTaskUpdates.PushResult>)
      modifies this, db
      ensures attempt.Some? <==>
                forced || LegacyTaskUpdates.MayPush(|old(db.queue)|, Sub(now, old(lastPush)),
                                                    maxCount, maxInterval, cancelFetchInterval)
      ensures attempt.None? ==> db.queue == old(db.queue) && db.tasks == old(db.tasks)
      ensures attempt.Some? && upstream(LegacyTaskUpdates.Batch(old(db.queue), maxCount)).None? ==>
                attempt == Some(LegacyTaskUpdates.SendFailed) && db.queue == old(db.queue) && db.tasks == old(db.tasks)
      ensures lastPush == if attempt == Some(LegacyTaskUpdates.Pushed) then now else old(lastPush)
      ensures db.workers == old(db.workers)
    {
      var updateCount := |db.queue|;
      var timeSinceLastPush := Sub(now, lastPush);
      var mayRegularPush := updateCount > 0 && (updateCount >= maxCount || timeSinceLastPush >= maxInterval);
      var mayEmptyPush := timeSinceLastPush >= cancelFetchInterval;
      if !forced && !mayRegularPush && !mayEmptyPush {
        return None;
      }

      // Time to push!
      var result, _ := Push(db, maxCount, upstream, unqueueFails, nowText, now, idBase, writeFails);
      attempt := Some(result);
      if result == LegacyTaskUpdates.Pushed {
        // Only remember we've pushed after it was successful.
        lastPush := now;
      }
    }
  }
}
