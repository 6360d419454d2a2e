/** Worker bookkeeping of the manager (flamenco/workers.go): how a worker is
    named in logs, which task statuses let it keep running, and the update
    documents written when a worker is seen, signs on, pings a task or signs off. */
module Workers {
  import opened Common
  import opened Database
  import LegacyTaskUpdates

  /** The parts of an HTTP request the worker handlers read. */
  datatype Request = Request(remoteAddr: string, userAgent: string)

  /** Worker.Identifier: the address, followed by the nickname in parentheses when there is one. */
  function Identifier(w: Worker): (ident: string)
    ensures |w.address| <= |ident| && ident[..|w.address|] == w.address
    ensures ident == w.address <==> w.nickname == ""
    ensures w.nickname != "" ==> ident[|w.address|..] == " (" + w.nickname + ")"
  {
    if |w.nickname| > 0 then w.address + " (" + w.nickname + ")" else w.address
  }

  /** The statuses in which a worker may run a task. */
  const RunnableStatuses: map<string, bool> :=
    map[StatusActive := true, StatusClaimedByManager := true, StatusQueued := true]

  /** IsRunnableTaskStatus: a lookup in the table of runnable statuses. */
  function IsRunnableTaskStatus(status: string): (runnable: bool)
    ensures runnable <==> status == StatusActive || status == StatusClaimedByManager || status == StatusQueued
  {
    status in RunnableStatuses && RunnableStatuses[status]
  }

  /** The worker document as FindWorker returns it with an address/nickname projection:
      every other field has its zero value. */
  function Projected(id: ObjectId, w: Worker): (p: Worker)
    ensures p.id == id && p.address == w.address && p.nickname == w.nickname
    ensures Identifier(p) == Identifier(w)
  {
    Worker(id, w.address, w.nickname, "", "", "", [], [], 0, None, "", 0)
  }

  // ---------------------------------------------------------------------
  // net.SplitHostPort

  function IndexOf(s: string, c: char): (i: int)
    ensures -1 <= i < |s|
    ensures i >= 0 ==> s[i] == c && c !in s[..i]
    ensures i < 0 ==> c !in s
  {
    if |s| == 0 then -1
    else if s[0] == c then 0
    else
      var j := IndexOf(s[1..], c);
      if j < 0 then -1
      else
        assert s[..j + 1] == [s[0]] + s[1..][..j];
        j + 1
  }

  function LastIndexOf(s: string, c: char): (i: int)
    ensures -1 <= i < |s|
    ensures i >= 0 ==> s[i] == c
    ensures forall k :: i < k < |s| ==> s[k] != c
    decreases |s|
  {
    if |s| == 0 then -1
    else if s[|s| - 1] == c then |s| - 1
    else LastIndexOf(s[..|s| - 1], c)
  }

  /** net.SplitHostPort: split "host:port" or "[host]:port"; None for every
      address it rejects (missing port, too many colons, stray brackets). */
  function SplitHostPort(hostport: string): (r: Option<(string, string)>)
    ensures r.Some? ==> ':' !in r.value.1 && ('[' !in r.value.0 && ']' !in r.value.0)
    ensures r.Some? ==> hostport == r.value.0 + ":" + r.value.1 || hostport == "[" + r.value.0 + "]:" + r.value.1
    ensures r.Some? && hostport[0] != '[' ==> ':' !in r.value.0 && hostport == r.value.0 + ":" + r.value.1
  {
    var i := LastIndexOf(hostport, ':');
    if i < 0 then None
    else if hostport[0] == '[' then
      var end := IndexOf(hostport, ']');
      if end < 0 || end + 1 != i then None
      else if '[' in hostport[1..] || ']' in hostport[end + 1..] then None
      else
        assert hostport == "[" + hostport[1..end] + "]:" + hostport[i + 1..];
        assert forall k :: 1 <= k < end ==> hostport[k] == hostport[1..][k - 1];
        Some((hostport[1..end], hostport[i + 1..]))
    else
      var host := hostport[..i];
      if ':' in host || '[' in hostport || ']' in hostport then None
      else
        assert hostport == host + ":" + hostport[i + 1..];
        Some((host, hostport[i + 1..]))
  }

  /** A pair of host and port joins back to what SplitHostPort splits. */
  lemma SplitHostPortJoin(host: string, port: string)
    requires ':' !in host && ':' !in port && '[' !in host + port && ']' !in host + port
    ensures SplitHostPort(host + ":" + port) == Some((host, port))
  {
    var hp := host + ":" + port;
    assert hp[|host|] == ':';
    assert forall k :: |host| < k < |hp| ==> hp[k] == port[k - |host| - 1];
    assert hp[|host| + 1..] == port;
    assert hp[..|host|] == host;
    if |host| > 0 {
      assert hp[0] == host[0];
    }
  }

  /** The host SeenEx records: the host part of the remote address, or the whole
      address when it does not split. */
  function RemoteHost(req: Request): string
  {
    match SplitHostPort(req.remoteAddr)
    case Some((host, _)) => host
    case None => req.remoteAddr
  }

  // ---------------------------------------------------------------------
  // Seen / SeenEx

  /** The update document SeenEx writes: the caller's `setDoc` plus last_activity,
      status, and address/software when they changed; the caller's `$unset`
      goes along unchanged. */
  function SeenUpdate(w: Worker, req: Request, now: Time, setDoc: WorkerSet, unsetCurrentTask: bool): WorkerUpdateDoc
  {
    var host := RemoteHost(req);
    var s := setDoc.(lastActivity := Some(now), status := Some("awake"));
    var s := if w.address != host then s.(address := Some(host)) else s;
    var s := if w.software != req.userAgent then s.(software := Some(req.userAgent)) else s;
    WorkerUpdateDoc(s, unsetCurrentTask)
  }

  /** Worker.SeenEx: record that the worker was seen now, at the request's
      host and with the request's software. Returns the updated in-memory worker. */
  method SeenEx(db: Db, worker: Worker, req: Request, now: Time, setDoc: WorkerSet, unsetCurrentTask: bool)
    returns (worker': Worker, found: bool)
    modifies db
    ensures worker' == worker.(lastActivity := now, address := RemoteHost(req))
    ensures found <==> worker.id in old(db.workers)
    ensures db.workers == if found
                          then old(db.workers)[worker.id := ApplyToWorker(old(db.workers)[worker.id],
                                                                          SeenUpdate(worker, req, now, setDoc, unsetCurrentTask))]
                          else old(db.workers)
    ensures db.tasks == old(db.tasks) && db.queue == old(db.queue)
  {
    worker' := worker.(lastActivity := now);
    var s := setDoc;
    s := s.(lastActivity := Some(worker'.lastActivity));
    s := s.(status := Some("awake"));

    var remoteHost: string;
    var split := SplitHostPort(req.remoteAddr);
    if split.Some? {
      remoteHost := split.value.0;
    } else {
      // Unable to split; use the whole thing instead.
      remoteHost := req.remoteAddr;
    }
    if worker'.address != remoteHost {
      worker' := worker'.(address := remoteHost);
      s := s.(address := Some(remoteHost));
    }

    var userAgent := req.userAgent;
    if worker'.software != userAgent {
      s := s.(software := Some(userAgent));
    }

    var updates := WorkerUpdateDoc(s, false);
    if unsetCurrentTask {
      updates := updates.(unsetCurrentTask := true);
    }
    found := db.UpdateWorker(worker.id, updates);
  }

  /** The worker registry after Seen(w): the stored worker under w.id, if any,
      takes Seen's update document. */
  function AfterSeen(workers: map<ObjectId, Worker>, w: Worker, req: Request, now: Time): map<ObjectId, Worker>
  {
    if w.id in workers
    then workers[w.id := ApplyToWorker(workers[w.id], SeenUpdate(w, req, now, NoWorkerSet, false))]
    else workers
  }

  /** Worker.Seen: SeenEx without extra updates. */
  method Seen(db: Db, worker: Worker, req: Request, now: Time) returns (worker': Worker)
    modifies db
    ensures worker' == worker.(lastActivity := now, address := RemoteHost(req))
    ensures db.workers == AfterSeen(old(db.workers), worker, req, now)
    ensures db.tasks == old(db.tasks) && db.queue == old(db.queue)
  {
    var found;
    worker', found := SeenEx(db, worker, req, now, NoWorkerSet, false);
  }

  /** After SeenEx the stored worker is awake, was last active now, and sits at the request's host. */
  lemma SeenEffect(stored: Worker, w: Worker, req: Request, now: Time, setDoc: WorkerSet)
    requires w.address == stored.address && setDoc.address.None?
    ensures var r := ApplyToWorker(stored, SeenUpdate(w, req, now, setDoc, false));
      && r.status == "awake" && r.lastActivity == now && r.address == RemoteHost(req)
      && r.currentTask == (if setDoc.currentTask.Some? then setDoc.currentTask else stored.currentTask)
      && r.nickname == SetOr(setDoc.nickname, stored.nickname)
      && r.supportedTaskTypes == SetOr(setDoc.supportedTaskTypes, stored.supportedTaskTypes)
      && r.id == stored.id && r.platform == stored.platform
  {
  }

  // ---------------------------------------------------------------------
  // SetStatus / SetCurrentTask / Timeout

  /** Worker.SetStatus: set the status in memory and in the database. */
  method SetStatus(db: Db, worker: Worker, status: string) returns (worker': Worker, found: bool)
    modifies db
    ensures worker' == worker.(status := status)
    ensures found <==> worker.id in old(db.workers)
    ensures db.workers == if found then old(db.workers)[worker.id := old(db.workers)[worker.id].(status := status)]
                          else old(db.workers)
    ensures db.tasks == old(db.tasks) && db.queue == old(db.queue)
  {
    worker' := worker.(status := status);
    found := db.UpdateWorker(worker.id, WorkerUpdateDoc(NoWorkerSet.(status := Some(status)), false));
  }

  /** Worker.SetCurrentTask: point the worker at a task, in memory and in the database. */
  method SetCurrentTask(db: Db, worker: Worker, taskId: ObjectId) returns (worker': Worker, found: bool)
    modifies db
    ensures worker' == worker.(currentTask := Some(taskId))
    ensures found <==> worker.id in old(db.workers)
    ensures db.workers == if found then old(db.workers)[worker.id := old(db.workers)[worker.id].(currentTask := Some(taskId))]
                          else old(db.workers)
    ensures db.tasks == old(db.tasks) && db.queue == old(db.queue)
  {
    worker' := worker.(currentTask := Some(taskId));
    found := db.UpdateWorker(worker.id, WorkerUpdateDoc(NoWorkerSet.(currentTask := Some(taskId)), false));
  }

  /** Worker.Timeout and Worker.TimeoutOnTask: mark the worker as timed out
      (the task only appears in the log). */
  method Timeout(db: Db, worker: Worker)
    modifies db
    ensures db.workers == if worker.id in old(db.workers)
                          then old(db.workers)[worker.id := old(db.workers)[worker.id].(status := "timeout")]
                          else old(db.workers)
    ensures db.tasks == old(db.tasks) && db.queue == old(db.queue)
  {
    var _, _ := SetStatus(db, worker, "timeout");
  }

  // ---------------------------------------------------------------------
  // WorkerPingedTask

  /** WorkerPingedTask: stamp the task with the ping time and the worker, then
      stamp the worker with the time (and the status, when one was reported).
      Nothing happens to the worker when the task is unknown. */
  method WorkerPingedTask(db: Db, workerId: ObjectId, taskId: ObjectId, taskStatus: string, now: Time)
    modifies db
    ensures db.tasks == if taskId in old(db.tasks)
                        then old(db.tasks)[taskId := old(db.tasks)[taskId].(lastWorkerPing := now, workerId := Some(workerId))]
                        else old(db.tasks)
    ensures db.workers == if taskId in old(db.tasks) && workerId in old(db.workers)
                          then old(db.workers)[workerId := PingedWorker(old(db.workers)[workerId], taskStatus, now)]
                          else old(db.workers)
    ensures db.queue == old(db.queue)
  {
    var updates := NoTaskSet.(lastWorkerPing := Some(now), workerId := Some(workerId));
    var found := db.UpdateTask(taskId, TaskUpdateDoc(updates, None));
    if !found {
      return;
    }

    // Also update this worker to reflect the last time it pinged a task.
    var workerUpdates := NoWorkerSet.(currentTaskUpdated := Some(now));
    if |taskStatus| > 0 {
      workerUpdates := workerUpdates.(currentTaskStatus := Some(taskStatus));
    }
    var workerFound := db.UpdateWorker(workerId, WorkerUpdateDoc(workerUpdates, false));
  }

  /** The stored worker after a ping: a reported status replaces the current
      task status, an empty one leaves it. */
  function PingedWorker(w: Worker, taskStatus: string, now: Time): (r: Worker)
    ensures r.currentTaskUpdated == now
    ensures r.currentTaskStatus == if taskStatus != "" then taskStatus else w.currentTaskStatus
    ensures r.(currentTaskUpdated := w.currentTaskUpdated, currentTaskStatus := w.currentTaskStatus) == w
  {
    w.(currentTaskUpdated := now, currentTaskStatus := if taskStatus != "" then taskStatus else w.currentTaskStatus)
  }

  // ---------------------------------------------------------------------
  // WorkerMayRunTask

  /** Why a worker has to stop running a task. */
  datatype Reason = TaskNotFound | Reassigned | NotRunnable(status: string)

  /** The may-keep-running decision: the checks in the order the handler makes them. */
  function MayKeepRunningReason(tasks: map<ObjectId, Task>, taskId: ObjectId, workerId: ObjectId): (r: Option<Reason>)
    ensures r == Some(TaskNotFound) <==> taskId !in tasks
    ensures r == Some(Reassigned) <==>
              taskId in tasks && tasks[taskId].workerId.Some? && tasks[taskId].workerId.value != workerId
    ensures r.Some? && r.value.NotRunnable? <==>
              taskId in tasks && (tasks[taskId].workerId.None? || tasks[taskId].workerId.value == workerId)
              && !IsRunnableTaskStatus(tasks[taskId].status)
    ensures r.None? <==>
              taskId in tasks && (tasks[taskId].workerId.None? || tasks[taskId].workerId.value == workerId)
              && IsRunnableTaskStatus(tasks[taskId].status)
  {
    if taskId !in tasks then Some(TaskNotFound)
    else
      var task := tasks[taskId];
      if task.workerId.Some? && task.workerId.value != workerId then Some(Reassigned)
      else if !IsRunnableTaskStatus(task.status) then Some(NotRunnable(task.status))
      else None
  }

  datatype MayKeepRunningResponse =
    | WorkerUnknown                                   // 403
    | Answer(mayKeepRunning: bool, reason: Option<Reason>)

  /** WorkerMayRunTask: tell the worker whether it may keep running the task;
      when it may, the ping is recorded. */
  method WorkerMayRunTask(db: Db, workerId: ObjectId, taskId: ObjectId, req: Request, now: Time)
    returns (response: MayKeepRunningResponse)
    modifies db
    ensures response == WorkerUnknown <==> workerId !in old(db.workers)
    ensures response.Answer? ==>
              && response.reason == MayKeepRunningReason(old(db.tasks), taskId, workerId)
              && (response.mayKeepRunning <==> response.reason.None?)
    ensures response.Answer? && !response.mayKeepRunning ==> db.tasks == old(db.tasks)
    ensures response.Answer? && response.mayKeepRunning ==>
              db.tasks == old(db.tasks)[taskId := old(db.tasks)[taskId].(lastWorkerPing := now, workerId := Some(workerId))]
    ensures response == WorkerUnknown ==> db.tasks == old(db.tasks) && db.workers == old(db.workers)
    ensures response.Answer? ==>
              var seen := AfterSeen(old(db.workers), Projected(workerId, old(db.workers)[workerId]), req, now);
              db.workers == if response.mayKeepRunning
                            then seen[workerId := PingedWorker(seen[workerId], "", now)]
                            else seen
    ensures db.queue == old(db.queue)
  {
    if workerId !in db.workers {
      return WorkerUnknown;
    }
    var worker := Projected(workerId, db.workers[workerId]);
    var _ := Seen(db, worker, req, now);

    var reason := MayKeepRunningReason(db.tasks, taskId, worker.id);
    if reason.None? {
      response := Answer(true, None);
      WorkerPingedTask(db, worker.id, taskId, "", now);
    } else {
      response := Answer(false, reason);
    }
  }

  // ---------------------------------------------------------------------
  // WorkerSignOn

  /** What a worker sends when it signs on. */
  datatype SignonDoc = SignonDoc(nickname: string, supportedTaskTypes: seq<string>)

  /** The fields sign-on updates besides those of SeenEx. */
  function SignOnSet(w: Worker, winfo: SignonDoc): WorkerSet
  {
    var s := if winfo.nickname != "" && winfo.nickname != w.nickname then NoWorkerSet.(nickname := Some(winfo.nickname))
             else NoWorkerSet;
    if |winfo.supportedTaskTypes| > 0 then s.(supportedTaskTypes := Some(winfo.supportedTaskTypes)) else s
  }

  /** WorkerSignOn: record the worker's new nickname and task types (when given),
      clear its current task and mark it seen. 403 for an unknown worker, 400 for
      an unreadable body, 204 otherwise. */
  method WorkerSignOn(db: Db, workerId: ObjectId, req: Request, body: Option<SignonDoc>, now: Time)
    returns (code: int)
    modifies db
    ensures code == 403 <==> workerId !in old(db.workers)
    ensures code == 400 <==> workerId in old(db.workers) && body.None?
    ensures code == 204 <==> workerId in old(db.workers) && body.Some?
    ensures code == 204 ==>
              db.workers == old(db.workers)[workerId := ApplyToWorker(old(db.workers)[workerId],
                 SeenUpdate(Projected(workerId, old(db.workers)[workerId]), req, now,
                            SignOnSet(old(db.workers)[workerId], body.value), true))]
    ensures code != 204 ==> db.workers == old(db.workers)
    ensures db.tasks == old(db.tasks) && db.queue == old(db.queue)
  {
    if workerId !in db.workers {
      return 403;
    }
    var worker := Projected(workerId, db.workers[workerId]);
    if body.None? {
      return 400;
    }
    var winfo := body.value;

    // Only update those fields that were actually given.
    var updateSet := NoWorkerSet;
    if winfo.nickname != "" && winfo.nickname != worker.nickname {
      updateSet := updateSet.(nickname := Some(winfo.nickname));
    }
    if |winfo.supportedTaskTypes| > 0 {
      updateSet := updateSet.(supportedTaskTypes := Some(winfo.supportedTaskTypes));
    }
    var updateUnset := true;
    worker := worker.(currentTask := None);

    // The worker was just found, so the update cannot miss it: the 500 answer
    // for a failing database write has no counterpart here.
    var found;
    worker, found := SeenEx(db, worker, req, now, updateSet, updateUnset);
    code := 204;
  }

  /** After sign-on the stored worker is awake, has no current task, and carries
      the new nickname and task types exactly when they were given. */
  lemma SignOnEffect(stored: Worker, req: Request, now: Time, winfo: SignonDoc)
    ensures var r := ApplyToWorker(stored, SeenUpdate(Projected(stored.id, stored), req, now, SignOnSet(stored, winfo), true));
      && r.currentTask.None? && r.status == "awake" && r.lastActivity == now
      && r.nickname == (if winfo.nickname != "" then winfo.nickname else stored.nickname)
      && r.supportedTaskTypes == (if |winfo.supportedTaskTypes| > 0 then winfo.supportedTaskTypes else stored.supportedTaskTypes)
      && r.address == RemoteHost(req)
  {
  }

  // ---------------------------------------------------------------------
  // WorkerSignOff

  /** The active tasks assigned to the worker: the ones sign-off re-queues. */
  ghost function ActiveTasksOf(tasks: map<ObjectId, Task>, workerId: ObjectId): set<ObjectId>
  {
    set id | id in tasks && tasks[id].workerId == Some(workerId) && tasks[id].status == StatusActive
  }

  /** The task cache with the given tasks handed back to the manager. */
  ghost function Requeued(tasks: map<ObjectId, Task>, ids: set<ObjectId>, activity: string): (r: map<ObjectId, Task>)
    ensures r.Keys == tasks.Keys
  {
    map id | id in tasks :: if id in ids then tasks[id].(status := StatusClaimedByManager, activity := activity) else tasks[id]
  }

  function SignOffActivity(ident: string): string
  {
    "Re-queued task after worker " + ident + " signed off"
  }

  /** The task update sign-off queues for each of the worker's active tasks. */
  function SignOffUpdate(ident: string, nowText: string): (u: TaskUpdate)
    ensures u.taskStatus == StatusClaimedByManager && u.worker == "-" && u.activity != ""
  {
    BlankUpdate(0).(taskStatus := StatusClaimedByManager, worker := "-", activity := SignOffActivity(ident),
                    log := nowText + ": Manager re-queued task after worker " + ident + " signed off")
  }

  lemma RequeuedOneMore(tasks: map<ObjectId, Task>, ids: set<ObjectId>, x: ObjectId, activity: string)
    requires x in tasks
    ensures Requeued(tasks, ids, activity)[x := Requeued(tasks, ids, activity)[x].(status := StatusClaimedByManager, activity := activity)]
            == Requeued(tasks, ids + {x}, activity)
  {
  }

  lemma QueuedOneMore(queue0: seq<TaskUpdate>, added: seq<TaskUpdate>, done: set<ObjectId>, u: TaskUpdate)
    requires multiset(LegacyTaskUpdates.TaskIds(added)) == multiset(done) && |added| == |done|
    requires u.taskId !in done
    ensures multiset(LegacyTaskUpdates.TaskIds(added + [u])) == multiset(done + {u.taskId})
    ensures |added + [u]| == |done + {u.taskId}|
    ensures queue0 + added + [u] == queue0 + (added + [u])
  {
    LegacyTaskUpdates.TaskIdsAppend(added, u);
  }

  lemma PendingStep(ids: set<ObjectId>, pending: set<ObjectId>, done: set<ObjectId>, id: ObjectId)
    requires pending <= ids && done == ids - pending && id in pending
    ensures pending - {id} <= ids && done + {id} == ids - (pending - {id}) && id !in done
  {
  }

  /** One turn of the sign-off loop: queue `tupdate` for task `id`. */
  method RequeueOne(db: Db, ghost tasks0: map<ObjectId, Task>, ghost queue0: seq<TaskUpdate>,
                    ghost done: set<ObjectId>, ghost added: seq<TaskUpdate>,
                    id: ObjectId, tupdate: TaskUpdate, now: Time, newId: ObjectId)
    returns (ghost added': seq<TaskUpdate>)
    requires id in tasks0 && tasks0[id].status == StatusActive && id !in done
    requires tupdate.taskStatus == StatusClaimedByManager && tupdate.activity != ""
    requires db.tasks == Requeued(tasks0, done, tupdate.activity) && db.queue == queue0 + added
    requires |added| == |done| && multiset(LegacyTaskUpdates.TaskIds(added)) == multiset(done)
    modifies db
    ensures db.tasks == Requeued(tasks0, done + {id}, tupdate.activity) && db.queue == queue0 + added'
    ensures |added'| == |done + {id}| && multiset(LegacyTaskUpdates.TaskIds(added')) == multiset(done + {id})
    ensures added' == added + [added'[|added|]]
    ensures added'[|added|].taskStatus == tupdate.taskStatus && added'[|added|].worker == tupdate.worker
    ensures db.workers == old(db.workers)
  {
    assert db.tasks[id] == tasks0[id];
    var queued := LegacyTaskUpdates.QueueTaskUpdate(db, tupdate.(taskId := id), now, newId);
    QueuedOneMore(queue0, added, done, queued);
    RequeuedOneMore(tasks0, done, id, tupdate.activity);
    added' := added + [queued];
  }

  /** The sign-off loop: queue `tupdate` for each of the given active tasks. */
  method RequeueTasks(db: Db, ids: set<ObjectId>, tupdate: TaskUpdate, now: Time, idBase: ObjectId)
    returns (ghost added: seq<TaskUpdate>)
    requires forall id :: id in ids ==> id in db.tasks && db.tasks[id].status == StatusActive
    requires tupdate.taskStatus == StatusClaimedByManager && tupdate.activity != ""
    modifies db
    ensures db.tasks == Requeued(old(db.tasks), ids, tupdate.activity)
    ensures db.workers == old(db.workers) && db.queue == old(db.queue) + added
    ensures |added| == |ids| && multiset(LegacyTaskUpdates.TaskIds(added)) == multiset(ids)
    ensures forall u :: u in added ==> u.taskStatus == tupdate.taskStatus && u.worker == tupdate.worker
  {
    added := [];
    ghost var tasks0 := db.tasks;
    ghost var queue0 := db.queue;
    var pending := ids;
    ghost var done: set<ObjectId> := {};
    var nextId := idBase;
    while pending != {}
      invariant pending <= ids && done == ids - pending
      invariant db.tasks == Requeued(tasks0, done, tupdate.activity)
      invariant db.workers == old(db.workers)
      invariant db.queue == queue0 + added
      invariant |added| == |done| && multiset(LegacyTaskUpdates.TaskIds(added)) == multiset(done)
      invariant forall u :: u in added ==> u.taskStatus == tupdate.taskStatus && u.worker == tupdate.worker
      decreases pending
    {
      var id :| id in pending;
      PendingStep(ids, pending, done, id);
      added := RequeueOne(db, tasks0, queue0, done, added, id, tupdate, now, nextId);
      pending := pending - {id};
      done := done + {id};
      nextId := nextId + 1;
    }
  }

  /** WorkerSignOff: hand every active task of the worker back to the manager
      (queueing a claimed-by-manager update for it), then mark the worker down. */
  method WorkerSignOff(db: Db, workerId: ObjectId, now: Time, nowText: string, idBase: ObjectId)
    returns (code: int, ghost added: seq<TaskUpdate>)
    modifies db
    ensures code == 403 <==> workerId !in old(db.workers)
    ensures code == 403 ==> db.tasks == old(db.tasks) && db.workers == old(db.workers) && db.queue == old(db.queue)
    ensures code != 403 ==>
              && code == 200
              && db.workers == old(db.workers)[workerId := old(db.workers)[workerId].(status := "down")]
              && db.tasks == Requeued(old(db.tasks), ActiveTasksOf(old(db.tasks), workerId),
                                      SignOffActivity(Identifier(old(db.workers)[workerId])))
              && db.queue == old(db.queue) + added
              && |added| == |ActiveTasksOf(old(db.tasks), workerId)|
              && multiset(LegacyTaskUpdates.TaskIds(added)) == multiset(ActiveTasksOf(old(db.tasks), workerId))
              && (forall u :: u in added ==> u.taskStatus == StatusClaimedByManager && u.worker == "-")
  {
    added := [];
    if workerId !in db.workers {
      return 403, added;
    }
    var worker := Projected(workerId, db.workers[workerId]);
    var workerIdent := Identifier(worker);

    // Update the tasks assigned to the worker.
    var tasks := set id | id in db.tasks && db.tasks[id].workerId == Some(worker.id) && db.tasks[id].status == StatusActive;
    assert tasks == ActiveTasksOf(db.tasks, workerId);
    var tupdate := SignOffUpdate(workerIdent, nowText);
    added := RequeueTasks(db, tasks, tupdate, now, idBase);

    // Update the worker itself, to show it's down in the DB too.
    var _, _ := SetStatus(db, worker, "down");
    code := 200;
  }
}
