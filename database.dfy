/** The manager's MongoDB collections as in-memory state.

    `flamenco_tasks` and `flamenco_workers` become maps from ObjectId to
    document, `task_update_queue` becomes a sequence in insertion order.
    A bson update document (`{"$set": {...}, "$push": {...}, "$unset": {...}}`)
    is a record with one optional value per field the manager writes;
    `ApplyToTask` and `ApplyToWorker` give the effect of `UpdateId` on the
    fields the manager reads back. */
module Database {
  import opened Common

  // Task statuses used by the manager.
  const StatusQueued := "queued"
  const StatusClaimedByManager := "claimed-by-manager"
  const StatusActive := "active"
  const StatusCanceled := "canceled"
  const StatusCancelRequested := "cancel-requested"
  const StatusFailed := "failed"
  const StatusSoftFailed := "soft-failed"
  const StatusCompleted := "completed"

  datatype WorkerRef = WorkerRef(id: ObjectId, identifier: string)

  /** A command setting value: only strings undergo variable replacement. */
  datatype SettingValue = SStr(s: string) | SInt(i: int) | SBool(b: bool)

  datatype Command = Command(name: string, settings: map<string, SettingValue>)

  datatype Task = Task(
    id: ObjectId,
    job: ObjectId,
    status: string,
    priority: int,
    jobType: string,
    taskType: string,
    workerId: Option<ObjectId>,
    worker: string,
    failedByWorkers: seq<WorkerRef>,
    activity: string,
    log: string,
    lastUpdated: Time,
    lastWorkerPing: Time,
    timing: map<string, int>,
    commands: seq<Command>,
    managerLocal: bool)

  datatype Worker = Worker(
    id: ObjectId,
    address: string,
    nickname: string,
    software: string,
    status: string,
    platform: string,
    supportedJobTypes: seq<string>,
    supportedTaskTypes: seq<string>,
    lastActivity: Time,
    currentTask: Option<ObjectId>,
    currentTaskStatus: string,
    currentTaskUpdated: Time)

  datatype TaskUpdate = TaskUpdate(
    id: ObjectId,
    taskId: ObjectId,
    taskStatus: string,
    activity: string,
    log: string,
    logTail: string,
    timing: map<string, int>,
    worker: string,
    failedByWorkers: seq<WorkerRef>,
    receivedOnManager: Time,
    isManagerLocal: bool)

  /** A blank update for a task: what `TaskUpdate{TaskID: id}` builds in Go. */
  function BlankUpdate(taskId: ObjectId): TaskUpdate
  {
    TaskUpdate(0, taskId, "", "", "", "", map[], "", [], 0, false)
  }

  /** The `$set` part of an update of a flamenco_tasks document: for each field
      the manager writes, the value it is set to, or None when the update
      leaves the field alone. */
  datatype TaskSet = TaskSet(
    status: Option<string>,            // "status"
    activity: Option<string>,          // "activity"
    log: Option<string>,               // "log"
    lastUpdated: Option<Time>,         // "last_updated"
    lastWorkerPing: Option<Time>,      // "last_worker_ping"
    workerId: Option<ObjectId>,        // "worker_id"
    timing: Option<map<string, int>>)  // "metrics.timing"

  /** A `$set` that names no field. */
  const NoTaskSet := TaskSet(None, None, None, None, None, None, None)

  /** An update document for a task: `{"$set": sets}`, with
      `"$push": {"failed_by_workers": push}` when `push` is present. */
  datatype TaskUpdateDoc = TaskUpdateDoc(sets: TaskSet, push: Option<WorkerRef>)

  /** The `$set` part of an update of a flamenco_workers document. */
  datatype WorkerSet = WorkerSet(
    status: Option<string>,                   // "status"
    address: Option<string>,                  // "address"
    nickname: Option<string>,                 // "nickname"
    software: Option<string>,                 // "software"
    lastActivity: Option<Time>,               // "last_activity"
    currentTask: Option<ObjectId>,            // "current_task"
    currentTaskStatus: Option<string>,        // "current_task_status"
    currentTaskUpdated: Option<Time>,         // "current_task_updated"
    supportedTaskTypes: Option<seq<string>>)  // "supported_task_types"

  const NoWorkerSet := WorkerSet(None, None, None, None, None, None, None, None, None)

  /** An update document for a worker: `{"$set": sets}`, with
      `"$unset": {"current_task": true}` when `unsetCurrentTask` holds (the only
      field the manager ever unsets). */
  datatype WorkerUpdateDoc = WorkerUpdateDoc(sets: WorkerSet, unsetCurrentTask: bool)

  /** `UpdateId(task.id, u)` on the task fields the manager reads back. */
  function ApplyToTask(t: Task, u: TaskUpdateDoc): (r: Task)
    ensures r.id == t.id && r.job == t.job && r.priority == t.priority && r.jobType == t.jobType
    ensures r.commands == t.commands && r.managerLocal == t.managerLocal
  {
    var s := u.sets;
    t.(
      status := SetOr(s.status, t.status),
      activity := SetOr(s.activity, t.activity),
      log := SetOr(s.log, t.log),
      lastUpdated := SetOr(s.lastUpdated, t.lastUpdated),
      lastWorkerPing := SetOr(s.lastWorkerPing, t.lastWorkerPing),
      workerId := if s.workerId.Some? then s.workerId else t.workerId,
      timing := SetOr(s.timing, t.timing),
      failedByWorkers := if u.push.Some? then t.failedByWorkers + [u.push.value] else t.failedByWorkers)
  }

  /** `UpdateId(worker.id, u)` on the worker fields the manager reads back. */
  function ApplyToWorker(w: Worker, u: WorkerUpdateDoc): (r: Worker)
    ensures r.id == w.id && r.platform == w.platform && r.supportedJobTypes == w.supportedJobTypes
  {
    var s := u.sets;
    w.(
      status := SetOr(s.status, w.status),
      address := SetOr(s.address, w.address),
      nickname := SetOr(s.nickname, w.nickname),
      software := SetOr(s.software, w.software),
      lastActivity := SetOr(s.lastActivity, w.lastActivity),
      currentTaskStatus := SetOr(s.currentTaskStatus, w.currentTaskStatus),
      currentTaskUpdated := SetOr(s.currentTaskUpdated, w.currentTaskUpdated),
      supportedTaskTypes := SetOr(s.supportedTaskTypes, w.supportedTaskTypes),
      currentTask := if u.unsetCurrentTask then None
                     else if s.currentTask.Some? then s.currentTask
                     else w.currentTask)
  }

  /** Every document is stored under its own `_id`. */
  predicate KeyedById(tasks: map<ObjectId, Task>)
  {
    forall id :: id in tasks ==> tasks[id].id == id
  }

  /** The manager's database: the task cache, the worker registry and the
      queue of task updates waiting to be pushed to Flamenco Server. */
  class Db {
    var tasks: map<ObjectId, Task>
    var workers: map<ObjectId, Worker>
    var queue: seq<TaskUpdate>

    constructor (tasks: map<ObjectId, Task>, workers: map<ObjectId, Worker>, queue: seq<TaskUpdate>)
      ensures this.tasks == tasks && this.workers == workers && this.queue == queue
    {
      this.tasks := tasks;
      this.workers := workers;
      this.queue := queue;
    }

    /** `db.C("flamenco_tasks").UpdateId(id, u)`; false is mgo.ErrNotFound. */
    method UpdateTask(id: ObjectId, u: TaskUpdateDoc) returns (found: bool)
      modifies this
      ensures found <==> id in old(tasks)
      ensures tasks == if found then old(tasks)[id := ApplyToTask(old(tasks)[id], u)] else old(tasks)
      ensures workers == old(workers) && queue == old(queue)
    {
      found := id in tasks;
      if found {
        tasks := tasks[id := ApplyToTask(tasks[id], u)];
      }
    }

    /** `UpdateAll({"_id": {"$in": ids}}, {"$set": {"status": status}})`; returns the
        number of matched documents. */
    method SetStatusAll(ids: set<ObjectId>, status: string) returns (matched: nat)
      modifies this
      ensures matched == |ids * old(tasks).Keys|
      ensures tasks.Keys == old(tasks).Keys
      ensures forall id :: id in tasks ==>
                tasks[id] == if id in ids then old(tasks)[id].(status := status) else old(tasks)[id]
      ensures workers == old(workers) && queue == old(queue)
    {
      matched := |ids * tasks.Keys|;
      tasks := map id | id in tasks :: if id in ids then tasks[id].(status := status) else tasks[id];
    }

    /** `db.C("flamenco_workers").UpdateId(id, u)`; false is mgo.ErrNotFound. */
    method UpdateWorker(id: ObjectId, u: WorkerUpdateDoc) returns (found: bool)
      modifies this
      ensures found <==> id in old(workers)
      ensures workers == if found then old(workers)[id := ApplyToWorker(old(workers)[id], u)] else old(workers)
      ensures tasks == old(tasks) && queue == old(queue)
    {
      found := id in workers;
      if found {
        workers := workers[id := ApplyToWorker(workers[id], u)];
      }
    }
  }
}
