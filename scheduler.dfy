/** Task assignment to workers (the legacy manager's flamenco/scheduler.go):
    claim the highest-priority runnable task of a job type the worker
    supports, re-check upstream once when there is none, and retry while
    Flamenco Server reports the claimed task as changed. */
module Scheduler {
  import opened Common
  import opened Database
  import Workers
  import VarRepl

  /** The statuses a task can be handed out from. */
  predicate Schedulable(status: string)
  {
    status == StatusQueued || status == StatusClaimedByManager
  }

  /** The query of fetchTaskFromQueueOrManager: a schedulable task of one of
      the worker's job types. */
  predicate Eligible(t: Task, jobTypes: seq<string>)
  {
    Schedulable(t.status) && t.jobType in jobTypes
  }

  predicate AnyEligible(tasks: map<ObjectId, Task>, jobTypes: seq<string>)
  {
    exists id :: id in tasks && Eligible(tasks[id], jobTypes)
  }

  /** `id` is a result of `Find(query).Sort("-priority").Limit(1)`: an eligible
      task of which no eligible task has a higher priority. */
  predicate IsHighest(tasks: map<ObjectId, Task>, jobTypes: seq<string>, id: ObjectId)
  {
    && id in tasks && Eligible(tasks[id], jobTypes)
    && forall o :: o in tasks && Eligible(tasks[o], jobTypes) ==> tasks[o].priority <= tasks[id].priority
  }

  /** `h` is an eligible member of `ids` of which no eligible member of `ids`
      has a higher priority. */
  predicate HighestAmong(tasks: map<ObjectId, Task>, jobTypes: seq<string>, ids: set<ObjectId>, h: ObjectId)
    requires ids <= tasks.Keys
  {
    && h in ids && Eligible(tasks[h], jobTypes)
    && forall o :: o in ids && Eligible(tasks[o], jobTypes) ==> tasks[o].priority <= tasks[h].priority
  }

  /** Among any finite set of candidates with an eligible member there is one
      of highest priority. */
  lemma {:induction false} HighestExists(tasks: map<ObjectId, Task>, jobTypes: seq<string>, ids: set<ObjectId>)
    returns (h: ObjectId)
    requires ids <= tasks.Keys
    requires exists id :: id in ids && Eligible(tasks[id], jobTypes)
    ensures HighestAmong(tasks, jobTypes, ids, h)
    decreases |ids|
  {
    var x :| x in ids && Eligible(tasks[x], jobTypes);
    var rest := ids - {x};
    if exists id :: id in rest && Eligible(tasks[id], jobTypes) {
      h := HighestExists(tasks, jobTypes, rest);
      if tasks[h].priority < tasks[x].priority {
        h := x;
      }
    } else {
      h := x;
    }
  }

  /** The task with its status set to "active", as the `$set` of the query's Change. */
  function Activated(t: Task): (r: Task)
    ensures r.status == StatusActive && !Schedulable(r.status)
  {
    t.(status := StatusActive)
  }

  /** `Find(query).Sort("-priority").Limit(1).Apply(change, &task)` with
      ReturnNew: claim a highest-priority eligible task by making it active,
      and return the updated document; None is mgo.ErrNotFound. */
  method ClaimHighest(db: Db, jobTypes: seq<string>) returns (task: Option<Task>)
    requires KeyedById(db.tasks)
    modifies db
    ensures task.None? <==> !AnyEligible(old(db.tasks), jobTypes)
    ensures task.None? ==> db.tasks == old(db.tasks)
    ensures task.Some? ==> IsHighest(old(db.tasks), jobTypes, task.value.id)
                           && task.value == Activated(old(db.tasks)[task.value.id])
                           && db.tasks == old(db.tasks)[task.value.id := task.value]
    ensures db.workers == old(db.workers) && db.queue == old(db.queue) && KeyedById(db.tasks)
  {
    if !AnyEligible(db.tasks, jobTypes) {
      return None;
    }
    ghost var h := HighestExists(db.tasks, jobTypes, db.tasks.Keys);
    assert IsHighest(db.tasks, jobTypes, h);
    var id :| id in db.tasks && IsHighest(db.tasks, jobTypes, id);
    var t := Activated(db.tasks[id]);
    assert t.id == db.tasks[id].id;
    db.tasks := db.tasks[id := t];
    task := Some(t);
  }

  /** A claimed task cannot be claimed again, and the next claim from the same
      tasks gets one of no higher priority. */
  lemma NextClaimNoHigher(tasks: map<ObjectId, Task>, jobTypes: seq<string>, a: ObjectId, b: ObjectId)
    requires IsHighest(tasks, jobTypes, a)
    requires IsHighest(tasks[a := Activated(tasks[a])], jobTypes, b)
    ensures b != a && b in tasks && tasks[b].priority <= tasks[a].priority
  {
    assert Eligible(tasks[b], jobTypes);
  }

  /** Whether fetchTaskFromQueueOrManager kicks the task downloader: nothing is
      eligible, the throttle is not negative, and more than the throttle has
      elapsed since the last upstream check. */
  predicate Kicks(tasks: map<ObjectId, Task>, jobTypes: seq<string>, throttle: Duration, lastCheck: Time, now: Time)
  {
    !AnyEligible(tasks, jobTypes) && throttle >= 0 && Sub(now, lastCheck) > throttle
  }

  /** The worker document as ScheduleTask's FindWorker returns it: only the
      platform, the supported job types and the address are fetched. */
  function SchedulingProjection(id: ObjectId, w: Worker): (p: Worker)
    ensures p.id == id && p.platform == w.platform && p.supportedJobTypes == w.supportedJobTypes
    ensures p.address == w.address && p.nickname == ""
  {
    Worker(id, w.address, "", "", "", w.platform, w.supportedJobTypes, [], 0, None, "", 0)
  }

  /** The update that records which worker a task was assigned to. */
  function AssignUpdate(workerId: ObjectId): (u: TaskUpdateDoc)
    ensures forall t :: ApplyToTask(t, u) == t.(workerId := Some(workerId))
  {
    TaskUpdateDoc(NoTaskSet.(workerId := Some(workerId)), None)
  }

  /** The package's task scheduler. `lastUpstreamCheck` is the package
      variable `last_upstream_check`, starting at the zero time. */
  class TaskScheduler {
    /** Conf.DownloadTaskRecheckThrottle; negative disables the upstream re-check. */
    const throttle: Duration
    var lastUpstreamCheck: Time

    constructor (throttle: Duration)
      ensures this.throttle == throttle && lastUpstreamCheck == ZeroTime
    {
      this.throttle := throttle;
      lastUpstreamCheck := ZeroTime;
    }

    /** fetchTaskFromQueueOrManager. `downloaded` stands for the tasks the
        task downloader stores when it is kicked; `written` is the status code
        written to the response, None when nothing was written. */
    method FetchTaskFromQueueOrManager(db: Db, worker: Worker, now: Time, downloaded: map<ObjectId, Task>)
      returns (task: Option<Task>, written: Option<int>)
      requires KeyedById(db.tasks) && KeyedById(downloaded)
      modifies this, db
      ensures db.workers == old(db.workers) && db.queue == old(db.queue) && KeyedById(db.tasks)
      ensures |worker.supportedJobTypes| == 0 ==>
                task.None? && written.None? && db.tasks == old(db.tasks) && lastUpstreamCheck == old(lastUpstreamCheck)
      ensures |worker.supportedJobTypes| > 0 ==>
                var jobTypes := worker.supportedJobTypes;
                var kicked := Kicks(old(db.tasks), jobTypes, throttle, old(lastUpstreamCheck), now);
                var tasks1 := if kicked then old(db.tasks) + downloaded else old(db.tasks);
                && lastUpstreamCheck == (if kicked then now else old(lastUpstreamCheck))
                && (task.None? <==> !AnyEligible(tasks1, jobTypes))
                && (task.None? ==> written == Some(204) && db.tasks == tasks1)
                && (task.Some? ==> written.None? && IsHighest(tasks1, jobTypes, task.value.id)
                                   && task.value == Activated(tasks1[task.value.id])
                                   && db.tasks == tasks1[task.value.id := task.value])
    {
      written := None;
      if |worker.supportedJobTypes| == 0 {
        // The worker has no supported job types.
        return None, None;
      }
      var attempt := 0;
      task := None;
      while attempt < 2
        invariant 0 <= attempt <= 1
        invariant db.workers == old(db.workers) && db.queue == old(db.queue) && KeyedById(db.tasks)
        invariant attempt == 0 ==> db.tasks == old(db.tasks) && lastUpstreamCheck == old(lastUpstreamCheck)
        invariant attempt == 1 ==> Kicks(old(db.tasks), worker.supportedJobTypes, throttle, old(lastUpstreamCheck), now)
                                   && lastUpstreamCheck == now && db.tasks == old(db.tasks) + downloaded
        decreases 2 - attempt
      {
        task := ClaimHighest(db, worker.supportedJobTypes);
        if task.None? {
          if attempt == 0 && throttle >= 0 && Sub(now, lastUpstreamCheck) > throttle {
            // On the first attempt: fetch new tasks from upstream, then re-query.
            lastUpstreamCheck := now;
            db.tasks := db.tasks + downloaded;
            attempt := attempt + 1;
            continue;
          }
          // Really no more tasks available.
          written := Some(204);
          return;
        }
        break;
      }
    }

    /** The retry loop of ScheduleTask: fetch a task, and fetch again while
        RefetchTask reports that Flamenco Server changed it, at most 1000 times.
        `refetch(k, t)` is RefetchTask's answer for the k-th claimed task `t`. */
    method FetchUnchangedTask(db: Db, worker: Worker, now: Time, downloaded: map<ObjectId, Task>,
                              refetch: (nat, Task) -> bool)
      returns (outcome: Fetched, ghost attempts: nat)
      requires KeyedById(db.tasks) && KeyedById(downloaded)
      modifies this, db
      ensures db.workers == old(db.workers) && db.queue == old(db.queue) && KeyedById(db.tasks)
      ensures lastUpstreamCheck == old(lastUpstreamCheck) || lastUpstreamCheck == now
      ensures outcome.NoTask? ==>
                && (outcome.written.None? <==> |worker.supportedJobTypes| == 0)
                && (outcome.written.Some? ==> outcome.written.value == 204
                                              && !AnyEligible(db.tasks, worker.supportedJobTypes))
                && (|worker.supportedJobTypes| == 0 ==> db.tasks == old(db.tasks)
                                                        && lastUpstreamCheck == old(lastUpstreamCheck))
      ensures outcome.AllChanged? ==> attempts == 1000
      ensures outcome.Unchanged? ==>
                && attempts < 1000 && !refetch(attempts, outcome.task)
                && outcome.task.id in db.tasks && db.tasks[outcome.task.id] == outcome.task
                && outcome.task.status == StatusActive
    {
      var attempt := 0;
      attempts := 0;
      while attempt < 1000
        invariant attempt <= 1000 && attempts == attempt
        invariant db.workers == old(db.workers) && db.queue == old(db.queue) && KeyedById(db.tasks)
        invariant lastUpstreamCheck == old(lastUpstreamCheck) || lastUpstreamCheck == now
        invariant |worker.supportedJobTypes| == 0 ==> attempt == 0
        invariant attempt == 0 ==> db.tasks == old(db.tasks) && lastUpstreamCheck == old(lastUpstreamCheck)
      {
        var task, written := FetchTaskFromQueueOrManager(db, worker, now, downloaded);
        if task.None? {
          // A response has been written to the worker, or none at all.
          return NoTask(written), attempts;
        }
        if !refetch(attempt, task.value) {
          return Unchanged(task.value), attempts;
        }
        // The task was changed; reexamine the queue.
        attempt := attempt + 1;
        attempts := attempt;
      }
      outcome := AllChanged;
    }

    /** The end of ScheduleTask: variable replacement on the in-memory task,
        and the worker_id of the stored task set to the worker. */
    method AssignTask(db: Db, t: Task, worker: Worker, expand: VarRepl.Expander) returns (replaced: Task)
      requires t.id in db.tasks
      modifies db
      ensures replaced == t.(commands := replaced.commands)
      ensures VarRepl.ReplacedCommands(expand, worker.platform, t.commands, replaced.commands)
      ensures db.tasks == old(db.tasks)[t.id := old(db.tasks)[t.id].(workerId := Some(worker.id))]
      ensures db.workers == old(db.workers) && db.queue == old(db.queue)
    {
      // Perform variable replacement on the task.
      replaced := VarRepl.ReplaceVariables(expand, t, worker.platform);
      // Update the worker_id field of the task.
      var _ := db.UpdateTask(t.id, AssignUpdate(worker.id));
    }

    /** ScheduleTask: answer a worker's request for a task. `expand` is
        Conf.ExpandVariables. The returned code is the response status (200
        also when nothing was written). */
    method ScheduleTask(db: Db, workerId: ObjectId, req: Workers.Request, now: Time,
                        downloaded: map<ObjectId, Task>, refetch: (nat, Task) -> bool, expand: VarRepl.Expander)
      returns (code: int, task: Option<Task>, ghost attempts: nat, ghost claimed: Task)
      requires KeyedById(db.tasks) && KeyedById(downloaded)
      modifies this, db
      ensures code in {200, 204, 403, 500}
      ensures code == 403 <==> workerId !in old(db.workers)
      ensures code == 403 ==> db.tasks == old(db.tasks) && db.workers == old(db.workers)
                              && lastUpstreamCheck == old(lastUpstreamCheck)
      ensures code != 403 ==>
                db.workers == Workers.AfterSeen(old(db.workers), SchedulingProjection(workerId, old(db.workers)[workerId]),
                                                req, now)
      ensures db.queue == old(db.queue)
      ensures lastUpstreamCheck == old(lastUpstreamCheck) || lastUpstreamCheck == now
      ensures code == 204 ==> task.None? && !AnyEligible(db.tasks, old(db.workers)[workerId].supportedJobTypes)
      ensures code == 500 ==> task.None? && attempts == 1000
      ensures task.Some? ==>
                && code == 200 && attempts < 1000 && !refetch(attempts, claimed)
                && claimed.id in db.tasks && db.tasks[claimed.id] == claimed.(workerId := Some(workerId))
                && claimed.status == StatusActive
                && task.value == claimed.(commands := task.value.commands)
                && VarRepl.ReplacedCommands(expand, old(db.workers)[workerId].platform, claimed.commands, task.value.commands)
      ensures code == 200 && task.None? ==> |old(db.workers)[workerId].supportedJobTypes| == 0
    {
      claimed := BlankTask;
      attempts := 0;
      if workerId !in db.workers {
        // Unable to find the worker.
        return 403, None, attempts, claimed;
      }
      var worker := SchedulingProjection(workerId, db.workers[workerId]);
      var _ := Workers.Seen(db, worker, req, now);

      var outcome;
      outcome, attempts := FetchUnchangedTask(db, worker, now, downloaded, refetch);
      match outcome
      case NoTask(written) =>
        code := if written.Some? then written.value else 200;
        task := None;
      case AllChanged =>
        // Every claimed task was changed upstream.
        code := 500;
        task := None;
      case Unchanged(t) =>
        claimed := t;
        var replaced := AssignTask(db, t, worker, expand);
        code := 200;
        task := Some(replaced);
    }
  }

  /** What the retry loop of ScheduleTask ends with. */
  datatype Fetched =
    | Unchanged(task: Task)           // a claimed task Flamenco Server did not change
    | NoTask(written: Option<int>)    // fetchTaskFromQueueOrManager returned nil
    | AllChanged                      // 1000 claimed tasks were all changed

  /** A task value with every field at its zero value. */
  const BlankTask := Task(0, 0, "", 0, "", "", None, "", [], "", "", 0, 0, map[], [], false)
}
