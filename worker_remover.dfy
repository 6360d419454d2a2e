/** Automatic removal of workers that have been offline for too long
    (flamenco/worker_remover.go). The timer goroutine is left out; one round of
    `cleanupWorkers` is modelled. `worker.returnAllTasks` is a parameter:
    its body is not part of this model. */
module WorkerRemover {
  import opened Common
  import opened Database

  /** The reason given when the tasks of a removed worker are handed back. */
  const CleanupRequeueReason := "worker is being auto-removed"

  /** CreateWorkerRemover builds a remover unless the configuration disables
      auto-removal: a zero maximum age or an empty list of statuses. */
  predicate RemoverEnabled(maxAge: Duration, statuses: seq<string>)
  {
    maxAge != 0 && |statuses| != 0
  }

  /** The query of cleanupWorkers: a status in the configured list and a
      last activity strictly before the threshold. */
  predicate ToRemove(w: Worker, statuses: seq<string>, threshold: Time)
  {
    w.status in statuses && w.lastActivity < threshold
  }

  function Selected(workers: map<ObjectId, Worker>, statuses: seq<string>, threshold: Time): set<ObjectId>
  {
    set id | id in workers && ToRemove(workers[id], statuses, threshold)
  }

  /** `worker.returnAllTasks(…)`: the task cache after handing back the
      worker's tasks. */
  type TaskReturner = (map<ObjectId, Task>, ObjectId, string) -> map<ObjectId, Task>

  /** The task cache after returning the tasks of the workers in `order`, one
      worker after the other. */
  ghost function ReturnedAll(tasks: map<ObjectId, Task>, order: seq<ObjectId>, returnAllTasks: TaskReturner): map<ObjectId, Task>
    decreases |order|
  {
    if |order| == 0 then tasks
    else returnAllTasks(ReturnedAll(tasks, order[..|order| - 1], returnAllTasks), order[|order| - 1], CleanupRequeueReason)
  }

  /** The worker registry without the given workers. */
  ghost function Without(workers: map<ObjectId, Worker>, removed: set<ObjectId>): (r: map<ObjectId, Worker>)
    ensures r.Keys == workers.Keys - removed
  {
    map id | id in workers && id !in removed :: workers[id]
  }

  class WorkerRemover {
    /** Conf.WorkerCleanupMaxAge and Conf.WorkerCleanupStatus. */
    const maxAge: Duration
    const statuses: seq<string>

    constructor (maxAge: Duration, statuses: seq<string>)
      ensures this.maxAge == maxAge && this.statuses == statuses
    {
      this.maxAge := maxAge;
      this.statuses := statuses;
    }

    /** cleanupWorkers: every worker matching the query gets its tasks handed
        back and is then removed; a removal that fails (the workers in
        `removeFails`) is logged and the loop goes on. The workers are visited
        in the order the query yields them, returned as `order`. */
    method CleanupWorkers(db: Db, now: Time, returnAllTasks: TaskReturner, removeFails: set<ObjectId>)
      returns (ghost order: seq<ObjectId>)
      modifies db
      ensures var selected := Selected(old(db.workers), statuses, now - maxAge);
              && |order| == |selected| && (forall i :: 0 <= i < |order| ==> order[i] in selected)
              && (forall i, j :: 0 <= i < j < |order| ==> order[i] != order[j])
              && db.tasks == ReturnedAll(old(db.tasks), order, returnAllTasks)
              && db.workers == Without(old(db.workers), selected - removeFails)
      ensures db.queue == old(db.queue)
    {
      // Any worker last seen before the threshold will be removed.
      var threshold := now - maxAge;
      var pending := Selected(db.workers, statuses, threshold);
      ghost var selected := pending;
      ghost var done: set<ObjectId> := {};
      ghost var tasks0 := db.tasks;
      ghost var workers0 := db.workers;
      order := [];
      while pending != {}
        invariant pending <= selected && done == selected - pending
        invariant |order| == |done|
        invariant forall i :: 0 <= i < |order| ==> order[i] in done
        invariant forall i, j :: 0 <= i < j < |order| ==> order[i] != order[j]
        invariant db.tasks == ReturnedAll(tasks0, order, returnAllTasks)
        invariant db.workers == Without(workers0, done - removeFails)
        invariant db.queue == old(db.queue)
        decreases |pending|
      {
        var id :| id in pending;
        ReturnAndRemove(db, id, returnAllTasks, removeFails, tasks0, workers0, order, done);
        VisitStep(selected, pending, done, order, id);
        order := order + [id];
        done := done + {id};
        pending := pending - {id};
      }
    }
  }

  /** One turn of cleanupWorkers: hand back the worker's tasks, then remove
      it unless the removal fails. */
  method ReturnAndRemove(db: Db, id: ObjectId, returnAllTasks: TaskReturner, removeFails: set<ObjectId>,
                         ghost tasks0: map<ObjectId, Task>, ghost workers0: map<ObjectId, Worker>,
                         ghost order: seq<ObjectId>, ghost done: set<ObjectId>)
    requires db.tasks == ReturnedAll(tasks0, order, returnAllTasks)
    requires db.workers == Without(workers0, done - removeFails)
    modifies db
    ensures db.tasks == ReturnedAll(tasks0, order + [id], returnAllTasks)
    ensures db.workers == Without(workers0, (done + {id}) - removeFails)
    ensures db.queue == old(db.queue)
  {
    db.tasks := returnAllTasks(db.tasks, id, CleanupRequeueReason);
    if id !in removeFails {
      db.workers := map w | w in db.workers && w != id :: db.workers[w];
    }
    RemovedOneMore(workers0, done, removeFails, id);
    assert (order + [id])[..|order|] == order;
  }

  /** Visiting one more pending worker keeps `order` a duplicate-free
      enumeration of the visited workers. */
  lemma VisitStep(selected: set<ObjectId>, pending: set<ObjectId>, done: set<ObjectId>, order: seq<ObjectId>, id: ObjectId)
    requires pending <= selected && done == selected - pending && id in pending
    requires |order| == |done|
    requires forall i :: 0 <= i < |order| ==> order[i] in done
    requires forall i, j :: 0 <= i < j < |order| ==> order[i] != order[j]
    ensures pending - {id} <= selected && done + {id} == selected - (pending - {id})
    ensures |order + [id]| == |done + {id}|
    ensures forall i :: 0 <= i < |order + [id]| ==> (order + [id])[i] in done + {id}
    ensures forall i, j :: 0 <= i < j < |order + [id]| ==> (order + [id])[i] != (order + [id])[j]
  {
    assert id !in done;
  }

  /** One more removal attempt: the registry loses `id` unless its removal fails. */
  lemma RemovedOneMore(workers0: map<ObjectId, Worker>, done: set<ObjectId>, removeFails: set<ObjectId>, id: ObjectId)
    ensures var cur := Without(workers0, done - removeFails);
            Without(workers0, (done + {id}) - removeFails)
            == if id in removeFails then cur else map w | w in cur && w != id :: cur[w]
  {
  }

  /** CreateWorkerRemover: a remover exactly when the configuration enables
      auto-removal. */
  method CreateWorkerRemover(maxAge: Duration, statuses: seq<string>) returns (wr: WorkerRemover?)
    ensures wr == null <==> !RemoverEnabled(maxAge, statuses)
    ensures wr != null ==> fresh(wr) && wr.maxAge == maxAge && wr.statuses == statuses
  {
    if maxAge == 0 || |statuses| == 0 {
      // Workers will not be auto-removed.
      return null;
    }
    wr := new WorkerRemover(maxAge, statuses);
  }
}
