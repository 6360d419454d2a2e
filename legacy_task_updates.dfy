/** The task-update queue of the first Go manager
    (packages/flamenco-manager-go/src/flamenco-manager/flamenco/task_updates.go):
    updates received from workers are queued for Flamenco Server and applied to
    the local task cache, the queue is pushed in batches, and the server's
    answer says which updates it handled and which tasks it wants canceled. */
module LegacyTaskUpdates {
  import opened Common
  import opened Database

  /** The statuses a cancel-requested task may still move to. */
  const CancelRequestedTargets: map<string, bool> :=
    map[StatusCanceled := true, StatusFailed := true, StatusCompleted := true]

  /** ValidForCancelRequested: the worker may still report that a task it was
      asked to cancel got canceled, failed or completed. */
  function ValidForCancelRequested(newStatus: string): (valid: bool)
    ensures valid <==> newStatus == StatusCanceled || newStatus == StatusFailed || newStatus == StatusCompleted
  {
    newStatus in CancelRequestedTargets && CancelRequestedTargets[newStatus]
  }

  /** TaskStatusTransitionValid: terminal statuses are accepted without a lookup;
      any other status needs the task to exist and not be cancel-requested. */
  function TaskStatusTransitionValid(tasks: map<ObjectId, Task>, taskId: ObjectId, newStatus: string): (valid: bool)
    ensures !valid ==> !ValidForCancelRequested(newStatus)
    ensures taskId !in tasks ==> (valid <==> ValidForCancelRequested(newStatus))
    ensures taskId in tasks && tasks[taskId].status == StatusCancelRequested ==>
              (valid <==> newStatus in {StatusCanceled, StatusFailed, StatusCompleted})
    ensures taskId in tasks && tasks[taskId].status != StatusCancelRequested ==> valid
  {
    if ValidForCancelRequested(newStatus) then true
    else if taskId !in tasks then false
    else tasks[taskId].status != StatusCancelRequested
  }

  /** What QueueTaskUpdate does to the cached task, stated field by field. */
  function LocallyApplied(t: Task, u: TaskUpdate): Task
  {
    t.(status := if u.taskStatus != "" && (ValidForCancelRequested(u.taskStatus) || t.status != StatusCancelRequested)
                 then u.taskStatus else t.status,
       activity := if u.activity != "" then u.activity else t.activity)
  }

  /** A task that is cancel-requested keeps that status unless the worker
      reports a terminal status. */
  lemma CancelRequestedIsSticky(t: Task, u: TaskUpdate)
    requires t.status == StatusCancelRequested
    ensures LocallyApplied(t, u).status in {StatusCancelRequested, StatusCanceled, StatusFailed, StatusCompleted}
    ensures u.taskStatus == StatusActive ==> LocallyApplied(t, u).status == StatusCancelRequested
  {
  }

  /** QueueTaskUpdate: stamp the update, queue it for Flamenco Server, and apply
      its status (when the transition is valid) and activity to the cached task. */
  method QueueTaskUpdate(db: Db, tupdate: TaskUpdate, now: Time, newId: ObjectId) returns (queued: TaskUpdate)
    modifies db
    ensures queued == tupdate.(receivedOnManager := now, id := newId)
    ensures db.queue == old(db.queue) + [queued]
    ensures db.tasks == if tupdate.taskId in old(db.tasks)
                        then old(db.tasks)[tupdate.taskId := LocallyApplied(old(db.tasks)[tupdate.taskId], tupdate)]
                        else old(db.tasks)
    ensures db.workers == old(db.workers)
  {
    queued := tupdate.(receivedOnManager := now, id := newId);
    db.queue := db.queue + [queued];

    var updates := NoTaskSet;
    if queued.taskStatus != "" {
      if TaskStatusTransitionValid(db.tasks, queued.taskId, queued.taskStatus) {
        updates := updates.(status := Some(queued.taskStatus));
      }
    }
    if queued.activity != "" {
      updates := updates.(activity := Some(queued.activity));
    }
    if updates != NoTaskSet {
      var found := db.UpdateTask(queued.taskId, TaskUpdateDoc(updates, None));
    } else if queued.taskId in db.tasks {
      assert LocallyApplied(db.tasks[queued.taskId], tupdate) == db.tasks[queued.taskId];
    }
  }

  // -----------------------------------------------------------------------
  // Pushing the queue

  /** The timer-driven push decision of TaskUpdatePusher.Go. */
  function MayPush(updateCount: int, sinceLastPush: Duration,
                   maxCount: int, maxInterval: Duration, cancelFetchInterval: Duration): (push: bool)
    ensures updateCount <= 0 ==> (push <==> sinceLastPush >= cancelFetchInterval)
    ensures updateCount > 0 && updateCount >= maxCount ==> push
    ensures updateCount > 0 && sinceLastPush >= maxInterval ==> push
    ensures sinceLastPush >= cancelFetchInterval ==> push
    ensures push && sinceLastPush < cancelFetchInterval ==>
              updateCount > 0 && (updateCount >= maxCount || sinceLastPush >= maxInterval)
  {
    var mayRegularPush := updateCount > 0 && (updateCount >= maxCount || sinceLastPush >= maxInterval);
    var mayEmptyPush := sinceLastPush >= cancelFetchInterval;
    mayRegularPush || mayEmptyPush
  }

  /** The batch `queue.Find({}).Limit(n)` returns: the first n queued updates;
      mgo reads Limit(0) as "no limit" and a negative n as |n|. */
  function Batch(q: seq<TaskUpdate>, limit: int): (b: seq<TaskUpdate>)
    ensures |b| <= |q| && b == q[..|b|]
    ensures limit == 0 ==> b == q
    ensures limit != 0 ==> |b| == if |q| < Abs(limit) then |q| else Abs(limit)
  {
    var n := Abs(limit);
    if limit == 0 || |q| <= n then q else q[..n]
  }

  function Abs(n: int): nat { if n < 0 then -n else n }

  /** The queue after `RemoveAll({"_id": {"$in": handled}})`: exactly the
      updates the server did not acknowledge, in their original order. */
  function Unqueue(q: seq<TaskUpdate>, handled: set<ObjectId>): (r: seq<TaskUpdate>)
    ensures |r| <= |q|
    ensures forall u :: u in r <==> u in q && u.id !in handled
    ensures forall u :: multiset(r)[u] == if u.id in handled then 0 else multiset(q)[u]
    ensures SubsequenceOf(r, q)
    decreases |q|
  {
    if |q| == 0 then []
    else
      assert q == [q[0]] + q[1..];
      if q[0].id in handled then Unqueue(q[1..], handled)
      else [q[0]] + Unqueue(q[1..], handled)
  }

  datatype PushResponse = PushResponse(handledUpdateIds: seq<ObjectId>, cancelTasksIds: seq<ObjectId>)

  datatype PushResult = Pushed | SendFailed | UnqueueFailed

  /** push: send a batch, unqueue what the server handled, then cancel what it
      asked for, even when unqueueing failed. `upstream` is SendTaskUpdates,
      `unqueueFails` says whether RemoveAll errs. */
  method Push(db: Db, maxCount: int, upstream: seq<TaskUpdate> -> Option<PushResponse>,
              unqueueFails: bool, now: Time, idBase: ObjectId) returns (result: PushResult)
    modifies db
    ensures upstream(Batch(old(db.queue), maxCount)).None? ==>
              result == SendFailed && db.queue == old(db.queue) && db.tasks == old(db.tasks)
    ensures upstream(Batch(old(db.queue), maxCount)).Some? ==>
              var resp := upstream(Batch(old(db.queue), maxCount)).value;
              var kept := if |resp.handledUpdateIds| > 0 && !unqueueFails
                          then Unqueue(old(db.queue), set id | id in resp.handledUpdateIds)
                          else old(db.queue);
              && |db.queue| == |kept| + |KnownInactive(old(db.tasks), resp.cancelTasksIds)|
                                + |Unknown(old(db.tasks), resp.cancelTasksIds)|
              && db.queue[..|kept|] == kept
              && (forall i :: |kept| <= i < |db.queue| ==> db.queue[i].taskStatus == StatusCanceled)
              && multiset(TaskIds(db.queue[|kept|..]))
                 == multiset(KnownInactive(old(db.tasks), resp.cancelTasksIds))
                    + multiset(Unknown(old(db.tasks), resp.cancelTasksIds))
              && db.tasks.Keys == old(db.tasks).Keys
              && (forall id :: id in old(db.tasks) ==>
                    db.tasks[id] == CancelEffect(old(db.tasks)[id], id in resp.cancelTasksIds))
              && result == (if |resp.handledUpdateIds| > 0 && unqueueFails then UnqueueFailed else Pushed)
    ensures db.workers == old(db.workers)
  {
    var batch := Batch(db.queue, maxCount);
    var response := upstream(batch);
    if response.None? {
      return SendFailed;
    }
    var resp := response.value;
    var errUnqueue := false;
    if |resp.handledUpdateIds| > 0 {
      if unqueueFails {
        errUnqueue := true;
      } else {
        db.queue := Unqueue(db.queue, set id | id in resp.handledUpdateIds);
      }
    }
    var _, _, _, _ := HandleIncomingCancelRequests(db, resp.cancelTasksIds, now, idBase);
    result := if errUnqueue then UnqueueFailed else Pushed;
  }

  // -----------------------------------------------------------------------
  // Cancel requests from Flamenco Server

  /** Requested tasks the manager has cached with status "active". */
  ghost function KnownActive(tasks: map<ObjectId, Task>, ids: seq<ObjectId>): set<ObjectId>
  {
    set id | id in ids && id in tasks && tasks[id].status == StatusActive
  }

  /** Requested tasks the manager has cached with any other status. */
  ghost function KnownInactive(tasks: map<ObjectId, Task>, ids: seq<ObjectId>): set<ObjectId>
  {
    set id | id in ids && id in tasks && tasks[id].status != StatusActive
  }

  /** Requested IDs the manager has no task for, one entry per occurrence. */
  function Unknown(tasks: map<ObjectId, Task>, ids: seq<ObjectId>): (r: seq<ObjectId>)
    ensures |r| <= |ids|
    ensures forall id :: id in r ==> id in ids && id !in tasks
    decreases |ids|
  {
    if |ids| == 0 then []
    else Unknown(tasks, ids[..|ids| - 1]) + (if ids[|ids| - 1] in tasks then [] else [ids[|ids| - 1]])
  }

  /** Unknown keeps every occurrence of an uncached ID, in request order. */
  lemma {:induction false} UnknownExactly(tasks: map<ObjectId, Task>, ids: seq<ObjectId>)
    ensures forall id :: id !in tasks ==> multiset(Unknown(tasks, ids))[id] == multiset(ids)[id]
    ensures SubsequenceOf(Unknown(tasks, ids), ids)
    decreases |ids|
  {
    if |ids| > 0 {
      var prefix := ids[..|ids| - 1];
      var last := ids[|ids| - 1];
      assert ids == prefix + [last];
      UnknownExactly(tasks, prefix);
      SubsequenceAppend(Unknown(tasks, prefix), prefix, last);
      if last in tasks {
        assert Unknown(tasks, ids) == Unknown(tasks, prefix);
      } else {
        assert Unknown(tasks, ids) == Unknown(tasks, prefix) + [last];
      }
    }
  }

  /** The cached task after cancel handling. */
  function CancelEffect(t: Task, requested: bool): Task
  {
    if !requested then t
    else if t.status == StatusActive then t.(status := StatusCancelRequested)
    else t.(status := StatusCanceled)
  }

  function TaskIds(q: seq<TaskUpdate>): (r: seq<ObjectId>)
    ensures |r| == |q| && forall i :: 0 <= i < |q| ==> r[i] == q[i].taskId
  {
    seq(|q|, i requires 0 <= i < |q| => q[i].taskId)
  }

  lemma TaskIdsAppend(q: seq<TaskUpdate>, u: TaskUpdate)
    ensures TaskIds(q + [u]) == TaskIds(q) + [u.taskId]
  {
  }

  /** The queued "canceled" update's effect on a cached task. */
  lemma CanceledUpdateApplied(t: Task, u: TaskUpdate)
    requires u.taskStatus == StatusCanceled && u.activity == ""
    ensures LocallyApplied(t, u) == t.(status := StatusCanceled)
  {
  }

  /** The task cache with the tasks in `ids` set to status `status`. */
  ghost function WithStatus(tasks: map<ObjectId, Task>, ids: set<ObjectId>, status: string): (r: map<ObjectId, Task>)
    ensures r.Keys == tasks.Keys
  {
    map id | id in tasks :: if id in ids then tasks[id].(status := status) else tasks[id]
  }

  lemma WithStatusOneMore(tasks: map<ObjectId, Task>, ids: set<ObjectId>, x: ObjectId, status: string)
    requires x in tasks
    ensures WithStatus(tasks, ids, status)[x := WithStatus(tasks, ids, status)[x].(status := status)]
            == WithStatus(tasks, ids + {x}, status)
  {
  }

  /** queue_task_cancel: queue a "canceled" update for one task. */
  method QueueTaskCancel(db: Db, taskId: ObjectId, now: Time, newId: ObjectId) returns (queued: TaskUpdate)
    modifies db
    ensures queued.taskId == taskId && queued.taskStatus == StatusCanceled
    ensures db.queue == old(db.queue) + [queued]
    ensures db.tasks == if taskId in old(db.tasks)
                        then old(db.tasks)[taskId := old(db.tasks)[taskId].(status := StatusCanceled)]
                        else old(db.tasks)
    ensures db.workers == old(db.workers)
  {
    var tupdate := BlankUpdate(taskId).(taskStatus := StatusCanceled);
    queued := QueueTaskUpdate(db, tupdate, now, newId);
    if taskId in old(db.tasks) {
      CanceledUpdateApplied(old(db.tasks)[taskId], tupdate);
    }
  }

  lemma CanceledOneMore(added: seq<TaskUpdate>, inactive: set<ObjectId>, u: TaskUpdate)
    requires multiset(TaskIds(added)) == multiset(inactive) && |added| == |inactive|
    requires u.taskId !in inactive
    ensures multiset(TaskIds(added + [u])) == multiset(inactive + {u.taskId})
    ensures |added + [u]| == |inactive + {u.taskId}|
  {
    TaskIdsAppend(added, u);
  }

  /** One inactive fetched task of the loop in handle_incoming_cancel_requests. */
  method CancelOneFetched(db: Db, id: ObjectId, ghost tasks0: map<ObjectId, Task>, ghost queue0: seq<TaskUpdate>,
                          ghost done: set<ObjectId>, ghost added: seq<TaskUpdate>, now: Time, nextId: ObjectId)
    returns (ghost added': seq<TaskUpdate>)
    modifies db
    requires id in tasks0 && id !in done
    requires db.tasks == WithStatus(tasks0, done, StatusCanceled)
    requires db.queue == queue0 + added
    requires multiset(TaskIds(added)) == multiset(done) && |added| == |done|
    requires forall u :: u in added ==> u.taskStatus == StatusCanceled
    ensures db.tasks == WithStatus(tasks0, done + {id}, StatusCanceled)
    ensures db.queue == queue0 + added'
    ensures multiset(TaskIds(added')) == multiset(done + {id}) && |added'| == |done + {id}|
    ensures forall u :: u in added' ==> u.taskStatus == StatusCanceled
    ensures db.workers == old(db.workers)
  {
    var u := QueueTaskCancel(db, id, now, nextId);
    CanceledOneMore(added, done, u);
    WithStatusOneMore(tasks0, done, id, StatusCanceled);
    added' := added + [u];
  }

  /** The loop over the fetched tasks: active ones are collected for
      cancel-requested, all others get a "canceled" update. */
  method CancelFetched(db: Db, cancelIds: seq<ObjectId>, fetched: map<ObjectId, Task>, now: Time, idBase: ObjectId)
    returns (goToCancelRequested: seq<ObjectId>, canceledCount: nat, nextId: ObjectId, ghost added: seq<TaskUpdate>)
    modifies db
    requires fetched == map id | id in db.tasks && id in cancelIds :: db.tasks[id]
    ensures db.tasks == WithStatus(old(db.tasks), KnownInactive(old(db.tasks), cancelIds), StatusCanceled)
    ensures db.workers == old(db.workers)
    ensures (set id | id in goToCancelRequested) == KnownActive(old(db.tasks), cancelIds)
    ensures db.queue == old(db.queue) + added && canceledCount == |added|
    ensures canceledCount == |KnownInactive(old(db.tasks), cancelIds)|
    ensures forall u :: u in added ==> u.taskStatus == StatusCanceled
    ensures multiset(TaskIds(added)) == multiset(KnownInactive(old(db.tasks), cancelIds))
  {
    ghost var tasks0 := db.tasks;
    ghost var queue0 := db.queue;
    goToCancelRequested, canceledCount, nextId, added := [], 0, idBase, [];
    var pending := fetched.Keys;
    ghost var inactiveSeen: set<ObjectId> := {};

    while pending != {}
      invariant pending <= fetched.Keys
      invariant db.tasks == WithStatus(tasks0, inactiveSeen, StatusCanceled) && db.workers == old(db.workers)
      invariant forall id :: id in inactiveSeen <==> id in fetched && id !in pending && tasks0[id].status != StatusActive
      invariant forall id :: id in goToCancelRequested <==> id in fetched && id !in pending && tasks0[id].status == StatusActive
      invariant db.queue == queue0 + added
      invariant canceledCount == |added| == |inactiveSeen|
      invariant forall u :: u in added ==> u.taskStatus == StatusCanceled
      invariant multiset(TaskIds(added)) == multiset(inactiveSeen)
      decreases pending
    {
      var id :| id in pending;
      pending := pending - {id};
      if fetched[id].status == StatusActive {
        // This needs to be canceled through the worker, and thus go to cancel-requested.
        goToCancelRequested := goToCancelRequested + [id];
      } else {
        added := CancelOneFetched(db, id, tasks0, queue0, inactiveSeen, added, now, nextId);
        nextId := nextId + 1;
        canceledCount := canceledCount + 1;
        inactiveSeen := inactiveSeen + {id};
      }
    }
    assert inactiveSeen == KnownInactive(tasks0, cancelIds);
  }

  /** The loop over the requested IDs that were not fetched: each gets a
      "canceled" update, so Flamenco Server stops waiting for it. */
  method CancelUnknown(db: Db, cancelIds: seq<ObjectId>, seen: set<ObjectId>, now: Time, idBase: ObjectId)
    returns (canceledCount: nat, ghost added: seq<TaskUpdate>)
    modifies db
    requires forall id :: id in cancelIds ==> (id in seen <==> id in db.tasks)
    ensures db.tasks == old(db.tasks) && db.workers == old(db.workers)
    ensures db.queue == old(db.queue) + added && canceledCount == |added|
    ensures forall u :: u in added ==> u.taskStatus == StatusCanceled
    ensures TaskIds(added) == Unknown(old(db.tasks), cancelIds)
  {
    ghost var queue0 := db.queue;
    added := [];
    canceledCount := 0;
    var nextId := idBase;
    var i := 0;
    while i < |cancelIds|
      invariant 0 <= i <= |cancelIds|
      invariant db.tasks == old(db.tasks) && db.workers == old(db.workers)
      invariant db.queue == queue0 + added && canceledCount == |added|
      invariant forall u :: u in added ==> u.taskStatus == StatusCanceled
      invariant TaskIds(added) == Unknown(db.tasks, cancelIds[..i])
    {
      assert cancelIds[..i + 1][..i] == cancelIds[..i];
      assert cancelIds[i] in cancelIds;
      if cancelIds[i] !in seen {
        var u := QueueTaskCancel(db, cancelIds[i], now, nextId);
        TaskIdsAppend(added, u);
        added := added + [u];
        nextId := nextId + 1;
        canceledCount := canceledCount + 1;
      }
      i := i + 1;
    }
    assert cancelIds[..|cancelIds|] == cancelIds;
  }

  /** handle_incoming_cancel_requests: active cached tasks go to cancel-requested
      (the worker has to stop them); every other cached task and every unknown ID
      gets a "canceled" update queued. */
  method HandleIncomingCancelRequests(db: Db, cancelIds: seq<ObjectId>, now: Time, idBase: ObjectId)
    returns (goToCancelRequested: seq<ObjectId>, canceledCount: nat, matched: nat, shortfall: bool)
    modifies db
    ensures |cancelIds| == 0 ==> db.tasks == old(db.tasks) && db.queue == old(db.queue) && canceledCount == 0
    ensures db.tasks.Keys == old(db.tasks).Keys
    ensures forall id :: id in old(db.tasks) ==> db.tasks[id] == CancelEffect(old(db.tasks)[id], id in cancelIds)
    ensures (set id | id in goToCancelRequested) == KnownActive(old(db.tasks), cancelIds)
    ensures matched == |KnownActive(old(db.tasks), cancelIds)|
    ensures canceledCount == |KnownInactive(old(db.tasks), cancelIds)| + |Unknown(old(db.tasks), cancelIds)|
    ensures |db.queue| == |old(db.queue)| + canceledCount && db.queue[..|old(db.queue)|] == old(db.queue)
    ensures forall i :: |old(db.queue)| <= i < |db.queue| ==> db.queue[i].taskStatus == StatusCanceled
    ensures multiset(TaskIds(db.queue[|old(db.queue)|..]))
            == multiset(KnownInactive(old(db.tasks), cancelIds)) + multiset(Unknown(old(db.tasks), cancelIds))
    ensures shortfall <==> matched + canceledCount < |cancelIds|
    ensures db.workers == old(db.workers)
  {
    goToCancelRequested, canceledCount, matched, shortfall := [], 0, 0, false;
    if |cancelIds| == 0 {
      return;
    }
    ghost var queue0 := db.queue;
    ghost var tasks0 := db.tasks;
    var fetchedCount, nextId, seen;
    ghost var added1, added2;
    goToCancelRequested, fetchedCount, matched, nextId, seen, added1 := CancelKnown(db, cancelIds, now, idBase);

    // Just push a "canceled" update to the Server about tasks we know nothing about.
    var unknownCount;
    unknownCount, added2 := CancelUnknown(db, cancelIds, seen, now, nextId);
    canceledCount := fetchedCount + unknownCount;
    UnknownSameKeys(tasks0, db.tasks, cancelIds);
    CancelQueueOutcome(queue0, added1, added2, db.queue, KnownInactive(tasks0, cancelIds), Unknown(tasks0, cancelIds));
    shortfall := matched + canceledCount < |cancelIds|;
  }

  /** The first part of handle_incoming_cancel_requests: fetch the requested
      tasks the manager knows, cancel the inactive ones and mark the active ones
      cancel-requested. `seen` holds the IDs of the fetched tasks. */
  method CancelKnown(db: Db, cancelIds: seq<ObjectId>, now: Time, idBase: ObjectId)
    returns (goToCancelRequested: seq<ObjectId>, canceledCount: nat, matched: nat, nextId: ObjectId,
             seen: set<ObjectId>, ghost added: seq<TaskUpdate>)
    modifies db
    ensures db.tasks.Keys == old(db.tasks).Keys
    ensures forall id :: id in old(db.tasks) ==> db.tasks[id] == CancelEffect(old(db.tasks)[id], id in cancelIds)
    ensures forall id :: id in cancelIds ==> (id in seen <==> id in db.tasks)
    ensures (set id | id in goToCancelRequested) == KnownActive(old(db.tasks), cancelIds)
    ensures matched == |KnownActive(old(db.tasks), cancelIds)|
    ensures db.queue == old(db.queue) + added && canceledCount == |added|
    ensures canceledCount == |KnownInactive(old(db.tasks), cancelIds)|
    ensures forall u :: u in added ==> u.taskStatus == StatusCanceled
    ensures multiset(TaskIds(added)) == multiset(KnownInactive(old(db.tasks), cancelIds))
    ensures db.workers == old(db.workers)
  {
    ghost var tasks0 := db.tasks;

    // Fetch all to-be-canceled tasks.
    var fetched := map id | id in db.tasks && id in cancelIds :: db.tasks[id];
    seen := fetched.Keys;
    goToCancelRequested, canceledCount, nextId, added := CancelFetched(db, cancelIds, fetched, now, idBase);
    ghost var tasks1 := db.tasks;

    // Mark tasks as cancel-requested.
    var crSet := set id | id in goToCancelRequested;
    matched := db.SetStatusAll(crSet, StatusCancelRequested);
    CancelTasksOutcome(tasks0, tasks1, db.tasks, cancelIds, crSet);
  }

  /** Which IDs are unknown depends only on which tasks are cached. */
  lemma UnknownSameKeys(tasks: map<ObjectId, Task>, tasks': map<ObjectId, Task>, ids: seq<ObjectId>)
    requires tasks.Keys == tasks'.Keys
    ensures Unknown(tasks, ids) == Unknown(tasks', ids)
    decreases |ids|
  {
    if |ids| > 0 {
      UnknownSameKeys(tasks, tasks', ids[..|ids| - 1]);
    }
  }

  /** The task cache after both status changes of handle_incoming_cancel_requests. */
  lemma CancelTasksOutcome(tasks0: map<ObjectId, Task>, tasks1: map<ObjectId, Task>, tasks2: map<ObjectId, Task>,
                           cancelIds: seq<ObjectId>, crSet: set<ObjectId>)
    requires tasks1 == WithStatus(tasks0, KnownInactive(tasks0, cancelIds), StatusCanceled)
    requires crSet == KnownActive(tasks0, cancelIds)
    requires tasks2.Keys == tasks1.Keys
    requires forall id :: id in tasks2 ==>
               tasks2[id] == if id in crSet then tasks1[id].(status := StatusCancelRequested) else tasks1[id]
    ensures crSet * tasks1.Keys == crSet
    ensures tasks2.Keys == tasks0.Keys
    ensures forall id :: id in tasks0 ==> tasks2[id] == CancelEffect(tasks0[id], id in cancelIds)
  {
  }

  lemma TaskIdsConcat(a: seq<TaskUpdate>, b: seq<TaskUpdate>)
    ensures TaskIds(a + b) == TaskIds(a) + TaskIds(b)
  {
    assert |TaskIds(a + b)| == |TaskIds(a) + TaskIds(b)|;
    forall i | 0 <= i < |a + b|
      ensures TaskIds(a + b)[i] == (TaskIds(a) + TaskIds(b))[i]
    {
      if i < |a| {
        assert (a + b)[i] == a[i];
      } else {
        assert (a + b)[i] == b[i - |a|];
      }
    }
  }

  /** The queue after handle_incoming_cancel_requests: the old queue followed by
      one "canceled" update per inactive cached task and per unknown ID. */
  lemma CancelQueueOutcome(queue0: seq<TaskUpdate>, added1: seq<TaskUpdate>, added2: seq<TaskUpdate>,
                           queue2: seq<TaskUpdate>, inactive: set<ObjectId>, unknown: seq<ObjectId>)
    requires queue2 == queue0 + added1 + added2
    requires multiset(TaskIds(added1)) == multiset(inactive)
    requires TaskIds(added2) == unknown
    requires forall u :: u in added1 ==> u.taskStatus == StatusCanceled
    requires forall u :: u in added2 ==> u.taskStatus == StatusCanceled
    ensures |queue2| == |queue0| + |added1| + |added2| && queue2[..|queue0|] == queue0
    ensures forall i :: |queue0| <= i < |queue2| ==> queue2[i].taskStatus == StatusCanceled
    ensures multiset(TaskIds(queue2[|queue0|..])) == multiset(inactive) + multiset(unknown)
  {
    assert queue2[|queue0|..] == added1 + added2;
    TaskIdsConcat(added1, added2);
    forall i | |queue0| <= i < |queue2|
      ensures queue2[i].taskStatus == StatusCanceled
    {
      assert queue2[i] in added1 + added2;
    }
  }

  /** How the three classifications grow when one more ID is requested. */
  lemma ClassifyOneMore(tasks: map<ObjectId, Task>, prefix: seq<ObjectId>, x: ObjectId)
    ensures KnownActive(tasks, prefix + [x])
            == KnownActive(tasks, prefix) + (if x in tasks && tasks[x].status == StatusActive then {x} else {})
    ensures KnownInactive(tasks, prefix + [x])
            == KnownInactive(tasks, prefix) + (if x in tasks && tasks[x].status != StatusActive then {x} else {})
    ensures Unknown(tasks, prefix + [x]) == Unknown(tasks, prefix) + (if x in tasks then [] else [x])
  {
    assert (prefix + [x])[..|prefix|] == prefix;
  }

  /** When the server names every task once, nothing is reported as left uncanceled. */
  lemma {:induction false} NoShortfallForDistinctIds(tasks: map<ObjectId, Task>, ids: seq<ObjectId>)
    requires forall i, j :: 0 <= i < j < |ids| ==> ids[i] != ids[j]
    ensures |KnownActive(tasks, ids)| + |KnownInactive(tasks, ids)| + |Unknown(tasks, ids)| == |ids|
    decreases |ids|
  {
    if |ids| > 0 {
      var prefix := ids[..|ids| - 1];
      var x := ids[|ids| - 1];
      assert ids == prefix + [x];
      NoShortfallForDistinctIds(tasks, prefix);
      ClassifyOneMore(tasks, prefix, x);
      var active, inactive := KnownActive(tasks, prefix), KnownInactive(tasks, prefix);
      assert x !in active && x !in inactive by {
        assert x !in prefix;
      }
      if x !in tasks {
        assert |Unknown(tasks, ids)| == |Unknown(tasks, prefix)| + 1;
      } else if tasks[x].status == StatusActive {
        assert |active + {x}| == |active| + 1;
      } else {
        assert |inactive + {x}| == |inactive| + 1;
      }
    }
  }
}
