/** The task table as the code updates it, method by method. */
module TaskStore {
  import opened Wrappers
  import opened Tasks
  import opened TaskHistory

  /** The rows the sweep selects, by whether their attempts are used up. */
  function ExpiredRows(tasks: map<nat, Task>, now: nat, usedUp: bool): set<nat> {
    set id | id in tasks && Expired(tasks[id], now) && (tasks[id].attempt >= tasks[id].maxAttempts) == usedUp
  }

  /** `n` of the rows in `all` are no longer to do. */
  ghost predicate Counted(all: set<nat>, todo: set<nat>, n: nat) {
    n == |all - todo|
  }

  lemma CountBegins(all: set<nat>, todo: set<nat>)
    requires all <= todo
    ensures Counted(all, todo, 0)
  {
    assert all - todo == {};
  }

  lemma TakeOut(all: set<nat>, todo: set<nat>, id: nat, n: nat)
    requires id in todo && Counted(all, todo, n)
    ensures Counted(all, todo - {id}, n + if id in all then 1 else 0)
  {
    assert all - (todo - {id}) == (all - todo) + if id in all then {id} else {};
  }

  lemma CountEnds(all: set<nat>, n: nat)
    requires Counted(all, {}, n)
    ensures n == |all|
  {
    assert all - {} == all;
  }

  /** The table while the sweep still has the rows `todo` to update. */
  ghost predicate PartlySwept(before: map<nat, Task>, now': map<nat, Task>, rows: set<nat>, todo: set<nat>, now: nat) {
    && now'.Keys == before.Keys
    && forall id :: id in before ==> now'[id] == if id in rows && id !in todo then SweepTask(before[id], now) else before[id]
  }

  lemma SweepOne(before: map<nat, Task>, now': map<nat, Task>, rows: set<nat>, todo: set<nat>, now: nat, id: nat)
    requires PartlySwept(before, now', rows, todo, now) && id in todo && todo <= rows
    requires rows == ExpiredRows(before, now, false) + ExpiredRows(before, now, true)
    ensures id in before && id in now' && now'[id] == before[id]
    ensures PartlySwept(before, now'[id := SweepTask(before[id], now)], rows, todo - {id}, now)
    ensures id in ExpiredRows(before, now, before[id].attempt >= before[id].maxAttempts)
    ensures id !in ExpiredRows(before, now, before[id].attempt < before[id].maxAttempts)
    ensures SweepTask(before[id], now) == if before[id].attempt >= before[id].maxAttempts
                                          then Released(before[id]).(status := DeadLetter)
                                          else Released(before[id]).(status := Queued, runAfter := now)
  {
  }

  lemma SweepEnds(before: map<nat, Task>, now': map<nat, Task>, rows: set<nat>, now: nat)
    requires PartlySwept(before, now', rows, {}, now)
    requires rows == ExpiredRows(before, now, false) + ExpiredRows(before, now, true)
    ensures now' == SweepAll(before, now)
  {
  }

  class Store {
    var tasks: map<nat, Task>
    var approvals: seq<Approval>

    constructor ()
      ensures Tables() == Db(map[], [])
    {
      tasks, approvals := map[], [];
    }

    function Tables(): Db
      reads this
    {
      Db(tasks, approvals)
    }

    /** `create_task` without an idempotency key, for a fresh id. */
    method CreateTask(id: nat, s: Submission)
      requires id !in tasks
      modifies this
      ensures approvals == old(approvals) && tasks == old(tasks)[id := NewTask(s)]
    {
      tasks := tasks[id := NewTask(s)];
    }

    /** `claim_next_task`: the claimable row of highest priority, oldest first. */
    method ClaimNextTask(worker: string, now: nat, lease: nat) returns (claimed: Option<Task>, ghost pick: Option<nat>)
      modifies `tasks
      ensures pick.None? <==> forall id :: id in old(tasks) ==> !Claimable(old(tasks)[id], now)
      ensures pick.None? ==> tasks == old(tasks) && claimed == None
      ensures pick.Some? ==>
                && pick.value in old(tasks) && Claimable(old(tasks)[pick.value], now)
                && (forall id :: id in old(tasks) && Claimable(old(tasks)[id], now) ==>
                      && old(tasks)[id].priority <= old(tasks)[pick.value].priority
                      && (old(tasks)[id].priority == old(tasks)[pick.value].priority ==>
                            old(tasks)[pick.value].created <= old(tasks)[id].created))
                && tasks == old(tasks)[pick.value := Claim(old(tasks)[pick.value], worker, now, lease)]
                && claimed == (if tasks[pick.value].status == Running then Some(tasks[pick.value]) else None)
    {
      var best: Option<nat> := None;
      var todo := tasks.Keys;
      while todo != {}
        invariant todo <= tasks.Keys && tasks == old(tasks)
        invariant best.Some? ==> best.value in tasks && Claimable(tasks[best.value], now)
        invariant forall id :: id in tasks && id !in todo && Claimable(tasks[id], now) ==>
                    best.Some? && !Before(tasks[id], tasks[best.value])
      {
        var id :| id in todo;
        todo := todo - {id};
        if Claimable(tasks[id], now) && (best.None? || Before(tasks[id], tasks[best.value])) {
          best := Some(id);
        }
      }
      pick := best;
      if best.None? {
        return None, pick;
      }
      var row := tasks[best.value];
      var next := row.attempt + 1;
      if next > row.maxAttempts {
        tasks := tasks[best.value := row.(status := DeadLetter)];
        return None, pick;
      }
      row := row.(status := Running, attempt := next, leaseOwner := Some(worker), leaseExpires := Some(now + lease));
      tasks := tasks[best.value := row];
      claimed := Some(row);
    }

    /** `heartbeat`: true when the worker still holds the lease. */
    method Renew(id: nat, worker: string, now: nat, lease: nat) returns (held: bool)
      modifies `tasks
      ensures held <==> id in old(tasks) && old(tasks)[id].status == Running && old(tasks)[id].leaseOwner == Some(worker)
      ensures tasks == (if id in old(tasks) then old(tasks)[id := Heartbeat(old(tasks)[id], worker, now, lease)] else old(tasks))
    {
      held := id in tasks && tasks[id].status == Running && tasks[id].leaseOwner == Some(worker);
      if held {
        tasks := tasks[id := tasks[id].(leaseExpires := Some(now + lease))];
      } else {
        assert id in tasks ==> tasks == tasks[id := tasks[id]];
      }
    }

    /** `requeue_expired_leases`, as one step: counts what it requeued and what it gave up. */
    method RequeueExpiredLeases(now: nat) returns (requeued: nat, dead: nat)
      modifies `tasks
      ensures tasks == SweepAll(old(tasks), now)
      ensures requeued == |ExpiredRows(old(tasks), now, false)| && dead == |ExpiredRows(old(tasks), now, true)|
    {
      ghost var before, again, over := tasks, ExpiredRows(tasks, now, false), ExpiredRows(tasks, now, true);
      var rows := ExpiredRows(tasks, now, false) + ExpiredRows(tasks, now, true);
      requeued, dead := 0, 0;
      var todo := rows;
      assert PartlySwept(before, tasks, rows, todo, now);
      CountBegins(again, todo);
      CountBegins(over, todo);
      hide Counted, PartlySwept, ExpiredRows, SweepTask;
      while todo != {}
        invariant todo <= rows && PartlySwept(before, tasks, rows, todo, now)
        invariant Counted(again, todo, requeued) && Counted(over, todo, dead)
      {
        var id :| id in todo;
        SweepOne(before, tasks, rows, todo, now, id);
        var row := tasks[id];
        TakeOut(again, todo, id, requeued);
        TakeOut(over, todo, id, dead);
        if row.attempt >= row.maxAttempts {
          row := row.(status := DeadLetter, leaseOwner := None, leaseExpires := None);
          dead := dead + 1;
        } else {
          row := row.(status := Queued, runAfter := now, leaseOwner := None, leaseExpires := None);
          requeued := requeued + 1;
        }
        tasks := tasks[id := row];
        todo := todo - {id};
      }
      SweepEnds(before, tasks, rows, now);
      CountEnds(again, requeued);
      CountEnds(over, dead);
    }

    /** `update_task`, for the field sets the engine sends: no look at the row. */
    method UpdateTask(id: nat, w: Write)
      modifies `tasks
      ensures tasks == (if id in old(tasks) then old(tasks)[id := Written(old(tasks)[id], w)] else old(tasks))
    {
      if id in tasks {
        tasks := tasks[id := Written(tasks[id], w)];
      }
    }

    /** `release_for_retry`, on the row the worker read. */
    method ReleaseForRetry(id: nat, seen: Task, now: nat, delay: nat) returns (status: Status)
      modifies `tasks
      ensures tasks == (if id in old(tasks) then old(tasks)[id := Written(old(tasks)[id], ReleaseWrite(seen, now + delay))] else old(tasks))
      ensures status == (if seen.attempt >= seen.maxAttempts then DeadLetter else Queued)
    {
      if seen.attempt >= seen.maxAttempts {
        UpdateTask(id, MarkDeadLetter);
        status := DeadLetter;
      } else {
        UpdateTask(id, Requeue(now + delay));
        status := Queued;
      }
    }

    /** `approval_decision`, with the unique key on (task, actor). */
    method ApprovalDecision(tenant: string, id: nat, actor: string, decision: Decision, now: nat) returns (r: Option<DecisionError>)
      modifies this
      ensures match Decide(old(Tables()), tenant, id, actor, decision, now)
              case Success(db) => r == None && Tables() == db
              case Failure(e) => r == Some(e) && Tables() == old(Tables())
    {
      if id !in tasks || tasks[id].tenant != tenant {
        return Some(TaskNotFound);
      }
      var task := tasks[id];
      if task.status != WaitingApproval {
        return Some(NotWaiting);
      }
      if actor == task.creator {
        return Some(OwnTask);
      }
      if HasDecided(approvals, id, actor) {
        return Some(AlreadyDecided);
      }
      approvals := approvals + [Approval(id, actor, decision)];
      if decision == Reject {
        tasks := tasks[id := task.(status := Canceled)];
      } else {
        var count := CountApprovals(id);
        if count >= task.required {
          tasks := tasks[id := task.(status := Queued, approvedAt := Some(now), runAfter := now)];
        } else {
          assert tasks == tasks[id := task];
        }
      }
      r := None;
    }

    method CountApprovals(id: nat) returns (n: nat)
      ensures n == CountRows(approvals, id, Approve)
    {
      n := 0;
      for i := 0 to |approvals|
        invariant n == CountRows(approvals[..i], id, Approve)
      {
        assert approvals[..i + 1] == approvals[..i] + [approvals[i]];
        CountAppend(approvals[..i], approvals[i], id, Approve);
        if approvals[i].task == id && approvals[i].decision == Approve {
          n := n + 1;
        }
      }
      assert approvals[..|approvals|] == approvals;
    }
  }
}
