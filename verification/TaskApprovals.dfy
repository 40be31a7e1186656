/** What stays of a task over every history: who it belongs to, its limits, and its approval mark. */
module TaskApprovals {
  import opened Tasks
  import opened TaskHistory

  // ----- The approval mark -----

  /** A task that needs approvals and got past them carries the mark. */
  ghost predicate Signed(s: System, id: nat)
    requires id in s.db.tasks
  {
    var t := s.db.tasks[id];
    t.required > 0 && (PastApproval(t.status) || ClaimsOf(s.claims, id) > 0 || id in s.failed) ==> t.approvedAt.Some?
  }

  /** A mark, once set, stays as it is; so do tenant, creator, needs and limits. */
  ghost predicate SameOwner(a: Task, b: Task) {
    && SameTask(a, b) && a.priority == b.priority && a.created == b.created
    && (a.approvedAt.Some? ==> b.approvedAt == a.approvedAt)
  }

  lemma NewTaskIsSigned(s: System, id: nat, submission: Submission)
    requires Inv(s) && id !in s.db.tasks
    ensures Signed(Step(s, Submit(id, submission)), id)
  {
    ClaimsUnrelated(s.claims, id);
  }

  /** The part of the invariant the mark depends on. */
  ghost predicate Unmarked(s: System, id: nat)
    requires id in s.db.tasks
  {
    s.db.tasks[id].status == WaitingApproval ==> ClaimsOf(s.claims, id) == 0 && id !in s.failed && s.db.tasks[id].approvedAt.None?
  }

  lemma StoreKeepsSigned(s: System, id: nat, t: Task, other: nat)
    requires id in s.db.tasks && Signed(s, id) && SameOwner(s.db.tasks[id], t)
    requires PastApproval(t.status) ==> PastApproval(s.db.tasks[id].status) || ClaimsOf(s.claims, id) > 0 || id in s.failed || t.approvedAt.Some?
    requires other in s.db.tasks && Signed(s, other)
    ensures Signed(Store(s, id, t), other) && SameOwner(s.db.tasks[other], Store(s, id, t).db.tasks[other])
  {
    hide ClaimsOf;
  }

  lemma TakeKeepsSigned(s: System, worker: string, now: nat, lease: nat, pick: nat, id: nat)
    requires id in s.db.tasks && Signed(s, id)
    ensures var after := TakeNext(s, worker, now, lease, pick);
            id in after.db.tasks && Signed(after, id) && SameOwner(s.db.tasks[id], after.db.tasks[id])
  {
    hide ClaimsOf;
    ClaimsAppend(s.claims, ClaimRecord(pick, worker), id);
  }

  lemma JudgeKeepsSigned(s: System, tenant: string, task: nat, actor: string, decision: Decision, now: nat, id: nat)
    requires Inv(s) && id in s.db.tasks && Signed(s, id)
    ensures var after := JudgeStep(s, tenant, task, actor, decision, now);
            id in after.db.tasks && Signed(after, id) && SameOwner(s.db.tasks[id], after.db.tasks[id])
  {
    assert Unmarked(s, id) by {
      assert TaskInv(s, id);
    }
    hide CountRows, HasDecided, ClaimsOf, Inv;
  }

  lemma SweepKeepsSigned(s: System, now: nat, id: nat)
    requires id in s.db.tasks && Signed(s, id)
    ensures var after := SweepStep(s, now);
            id in after.db.tasks && Signed(after, id) && SameOwner(s.db.tasks[id], after.db.tasks[id])
  {
    hide ClaimsOf;
  }

  lemma WriteKeepsOwner(t: Task, w: Write)
    ensures SameOwner(t, Written(t, w)) && (w == CancelFlag || w == Progress ==> Written(t, w).status == t.status) && (w == CancelNow ==> Written(t, w).status == Canceled)
  {
  }

  lemma WriteKeepsSigned(s: System, other: nat, w: Write, id: nat)
    requires other in s.db.tasks && Signed(s, other) && id in s.db.tasks && Signed(s, id)
    requires ClaimsOf(s.claims, other) > 0 || w in {CancelFlag, CancelNow}
    ensures var after := Store(s, other, Written(s.db.tasks[other], w));
            Signed(after, id) && SameOwner(s.db.tasks[id], after.db.tasks[id])
  {
    hide Signed, SameOwner, Written, ClaimsOf;
    WriteKeepsOwner(s.db.tasks[other], w);
    StoreKeepsSigned(s, other, Written(s.db.tasks[other], w), id);
  }

  lemma RenewKeepsSigned(s: System, other: nat, worker: string, now: nat, lease: nat, id: nat)
    requires other in s.db.tasks && Signed(s, other) && id in s.db.tasks && Signed(s, id)
    ensures var after := Store(s, other, Heartbeat(s.db.tasks[other], worker, now, lease));
            Signed(after, id) && SameOwner(s.db.tasks[id], after.db.tasks[id])
  {
    hide Signed, SameOwner, Heartbeat, ClaimsOf;
    RenewKeepsOwner(s.db.tasks[other], worker, now, lease);
    StoreKeepsSigned(s, other, Heartbeat(s.db.tasks[other], worker, now, lease), id);
  }

  lemma StepKeepsSigned(s: System, e: Event, id: nat)
    requires Inv(s) && id in s.db.tasks && Signed(s, id) && (e.Cancel? || e.Retry? || e.WorkerWrite? || e.Renew? ==> e.id in s.db.tasks ==> Signed(s, e.id))
    ensures id in Step(s, e).db.tasks && Signed(Step(s, e), id) && SameOwner(s.db.tasks[id], Step(s, e).db.tasks[id])
  {
    hide Inv, Signed, SameOwner, Written, Heartbeat, Store, SweepStep, JudgeStep, TakeNext, RetryStep, ClaimsOf, NewTask;
    match e {
      case Submit(_, _) => SubmitKeepsOthers(s, e, id);
      case ClaimNext(worker, now, lease, pick) => TakeKeepsSigned(s, worker, now, lease, pick, id);
      case Sweep(now) => SweepKeepsSigned(s, now, id);
      case Judge(tenant, task, actor, decision, now) => JudgeKeepsSigned(s, tenant, task, actor, decision, now, id);
      case Retry(other, now) =>
        SameOwnerReflexive(s, id);
        RetryKeepsSigned(s, other, now, id);
      case WorkerWrite(_, _, _) | Cancel(_, _) | Renew(_, _, _, _) =>
        SameOwnerReflexive(s, id);
        if e.id in s.db.tasks {
          RowWriteKeepsSigned(s, e, id);
        }
    }
  }

  /** The events that write one row without looking at it, or only at its lease. */
  lemma RowWriteKeepsSigned(s: System, e: Event, id: nat)
    requires (e.WorkerWrite? || e.Cancel? || e.Renew?) && e.id in s.db.tasks && Signed(s, e.id)
    requires id in s.db.tasks && Signed(s, id)
    ensures id in Step(s, e).db.tasks && Signed(Step(s, e), id) && SameOwner(s.db.tasks[id], Step(s, e).db.tasks[id])
  {
    hide Signed, SameOwner, Written, Heartbeat, ClaimsOf;
    SameOwnerReflexive(s, id);
    match e {
      case WorkerWrite(worker, other, w) =>
        if ByWorker(w) && ClaimRecord(other, worker) in s.claims {
          ClaimsContain(s.claims, ClaimRecord(other, worker));
          WriteKeepsSigned(s, other, w, id);
        }
      case Cancel(other, running) => WriteKeepsSigned(s, other, if running then CancelFlag else CancelNow, id);
      case Renew(other, worker, now, lease) => RenewKeepsSigned(s, other, worker, now, lease, id);
    }
  }

  lemma SameOwnerReflexive(s: System, id: nat)
    requires id in s.db.tasks
    ensures SameOwner(s.db.tasks[id], s.db.tasks[id])
  {
  }

  lemma RenewKeepsOwner(t: Task, worker: string, now: nat, lease: nat)
    ensures SameOwner(t, Heartbeat(t, worker, now, lease)) && Heartbeat(t, worker, now, lease).status == t.status
  {
  }

  lemma RetryKeepsSigned(s: System, other: nat, now: nat, id: nat)
    requires id in s.db.tasks && Signed(s, id) && (other in s.db.tasks ==> Signed(s, other))
    ensures var after := RetryStep(s, other, now);
            id in after.db.tasks && Signed(after, id) && SameOwner(s.db.tasks[id], after.db.tasks[id])
  {
    hide ClaimsOf;
  }

  lemma SubmitKeepsOthers(s: System, e: Event, id: nat)
    requires e.Submit? && id in s.db.tasks && Signed(s, id)
    ensures id in Step(s, e).db.tasks && Signed(Step(s, e), id) && SameOwner(s.db.tasks[id], Step(s, e).db.tasks[id])
  {
    hide ClaimsOf;
  }

  lemma SameOwnerTransitive(a: Task, b: Task, c: Task)
    requires SameOwner(a, b) && SameOwner(b, c)
    ensures SameOwner(a, c)
  {
  }

  lemma StepKeepsSome(s: System, e: Event, id: nat)
    requires id !in s.db.tasks && id in Step(s, e).db.tasks
    ensures e.Submit? && e.id == id
  {
  }

  ghost predicate EverySigned(s: System) {
    forall id :: id in s.db.tasks ==> Signed(s, id)
  }

  lemma {:induction false} AllSigned(es: seq<Event>)
    ensures EverySigned(Run(es))
  {
    if es != [] {
      hide Inv, Step, Signed, SameOwner;
      var before, e := Run(es[..|es| - 1]), es[|es| - 1];
      RunInv(es[..|es| - 1]);
      AllSigned(es[..|es| - 1]);
      forall id | id in Run(es).db.tasks
        ensures Signed(Run(es), id)
      {
        if id in before.db.tasks {
          StepKeepsSigned(before, e, id);
        } else {
          StepKeepsSome(before, e, id);
          NewTaskIsSigned(before, id, e.s);
        }
      }
    }
  }

  /** Every task that was ever claimed and needs approvals has its approval mark. */
  lemma ClaimedTasksAreMarked(es: seq<Event>, id: nat)
    requires id in Run(es).db.tasks && ClaimsOf(Run(es).claims, id) > 0 && Run(es).db.tasks[id].required > 0
    ensures Run(es).db.tasks[id].approvedAt.Some?
  {
    hide Run, ClaimsOf;
    AllSigned(es);
  }

  // ----- What no write touches -----

  lemma EventKeepsOwner(es: seq<Event>, e: Event, id: nat)
    requires id in Run(es).db.tasks
    ensures id in Run(es + [e]).db.tasks && SameOwner(Run(es).db.tasks[id], Run(es + [e]).db.tasks[id])
  {
    assert Run(es + [e]) == Step(Run(es), e) by {
      assert (es + [e])[..|es + [e]| - 1] == es;
      hide Step;
    }
    RunInv(es);
    AllSigned(es);
    hide Inv, Step, Run, Signed, SameOwner;
    StepKeepsSigned(Run(es), e, id);
  }

  /**
   * Over every history, stale and unguarded writes included, a task keeps its tenant, creator,
   * declared mutation, required approvals, attempt limit, priority and time of creation, and an
   * approval mark once set.
   */
  lemma {:induction false} IdentityNeverChanges(es: seq<Event>, more: seq<Event>, id: nat)
    requires id in Run(es).db.tasks
    ensures id in Run(es + more).db.tasks && SameOwner(Run(es).db.tasks[id], Run(es + more).db.tasks[id])
  {
    if more == [] {
      assert es + more == es;
      SameOwnerReflexive(Run(es), id);
    } else {
      hide Run, SameOwner;
      var last := |more| - 1;
      var before := es + more[..last];
      assert before + [more[last]] == es + more;
      IdentityNeverChanges(es, more[..last], id);
      EventKeepsOwner(before, more[last], id);
      SameOwnerTransitive(Run(es).db.tasks[id], Run(before).db.tasks[id], Run(es + more).db.tasks[id]);
    }
  }

  ghost predicate Bounded(t: Task) {
    1 <= t.maxAttempts <= 10 && -100 <= t.priority <= 100 && t.required <= 3 && (t.required > 0 ==> t.mutating)
  }

  /** Every task of every history has clamped limits, and only a mutating one needs approvals. */
  lemma {:induction false} SubmittedTasksAreBounded(es: seq<Event>, id: nat)
    requires id in Run(es).db.tasks
    ensures Bounded(Run(es).db.tasks[id])
  {
    if es != [] {
      hide Inv, Step, Signed;
      var before, e := Run(es[..|es| - 1]), es[|es| - 1];
      if id in before.db.tasks {
        SubmittedTasksAreBounded(es[..|es| - 1], id);
        RunInv(es[..|es| - 1]);
        AllSigned(es[..|es| - 1]);
        StepKeepsSigned(before, e, id);
      } else {
        StepKeepsSome(before, e, id);
        NewTaskIsBounded(before, id, e.s);
      }
    }
  }

  lemma NewTaskIsBounded(s: System, id: nat, submission: Submission)
    requires id !in s.db.tasks
    ensures Bounded(Step(s, Submit(id, submission)).db.tasks[id])
  {
  }

  /** Claims are only ever added. */
  lemma {:induction false} ClaimsStay(es: seq<Event>, more: seq<Event>, id: nat)
    ensures ClaimsOf(Run(es).claims, id) <= ClaimsOf(Run(es + more).claims, id)
  {
    if more == [] {
      assert es + more == es;
    } else {
      hide Step, ClaimsOf;
      var last := |more| - 1;
      ClaimsStay(es, more[..last], id);
      assert (es + more)[..|es + more| - 1] == es + more[..last];
      StepKeepsClaims(Run(es + more[..last]), more[last], id);
    }
  }

  lemma StepKeepsClaims(s: System, e: Event, id: nat)
    ensures ClaimsOf(s.claims, id) <= ClaimsOf(Step(s, e).claims, id)
  {
    hide ClaimsOf;
    if e.ClaimNext? {
      ClaimsAppend(s.claims, ClaimRecord(e.pick, e.worker), id);
    }
  }
}
