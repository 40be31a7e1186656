/** Every interleaving of task transactions, with workers that outlive their leases. */
module TaskHistory {
  import opened Tasks

  /** A successful claim. */
  datatype ClaimRecord = ClaimRecord(task: nat, worker: string)

  /**
   * The tables, with what has happened to them: the claims in order, the manual retries, and the
   * tasks that have been `failed` or `dead_letter` at some time.
   */
  datatype System = System(db: Db, claims: seq<ClaimRecord>, retries: seq<nat>, failed: set<nat>)

  const START := System(Db(map[], []), [], [], {})

  /**
   * A claim names the row it takes: any claimable one, as rows locked by other transactions are
   * skipped. A worker's write comes from any worker that ever claimed the task, however long ago;
   * `cancel` and `retry` act on a status they read earlier.
   */
  datatype Event =
    | Submit(id: nat, s: Submission)
    | ClaimNext(worker: string, now: nat, lease: nat, pick: nat)
    | Renew(id: nat, worker: string, now: nat, lease: nat)
    | Sweep(now: nat)
    | Judge(tenant: string, id: nat, actor: string, decision: Decision, now: nat)
    | WorkerWrite(worker: string, id: nat, w: Write)
    | Cancel(id: nat, running: bool)
    | Retry(id: nat, now: nat)

  predicate ByWorker(w: Write) {
    w in {Progress, MarkSucceeded, MarkFailed, MarkCanceled, MarkDeadLetter} || w.Requeue?
  }

  function FailedIds(tasks: map<nat, Task>): set<nat> {
    set id | id in tasks && tasks[id].status in {Failed, DeadLetter}
  }

  /** Store one row, and remember the tasks that are now `failed` or `dead_letter`. */
  function Store(s: System, id: nat, t: Task): System {
    s.(db := s.db.(tasks := s.db.tasks[id := t]), failed := if t.status in {Failed, DeadLetter} then s.failed + {id} else s.failed)
  }

  function TakeNext(s: System, worker: string, now: nat, lease: nat, id: nat): System {
    if id !in s.db.tasks || !Claimable(s.db.tasks[id], now) then s
    else
      var t := Claim(s.db.tasks[id], worker, now, lease);
      Store(s, id, t).(claims := if t.status == Running then s.claims + [ClaimRecord(id, worker)] else s.claims)
  }

  function SweepStep(s: System, now: nat): System {
    var tasks := SweepAll(s.db.tasks, now);
    s.(db := s.db.(tasks := tasks), failed := s.failed + FailedIds(tasks))
  }

  function JudgeStep(s: System, tenant: string, id: nat, actor: string, decision: Decision, now: nat): System {
    var r := Decide(s.db, tenant, id, actor, decision, now);
    if r.Success? then s.(db := r.value) else s
  }

  function WriteStep(s: System, worker: string, id: nat, w: Write): System {
    if id in s.db.tasks && ByWorker(w) && ClaimRecord(id, worker) in s.claims then Store(s, id, Written(s.db.tasks[id], w)) else s
  }

  function RetryStep(s: System, id: nat, now: nat): System {
    if id in s.db.tasks && id in s.failed then
      Store(s, id, Written(s.db.tasks[id], ManualRetry(now))).(retries := s.retries + [id])
    else s
  }

  function Step(s: System, e: Event): System {
    match e
    case Submit(id, submission) => if id in s.db.tasks then s else Store(s, id, NewTask(submission))
    case ClaimNext(worker, now, lease, id) => TakeNext(s, worker, now, lease, id)
    case Renew(id, worker, now, lease) => if id in s.db.tasks then Store(s, id, Heartbeat(s.db.tasks[id], worker, now, lease)) else s
    case Sweep(now) => SweepStep(s, now)
    case Judge(tenant, id, actor, decision, now) => JudgeStep(s, tenant, id, actor, decision, now)
    case WorkerWrite(worker, id, w) => WriteStep(s, worker, id, w)
    case Cancel(id, running) =>
      if id in s.db.tasks then Store(s, id, Written(s.db.tasks[id], if running then CancelFlag else CancelNow)) else s
    case Retry(id, now) => RetryStep(s, id, now)
  }

  function Run(es: seq<Event>): System {
    if es == [] then START else Step(Run(es[..|es| - 1]), es[|es| - 1])
  }

  // ----- What every transaction keeps -----

  function ClaimsOf(claims: seq<ClaimRecord>, id: nat): nat {
    if claims == [] then 0 else ClaimsOf(claims[..|claims| - 1], id) + if claims[|claims| - 1].task == id then 1 else 0
  }

  function RetriesOf(retries: seq<nat>, id: nat): nat {
    if retries == [] then 0 else RetriesOf(retries[..|retries| - 1], id) + if retries[|retries| - 1] == id then 1 else 0
  }

  /** Enough approvals, and no rejection. */
  ghost predicate Approved(db: Db, id: nat)
    requires id in db.tasks
  {
    CountRows(db.approvals, id, Approve) >= db.tasks[id].required && CountRows(db.approvals, id, Reject) == 0
  }

  /** The statuses only an approved task reaches. */
  predicate PastApproval(status: Status) {
    status !in {WaitingApproval, Canceled}
  }

  ghost predicate LeaseInv(t: Task) {
    && (t.status == Running <==> t.leaseOwner.Some?)
    && (t.leaseOwner.Some? <==> t.leaseExpires.Some?)
    && 1 <= t.maxAttempts && t.attempt <= t.maxAttempts
  }

  ghost predicate ApprovalInv(s: System, id: nat)
    requires id in s.db.tasks
  {
    var t := s.db.tasks[id];
    && (t.status == WaitingApproval ==>
          && CountRows(s.db.approvals, id, Approve) < t.required && CountRows(s.db.approvals, id, Reject) == 0
          && ClaimsOf(s.claims, id) == 0 && id !in s.failed && t.approvedAt.None?)
    && (PastApproval(t.status) || ClaimsOf(s.claims, id) > 0 || id in s.failed || t.approvedAt.Some? ==> Approved(s.db, id))
  }

  ghost predicate AttemptInv(s: System, id: nat)
    requires id in s.db.tasks
  {
    ClaimsOf(s.claims, id) <= s.db.tasks[id].maxAttempts * RetriesOf(s.retries, id) + s.db.tasks[id].attempt
  }

  ghost predicate TaskInv(s: System, id: nat)
    requires id in s.db.tasks
  {
    LeaseInv(s.db.tasks[id]) && ApprovalInv(s, id) && AttemptInv(s, id)
  }

  /** One decision per actor, on an existing task, never the requester's own. */
  ghost predicate ApprovalsInv(db: Db) {
    && (forall i :: 0 <= i < |db.approvals| ==>
          db.approvals[i].task in db.tasks && db.approvals[i].actor != db.tasks[db.approvals[i].task].creator)
    && (forall i, j :: 0 <= i < j < |db.approvals| && db.approvals[i].task == db.approvals[j].task ==>
                         db.approvals[i].actor != db.approvals[j].actor)
  }

  ghost predicate Inv(s: System) {
    && ApprovalsInv(s.db)
    && (forall id :: id in s.db.tasks ==> TaskInv(s, id))
    && (forall id :: id in s.failed ==> id in s.db.tasks)
    && (forall i :: 0 <= i < |s.claims| ==> s.claims[i].task in s.db.tasks)
    && (forall i :: 0 <= i < |s.retries| ==> s.retries[i] in s.db.tasks)
  }

  lemma {:induction false} CountUnrelated(approvals: seq<Approval>, id: nat, d: Decision)
    requires forall i :: 0 <= i < |approvals| ==> approvals[i].task != id
    ensures CountRows(approvals, id, d) == 0
  {
    if approvals != [] {
      CountUnrelated(approvals[..|approvals| - 1], id, d);
    }
  }

  lemma {:induction false} ClaimsUnrelated(claims: seq<ClaimRecord>, id: nat)
    requires forall i :: 0 <= i < |claims| ==> claims[i].task != id
    ensures ClaimsOf(claims, id) == 0
  {
    if claims != [] {
      ClaimsUnrelated(claims[..|claims| - 1], id);
    }
  }

  lemma {:induction false} ClaimsContain(claims: seq<ClaimRecord>, c: ClaimRecord)
    requires c in claims
    ensures ClaimsOf(claims, c.task) > 0
  {
    if claims[|claims| - 1] != c {
      ClaimsContain(claims[..|claims| - 1], c);
    }
  }

  lemma CountAppend(approvals: seq<Approval>, a: Approval, id: nat, d: Decision)
    ensures CountRows(approvals + [a], id, d) == CountRows(approvals, id, d) + if a.task == id && a.decision == d then 1 else 0
  {
    assert (approvals + [a])[..|approvals|] == approvals;
  }

  lemma ClaimsAppend(claims: seq<ClaimRecord>, c: ClaimRecord, id: nat)
    ensures ClaimsOf(claims + [c], id) == ClaimsOf(claims, id) + if c.task == id then 1 else 0
  {
    assert (claims + [c])[..|claims|] == claims;
  }

  lemma RetriesAppend(retries: seq<nat>, r: nat, id: nat)
    ensures RetriesOf(retries + [r], id) == RetriesOf(retries, id) + if r == id then 1 else 0
  {
    assert (retries + [r])[..|retries|] == retries;
  }

  /** What never changes about a row. */
  ghost predicate SameTask(a: Task, b: Task) {
    a.tenant == b.tenant && a.creator == b.creator && a.mutating == b.mutating && a.required == b.required && a.maxAttempts == b.maxAttempts
  }

  /** A row write that neither claims nor retries, and reaches no new status but through an approved task. */
  ghost predicate Harmless(s: System, id: nat, t': Task)
    requires id in s.db.tasks
  {
    var t := s.db.tasks[id];
    && SameTask(t, t') && LeaseInv(t') && t'.attempt >= t.attempt
    && (t'.status == WaitingApproval ==> t.status == WaitingApproval)
    && (t'.approvedAt.Some? ==> t.approvedAt.Some?)
    && (PastApproval(t'.status) ==> PastApproval(t.status) || ClaimsOf(s.claims, id) > 0)
  }

  lemma HarmlessKeeps(s: System, id: nat, t: Task)
    requires Inv(s) && id in s.db.tasks && Harmless(s, id, t)
    ensures Inv(Store(s, id, t))
  {
    var after := Store(s, id, t);
    forall other | other in after.db.tasks
      ensures TaskInv(after, other)
    {
      assert TaskInv(s, other);
    }
  }

  lemma WrittenIsHarmless(s: System, id: nat, w: Write)
    requires id in s.db.tasks && LeaseInv(s.db.tasks[id]) && !w.ManualRetry?
    requires w in {CancelNow, CancelFlag} || ClaimsOf(s.claims, id) > 0
    ensures Harmless(s, id, Written(s.db.tasks[id], w))
  {
  }

  lemma NewTaskInv(s: System, id: nat, submission: Submission)
    requires Inv(s) && id !in s.db.tasks
    ensures TaskInv(Store(s, id, NewTask(submission)), id)
  {
    CountUnrelated(s.db.approvals, id, Approve);
    CountUnrelated(s.db.approvals, id, Reject);
    ClaimsUnrelated(s.claims, id);
  }

  lemma SubmitKeeps(s: System, id: nat, submission: Submission)
    requires Inv(s) && id !in s.db.tasks
    ensures Inv(Store(s, id, NewTask(submission)))
  {
    NewTaskInv(s, id, submission);
    hide NewTask;
    var after := Store(s, id, NewTask(submission));
    forall other | other in after.db.tasks
      ensures TaskInv(after, other)
    {
      if other != id {
        assert TaskInv(s, other);
      }
    }
  }

  lemma JudgeKeepsTask(s: System, tenant: string, id: nat, actor: string, decision: Decision, now: nat, other: nat)
    requires other in s.db.tasks && TaskInv(s, other) && Decide(s.db, tenant, id, actor, decision, now).Success?
    ensures var after := JudgeStep(s, tenant, id, actor, decision, now); other in after.db.tasks && TaskInv(after, other)
  {
    hide CountRows, ClaimsOf, RetriesOf;
    CountAppend(s.db.approvals, Approval(id, actor, decision), other, Approve);
    CountAppend(s.db.approvals, Approval(id, actor, decision), other, Reject);
  }

  lemma JudgeKeepsRows(s: System, tenant: string, id: nat, actor: string, decision: Decision, now: nat)
    requires ApprovalsInv(s.db)
    ensures var after := JudgeStep(s, tenant, id, actor, decision, now); ApprovalsInv(after.db) && after.db.tasks.Keys == s.db.tasks.Keys
  {
  }

  lemma JudgeKeeps(s: System, tenant: string, id: nat, actor: string, decision: Decision, now: nat)
    requires Inv(s)
    ensures Inv(JudgeStep(s, tenant, id, actor, decision, now))
  {
    var after := JudgeStep(s, tenant, id, actor, decision, now);
    if Decide(s.db, tenant, id, actor, decision, now).Success? {
      JudgeKeepsRows(s, tenant, id, actor, decision, now);
      forall other | other in after.db.tasks
        ensures TaskInv(after, other)
      {
        assert TaskInv(s, other);
        hide Inv, TaskInv, ApprovalsInv;
        JudgeKeepsTask(s, tenant, id, actor, decision, now, other);
      }
      hide Decide, TaskInv;
    }
  }

  lemma TakeKeepsTask(s: System, worker: string, now: nat, lease: nat, id: nat, other: nat)
    requires id in s.db.tasks && Claimable(s.db.tasks[id], now) && other in s.db.tasks && TaskInv(s, other)
    ensures TaskInv(TakeNext(s, worker, now, lease, id), other)
  {
    ClaimsAppend(s.claims, ClaimRecord(id, worker), other);
  }

  lemma RetryKeepsTask(s: System, id: nat, now: nat, other: nat)
    requires id in s.db.tasks && id in s.failed && other in s.db.tasks && TaskInv(s, other)
    ensures TaskInv(RetryStep(s, id, now), other)
  {
    var after := RetryStep(s, id, now);
    assert LeaseInv(after.db.tasks[other]) && ApprovalInv(after, other);
    assert after.retries == s.retries + [id] && after.claims == s.claims;
    RetriesAppend(s.retries, id, other);
    var max, n := s.db.tasks[other].maxAttempts, RetriesOf(s.retries, other);
    assert after.db.tasks[other].maxAttempts == max;
    assert after.db.tasks[other].attempt == (if id == other then 0 else s.db.tasks[other].attempt);
    assert ClaimsOf(s.claims, other) <= max * n + s.db.tasks[other].attempt && s.db.tasks[other].attempt <= max;
    hide RetryStep, ApprovalInv, LeaseInv, ClaimsOf, RetriesOf;
    Distribute(max, n);
  }

  lemma SweepKeepsTask(s: System, now: nat, id: nat)
    requires id in s.db.tasks && TaskInv(s, id)
    ensures TaskInv(SweepStep(s, now), id)
  {
  }

  lemma TakeKeeps(s: System, worker: string, now: nat, lease: nat, id: nat)
    requires Inv(s)
    ensures Inv(TakeNext(s, worker, now, lease, id))
  {
    hide TaskInv;
    if id in s.db.tasks && Claimable(s.db.tasks[id], now) {
      forall other | other in s.db.tasks
        ensures TaskInv(TakeNext(s, worker, now, lease, id), other)
      {
        TakeKeepsTask(s, worker, now, lease, id, other);
      }
    }
  }

  lemma RetryKeeps(s: System, id: nat, now: nat)
    requires Inv(s)
    ensures Inv(RetryStep(s, id, now))
  {
    hide TaskInv;
    if id in s.db.tasks && id in s.failed {
      forall other | other in s.db.tasks
        ensures TaskInv(RetryStep(s, id, now), other)
      {
        RetryKeepsTask(s, id, now, other);
      }
    }
  }

  lemma SweepKeeps(s: System, now: nat)
    requires Inv(s)
    ensures Inv(SweepStep(s, now))
  {
    hide TaskInv;
    forall id | id in s.db.tasks
      ensures TaskInv(SweepStep(s, now), id)
    {
      SweepKeepsTask(s, now, id);
    }
  }

  lemma RenewKeeps(s: System, id: nat, worker: string, now: nat, lease: nat)
    requires Inv(s)
    ensures Inv(Step(s, Renew(id, worker, now, lease)))
  {
    if id in s.db.tasks {
      assert TaskInv(s, id);
      HarmlessKeeps(s, id, Heartbeat(s.db.tasks[id], worker, now, lease));
    }
  }

  lemma WriteKeeps(s: System, id: nat, w: Write)
    requires Inv(s) && id in s.db.tasks && !w.ManualRetry?
    requires ClaimsOf(s.claims, id) > 0 || w in {CancelFlag, CancelNow}
    ensures Inv(Store(s, id, Written(s.db.tasks[id], w)))
  {
    assert TaskInv(s, id);
    WrittenIsHarmless(s, id, w);
    hide *;
    HarmlessKeeps(s, id, Written(s.db.tasks[id], w));
  }

  lemma StepKeepsInv(s: System, e: Event)
    requires Inv(s)
    ensures Inv(Step(s, e))
  {
    hide Inv, Written, Heartbeat, Store, NewTask, TakeNext, SweepStep, JudgeStep, RetryStep, ClaimsOf;
    match e {
      case Submit(id, submission) =>
        if id !in s.db.tasks {
          SubmitKeeps(s, id, submission);
        }
      case ClaimNext(worker, now, lease, id) => TakeKeeps(s, worker, now, lease, id);
      case Renew(id, worker, now, lease) => RenewKeeps(s, id, worker, now, lease);
      case Sweep(now) => SweepKeeps(s, now);
      case Judge(tenant, id, actor, decision, now) => JudgeKeeps(s, tenant, id, actor, decision, now);
      case WorkerWrite(worker, id, w) =>
        if id in s.db.tasks && ByWorker(w) && ClaimRecord(id, worker) in s.claims {
          ClaimsContain(s.claims, ClaimRecord(id, worker));
          WriteKeeps(s, id, w);
        }
      case Cancel(id, running) =>
        if id in s.db.tasks {
          WriteKeeps(s, id, if running then CancelFlag else CancelNow);
        }
      case Retry(id, now) => RetryKeeps(s, id, now);
    }
  }

  lemma {:induction false} RunInv(es: seq<Event>)
    ensures Inv(Run(es))
  {
    if es != [] {
      hide Inv, Step;
      RunInv(es[..|es| - 1]);
      StepKeepsInv(Run(es[..|es| - 1]), es[|es| - 1]);
    } else {
      assert Inv(START);
    }
  }

  // ----- Four eyes -----

  lemma DecidersAppend(before: seq<Approval>, last: Approval, id: nat, d: Decision)
    ensures Deciders(before + [last], id, d) ==
            Deciders(before, id, d) + if last.task == id && last.decision == d then {last.actor} else {}
  {
    var all := before + [last];
    forall a | a in Deciders(before, id, d)
      ensures a in Deciders(all, id, d)
    {
      var i :| 0 <= i < |before| && before[i].task == id && before[i].decision == d && before[i].actor == a;
      assert all[i].actor == a;
    }
    assert all[|before|] == last;
  }

  ghost predicate OnePerActor(approvals: seq<Approval>) {
    forall i, j :: 0 <= i < j < |approvals| && approvals[i].task == approvals[j].task ==> approvals[i].actor != approvals[j].actor
  }

  lemma LastIsNew(before: seq<Approval>, last: Approval, id: nat, d: Decision)
    requires OnePerActor(before + [last])
    ensures OnePerActor(before) && (last.task == id ==> last.actor !in Deciders(before, id, d))
  {
    var all := before + [last];
    assert forall i :: 0 <= i < |before| ==> all[i] == before[i];
    assert all[|before|] == last;
  }

  /** The actors who approved a task are counted exactly by its approval rows. */
  lemma {:induction false} RowsCountActors(approvals: seq<Approval>, id: nat, d: Decision)
    requires OnePerActor(approvals)
    ensures CountRows(approvals, id, d) == |Deciders(approvals, id, d)|
  {
    if approvals != [] {
      hide Deciders, OnePerActor;
      var n := |approvals| - 1;
      var before, last := approvals[..n], approvals[n];
      assert approvals == before + [last];
      LastIsNew(before, last, id, d);
      RowsCountActors(before, id, d);
      DecidersAppend(before, last, id, d);
    }
  }

  lemma {:induction false} NoRows(approvals: seq<Approval>, id: nat, d: Decision)
    requires CountRows(approvals, id, d) == 0
    ensures forall i :: 0 <= i < |approvals| && approvals[i].task == id ==> approvals[i].decision != d
  {
    if approvals != [] {
      NoRows(approvals[..|approvals| - 1], id, d);
    }
  }

  /** What approval means in terms of actors. */
  lemma ApprovedByOthers(s: System, id: nat)
    requires Inv(s) && id in s.db.tasks && Approved(s.db, id)
    ensures |Deciders(s.db.approvals, id, Approve)| >= s.db.tasks[id].required
    ensures s.db.tasks[id].creator !in Deciders(s.db.approvals, id, Approve)
    ensures Deciders(s.db.approvals, id, Reject) == {}
  {
    RowsCountActors(s.db.approvals, id, Approve);
    NoRows(s.db.approvals, id, Reject);
  }

  /**
   * In every interleaving, a task is claimed only after enough distinct actors other than its creator
   * approved it, and with no rejection on record.
   */
  lemma ClaimNeedsIndependentApproval(es: seq<Event>, e: Event)
    requires |Step(Run(es), e).claims| > |Run(es).claims|
    ensures e.ClaimNext? && e.pick in Run(es).db.tasks
    ensures var before := Run(es).db;
            && |Deciders(before.approvals, e.pick, Approve)| >= before.tasks[e.pick].required
            && before.tasks[e.pick].creator !in Deciders(before.approvals, e.pick, Approve)
            && Deciders(before.approvals, e.pick, Reject) == {}
  {
    var s := Run(es);
    RunInv(es);
    assert TaskInv(s, e.pick);
    ApprovedByOthers(s, e.pick);
  }

  /** A rejected task is never claimed, whatever happens before or after the rejection. */
  lemma RejectedNeverClaimed(es: seq<Event>, id: nat)
    requires Deciders(Run(es).db.approvals, id, Reject) != {}
    ensures ClaimsOf(Run(es).claims, id) == 0
  {
    var s := Run(es);
    RunInv(es);
    var a :| a in Deciders(s.db.approvals, id, Reject);
    var i :| 0 <= i < |s.db.approvals| && s.db.approvals[i].task == id && s.db.approvals[i].decision == Reject;
    assert TaskInv(s, id);
    if CountRows(s.db.approvals, id, Reject) == 0 {
      NoRows(s.db.approvals, id, Reject);
    }
  }

  /** Even with stale workers, a task is claimed at most `max_attempts` times for each manual retry and once more. */
  lemma ClaimsAreBounded(es: seq<Event>, id: nat)
    requires id in Run(es).db.tasks
    ensures ClaimsOf(Run(es).claims, id) <= Run(es).db.tasks[id].maxAttempts * (1 + RetriesOf(Run(es).retries, id))
  {
    hide Run;
    var s := Run(es);
    RunInv(es);
    assert TaskInv(s, id);
    assert LeaseInv(s.db.tasks[id]) && AttemptInv(s, id);
    hide Inv, TaskInv, ClaimsOf, RetriesOf;
    Distribute(s.db.tasks[id].maxAttempts, RetriesOf(s.retries, id));
  }

  lemma Distribute(max: nat, n: nat)
    ensures max * (1 + n) == max * n + max
  {
  }

  /** A task is `running` exactly when it has a lease owner. */
  lemma RunningIffOwned(es: seq<Event>, id: nat)
    requires id in Run(es).db.tasks
    ensures Run(es).db.tasks[id].status == Running <==> Run(es).db.tasks[id].leaseOwner.Some?
    ensures Run(es).db.tasks[id].status == Running <==> Run(es).db.tasks[id].leaseExpires.Some?
  {
    RunInv(es);
    assert TaskInv(Run(es), id);
  }
}
