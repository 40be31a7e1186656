/** What submissions, decisions, claims and sweeps lead to over histories, in the fields of the rows. */
module TaskOutcomes {
  import opened Wrappers
  import opened Tasks
  import opened TaskHistory
  import opened TaskApprovals

  lemma OneMore(es: seq<Event>, e: Event)
    ensures Run(es + [e]) == Step(Run(es), e)
  {
    hide Step;
    assert (es + [e])[..|es + [e]| - 1] == es;
  }

  // ----- Submissions -----

  /** The agent wants approvals for mutations, and this is one. */
  predicate NeedsApproval(s: Submission) {
    s.mutating && s.agentNeedsApproval && s.agentRequired >= 1
  }

  /** How many, at most three. */
  function Needed(s: Submission): nat {
    if !NeedsApproval(s) then 0 else if s.agentRequired > 3 then 3 else s.agentRequired
  }

  /** The value itself inside the limits, the nearer limit outside them. */
  predicate Limited(given: int, low: int, high: int, stored: int) {
    if low <= given <= high then stored == given else stored == if given < low then low else high
  }

  /** The row of a fresh submission: it waits exactly when it needs approvals, and says how many. */
  lemma SubmittedRow(es: seq<Event>, id: nat, s: Submission)
    requires id !in Run(es).db.tasks
    ensures var after := Run(es + [Submit(id, s)]).db;
            && after.approvals == Run(es).db.approvals && after.tasks.Keys == Run(es).db.tasks.Keys + {id}
            && (forall other :: other in Run(es).db.tasks ==> after.tasks[other] == Run(es).db.tasks[other])
            && var row := after.tasks[id];
               && row.tenant == s.tenant && row.creator == s.creator && row.mutating == s.mutating && row.created == s.now
               && Limited(s.priority, -100, 100, row.priority) && Limited(s.maxAttempts, 1, 10, row.maxAttempts)
               && row.required == Needed(s) && row.status == (if NeedsApproval(s) then WaitingApproval else Queued)
               && row.runAfter == s.now && row.attempt == 0 && !row.cancelRequested
               && row.approvedAt.None? && row.leaseOwner.None? && row.leaseExpires.None?
  {
    hide Run;
    OneMore(es, Submit(id, s));
  }

  /** In every later history, the task is claimed only once as many others as it needs have approved it, and nobody rejected it. */
  lemma NotClaimedBeforeApprovals(es: seq<Event>, id: nat, s: Submission, more: seq<Event>, e: Event)
    requires id !in Run(es).db.tasks
    requires var now := Run(es + [Submit(id, s)] + more); ClaimsOf(Step(now, e).claims, id) > ClaimsOf(now.claims, id)
    ensures var approvals := Run(es + [Submit(id, s)] + more).db.approvals;
            && |Deciders(approvals, id, Approve)| >= Needed(s) && s.creator !in Deciders(approvals, id, Approve)
            && Deciders(approvals, id, Reject) == {}
  {
    SubmittedRow(es, id, s);
    var h := es + [Submit(id, s)];
    IdentityNeverChanges(h, more, id);
    hide Run, Deciders, ClaimsOf;
    ClaimIsOfPick(Run(h + more), e, id);
    ClaimNeedsIndependentApproval(h + more, e);
  }

  lemma ClaimIsOfPick(s: System, e: Event, id: nat)
    requires ClaimsOf(Step(s, e).claims, id) > ClaimsOf(s.claims, id)
    ensures |Step(s, e).claims| > |s.claims| && e.ClaimNext? && e.pick == id
  {
    hide ClaimsOf;
    if e.ClaimNext? {
      ClaimsAppend(s.claims, ClaimRecord(e.pick, e.worker), id);
    }
  }

  // ----- Claims -----

  /** A claim succeeds exactly on a queued row whose time has come, that nobody wants canceled, and with attempts left. */
  lemma ClaimOutcome(es: seq<Event>, worker: string, now: nat, lease: nat, id: nat)
    ensures var before, after := Run(es), Run(es + [ClaimNext(worker, now, lease, id)]);
            var free := id in before.db.tasks && before.db.tasks[id].status == Queued
                        && !before.db.tasks[id].cancelRequested && before.db.tasks[id].runAfter <= now;
            && (free && before.db.tasks[id].attempt < before.db.tasks[id].maxAttempts ==>
                  && after.claims == before.claims + [ClaimRecord(id, worker)]
                  && after.db.tasks == before.db.tasks[id := before.db.tasks[id].(
                       status := Running, attempt := before.db.tasks[id].attempt + 1, leaseOwner := Some(worker), leaseExpires := Some(now + lease))])
            && (free && before.db.tasks[id].attempt >= before.db.tasks[id].maxAttempts ==>
                  after.claims == before.claims && after.db.tasks == before.db.tasks[id := before.db.tasks[id].(status := DeadLetter)])
            && (!free ==> after == before)
            && after.db.approvals == before.db.approvals
  {
    hide Run;
    OneMore(es, ClaimNext(worker, now, lease, id));
  }

  /** A submission that needs no approval can be claimed at once. */
  lemma FreeSubmissionIsClaimed(es: seq<Event>, id: nat, s: Submission, worker: string, now: nat, lease: nat)
    requires id !in Run(es).db.tasks && !NeedsApproval(s) && now >= s.now
    ensures var h := es + [Submit(id, s)]; Run(h + [ClaimNext(worker, now, lease, id)]).claims == Run(h).claims + [ClaimRecord(id, worker)]
  {
    hide Run;
    SubmittedRow(es, id, s);
    ClaimOutcome(es + [Submit(id, s)], worker, now, lease, id);
  }

  // ----- Decisions -----

  /** Who has decided about a task, either way. */
  function Decided(db: Db, id: nat): set<string> {
    Deciders(db.approvals, id, Approve) + Deciders(db.approvals, id, Reject)
  }

  /** A decision about a waiting task of the tenant, by somebody else who has not decided yet. */
  predicate MayDecide(db: Db, tenant: string, id: nat, actor: string) {
    && id in db.tasks && db.tasks[id].tenant == tenant && db.tasks[id].status == WaitingApproval
    && actor != db.tasks[id].creator && actor !in Decided(db, id)
  }

  /** The row a decision leaves: rejected, approved by enough, or still waiting. */
  function Judged(t: Task, decision: Decision, approvers: nat, now: nat): Task {
    match decision
    case Reject => t.(status := Canceled)
    case Approve => if approvers >= t.required then t.(status := Queued, approvedAt := Some(now), runAfter := now) else t
  }

  /** The actor's decision, and nobody else's, is on record, and the row is as the decisions now say. */
  ghost predicate Recorded(before: Db, after: Db, id: nat, actor: string, decision: Decision, now: nat)
    requires id in before.tasks
  {
    && (forall d :: Deciders(after.approvals, id, d) == Deciders(before.approvals, id, d) + if d == decision then {actor} else {})
    && after.tasks == before.tasks[id := Judged(before.tasks[id], decision, |Deciders(after.approvals, id, Approve)|, now)]
  }

  /** What a decision does: it counts exactly when it may be made, and otherwise changes nothing. */
  lemma JudgeOutcome(es: seq<Event>, tenant: string, id: nat, actor: string, decision: Decision, now: nat)
    ensures var before, after := Run(es), Run(es + [Judge(tenant, id, actor, decision, now)]);
            && (!MayDecide(before.db, tenant, id, actor) ==> after == before)
            && (MayDecide(before.db, tenant, id, actor) ==> Recorded(before.db, after.db, id, actor, decision, now) && after.claims == before.claims)
  {
    OneMore(es, Judge(tenant, id, actor, decision, now));
    RunInv(es);
    var db := Run(es).db;
    hide Run, Deciders, CountRows, HasDecided, Judged, Recorded;
    HasDecidedIff(db.approvals, id, actor);
    if MayDecide(db, tenant, id, actor) {
      DecisionRecorded(db, tenant, id, actor, decision, now);
    }
  }

  lemma HasDecidedIff(approvals: seq<Approval>, id: nat, actor: string)
    ensures HasDecided(approvals, id, actor) <==> actor in Deciders(approvals, id, Approve) + Deciders(approvals, id, Reject)
  {
    if HasDecided(approvals, id, actor) {
      var i :| 0 <= i < |approvals| && approvals[i].task == id && approvals[i].actor == actor;
      assert approvals[i].decision == Approve || approvals[i].decision == Reject;
    }
  }

  lemma DecisionRecorded(db: Db, tenant: string, id: nat, actor: string, decision: Decision, now: nat)
    requires ApprovalsInv(db) && MayDecide(db, tenant, id, actor)
    ensures var r := Decide(db, tenant, id, actor, decision, now); r.Success? && Recorded(db, r.value, id, actor, decision, now)
  {
    hide *;
    var a := Approval(id, actor, decision);
    DecideIs(db, tenant, id, actor, decision, now);
    NewDecider(db, tenant, id, actor, decision);
    RecordedIs(db, a, now);
  }

  lemma DecideIs(db: Db, tenant: string, id: nat, actor: string, decision: Decision, now: nat)
    requires MayDecide(db, tenant, id, actor)
    ensures id in db.tasks
    ensures var all := db.approvals + [Approval(id, actor, decision)];
            Decide(db, tenant, id, actor, decision, now) ==
            Success(Db(db.tasks[id := Judged(db.tasks[id], decision, CountRows(all, id, Approve), now)], all))
  {
    hide Deciders, CountRows, HasDecided;
    HasDecidedIff(db.approvals, id, actor);
  }

  lemma RecordedIs(db: Db, a: Approval, now: nat)
    requires a.task in db.tasks && OnePerActor(db.approvals + [a])
    ensures var all := db.approvals + [a];
            Recorded(db, Db(db.tasks[a.task := Judged(db.tasks[a.task], a.decision, CountRows(all, a.task, Approve), now)], all),
                     a.task, a.actor, a.decision, now)
  {
    hide Deciders, CountRows, OnePerActor, Judged;
    RowsCountActors(db.approvals + [a], a.task, Approve);
    forall d
      ensures Deciders(db.approvals + [a], a.task, d) == Deciders(db.approvals, a.task, d) + if d == a.decision then {a.actor} else {}
    {
      DecidersAppend(db.approvals, a, a.task, d);
    }
  }

  lemma NewDecider(db: Db, tenant: string, id: nat, actor: string, decision: Decision)
    requires ApprovalsInv(db) && MayDecide(db, tenant, id, actor)
    ensures OnePerActor(db.approvals + [Approval(id, actor, decision)])
  {
    HasDecidedIff(db.approvals, id, actor);
    hide Deciders;
  }

  /** Which error a decision meets, in the order of the checks. */
  lemma DecisionErrors(db: Db, tenant: string, id: nat, actor: string, decision: Decision, now: nat)
    ensures var r := Decide(db, tenant, id, actor, decision, now);
            && (r.Failure? <==> !MayDecide(db, tenant, id, actor))
            && (r == Failure(TaskNotFound) <==> id !in db.tasks || db.tasks[id].tenant != tenant)
            && (r == Failure(NotWaiting) <==> id in db.tasks && db.tasks[id].tenant == tenant && db.tasks[id].status != WaitingApproval)
            && (r == Failure(AlreadyDecided) ==> actor in Decided(db, id))
            && (r == Failure(OwnTask) ==> actor == db.tasks[id].creator)
  {
    hide CountRows, HasDecided, Deciders;
    HasDecidedIff(db.approvals, id, actor);
  }

  /** The approvals of some actors, one after the other. */
  function Approvals(tenant: string, id: nat, actors: seq<string>, now: nat): (es: seq<Event>)
    ensures |es| == |actors|
  {
    seq(|actors|, i requires 0 <= i < |actors| => Judge(tenant, id, actors[i], Approve, now))
  }

  function ActorSet(actors: seq<string>): set<string> {
    set a | a in actors
  }

  ghost predicate Different(actors: seq<string>, creator: string) {
    && (forall i, j :: 0 <= i < j < |actors| ==> actors[i] != actors[j])
    && creator !in actors
  }

  /** These approvals are in, and the task waits for more of them or is free to be claimed. */
  ghost predicate Collected(db: Db, id: nat, s: Submission, actors: seq<string>, now: nat) {
    && id in db.tasks && db.tasks[id].tenant == s.tenant && db.tasks[id].creator == s.creator && db.tasks[id].required == Needed(s)
    && db.tasks[id].attempt < db.tasks[id].maxAttempts && !db.tasks[id].cancelRequested
    && Deciders(db.approvals, id, Approve) == ActorSet(actors) && Deciders(db.approvals, id, Reject) == {}
    && (if |actors| < Needed(s) then db.tasks[id].status == WaitingApproval
        else db.tasks[id].status == Queued && db.tasks[id].approvedAt == Some(now) && db.tasks[id].runAfter == now)
  }

  /** After the first approvals of a fresh submission it still waits, until there are as many as it needs. */
  lemma {:induction false} ApprovalsCollect(es: seq<Event>, id: nat, s: Submission, actors: seq<string>, now: nat)
    requires id !in Run(es).db.tasks && NeedsApproval(s) && Different(actors, s.creator) && |actors| <= Needed(s)
    ensures Collected(Run(es + [Submit(id, s)] + Approvals(s.tenant, id, actors, now)).db, id, s, actors, now)
  {
    hide Run, Collected, MayDecide, Recorded, NeedsApproval;
    var h := es + [Submit(id, s)];
    if actors == [] {
      assert h + Approvals(s.tenant, id, actors, now) == h;
      NothingCollected(es, id, s, now);
    } else {
      var n := |actors| - 1;
      var front, last := actors[..n], actors[n];
      ApprovalsCollect(es, id, s, front, now);
      var before := h + Approvals(s.tenant, id, front, now);
      var judge := Judge(s.tenant, id, last, Approve, now);
      assert before + [judge] == h + Approvals(s.tenant, id, actors, now);
      JudgeOutcome(before, s.tenant, id, last, Approve, now);
      assert front + [last] == actors;
      CollectNext(Run(before).db, Run(before + [judge]).db, id, s, front, last, now);
    }
  }

  lemma NothingCollected(es: seq<Event>, id: nat, s: Submission, now: nat)
    requires id !in Run(es).db.tasks && NeedsApproval(s)
    ensures Collected(Run(es + [Submit(id, s)]).db, id, s, [], now)
  {
    hide Run;
    FreshDecided(es, id, s);
    SubmittedRow(es, id, s);
    hide Deciders;
  }

  lemma CollectNext(before: Db, after: Db, id: nat, s: Submission, front: seq<string>, last: string, now: nat)
    requires Collected(before, id, s, front, now) && Different(front + [last], s.creator) && |front| < Needed(s)
    requires MayDecide(before, s.tenant, id, last) ==> Recorded(before, after, id, last, Approve, now)
    ensures Collected(after, id, s, front + [last], now)
  {
    hide Deciders, ActorSet, NeedsApproval;
    assert (front + [last])[|front|] == last;
    assert forall i :: 0 <= i < |front| ==> (front + [last])[i] == front[i];
    ActorSetNext(front, last);
    ActorSetSize(front + [last]);
  }

  lemma FreshDecided(es: seq<Event>, id: nat, s: Submission)
    requires id !in Run(es).db.tasks
    ensures Deciders(Run(es + [Submit(id, s)]).db.approvals, id, Approve) == {} == Deciders(Run(es + [Submit(id, s)]).db.approvals, id, Reject)
  {
    RunInv(es);
    SubmittedRow(es, id, s);
    hide Run;
  }

  lemma ActorSetNext(front: seq<string>, last: string)
    ensures ActorSet(front + [last]) == ActorSet(front) + {last}
    ensures last in ActorSet(front) <==> last in front
  {
  }

  lemma {:induction false} ActorSetSize(actors: seq<string>)
    requires forall i, j :: 0 <= i < j < |actors| ==> actors[i] != actors[j]
    ensures |ActorSet(actors)| == |actors|
  {
    if actors != [] {
      hide ActorSet;
      var n := |actors| - 1;
      ActorSetSize(actors[..n]);
      ActorSetNext(actors[..n], actors[n]);
      assert actors[..n] + [actors[n]] == actors;
    }
  }

  /** Exactly as many approvals as a submission needs, from different others, let it be claimed. */
  lemma ApprovedSubmissionIsClaimed(es: seq<Event>, id: nat, s: Submission, actors: seq<string>, at: nat, worker: string, now: nat, lease: nat)
    requires id !in Run(es).db.tasks && NeedsApproval(s) && Different(actors, s.creator) && |actors| == Needed(s) && now >= at
    ensures var h := es + [Submit(id, s)] + Approvals(s.tenant, id, actors, at);
            Run(h + [ClaimNext(worker, now, lease, id)]).claims == Run(h).claims + [ClaimRecord(id, worker)]
  {
    hide Run, Deciders, NeedsApproval;
    ApprovalsCollect(es, id, s, actors, at);
    ClaimOutcome(es + [Submit(id, s)] + Approvals(s.tenant, id, actors, at), worker, now, lease, id);
  }

  // ----- Cancel and retry -----

  /** A cancel ends a task that is not running and flags one that is; either way nobody claims it next. */
  lemma CancelOutcome(es: seq<Event>, id: nat, running: bool, worker: string, now: nat, lease: nat)
    requires id in Run(es).db.tasks
    ensures var t, h := Run(es).db.tasks[id], es + [Cancel(id, running)];
            && Run(h).db.tasks == Run(es).db.tasks[id :=
                 if running then t.(cancelRequested := true)
                 else t.(status := Canceled, cancelRequested := true, leaseOwner := None, leaseExpires := None)]
            && Run(h + [ClaimNext(worker, now, lease, id)]) == Run(h)
  {
    hide Run;
    OneMore(es, Cancel(id, running));
    ClaimOutcome(es + [Cancel(id, running)], worker, now, lease, id);
  }

  ghost predicate FailedListed(s: System) {
    forall id :: id in s.db.tasks && s.db.tasks[id].status in {Failed, DeadLetter} ==> id in s.failed
  }

  lemma StepListsFailed(s: System, e: Event)
    requires FailedListed(s)
    ensures FailedListed(Step(s, e))
  {
    hide ClaimsOf, CountRows, HasDecided;
  }

  lemma {:induction false} RunListsFailed(es: seq<Event>)
    ensures FailedListed(Run(es))
  {
    if es != [] {
      hide Step, FailedListed;
      RunListsFailed(es[..|es| - 1]);
      StepListsFailed(Run(es[..|es| - 1]), es[|es| - 1]);
    } else {
      assert FailedListed(START);
    }
  }

  /** A retry starts a failed or dead-lettered task over: no attempts used, no cancel request, free to be claimed at once. */
  lemma RetryOutcome(es: seq<Event>, id: nat, now: nat, worker: string, later: nat, lease: nat)
    requires id in Run(es).db.tasks && Run(es).db.tasks[id].status in {Failed, DeadLetter} && later >= now
    ensures var t, h := Run(es).db.tasks[id], es + [Retry(id, now)];
            && Run(h).db.tasks == Run(es).db.tasks[id := t.(status := Queued, attempt := 0, cancelRequested := false, runAfter := now,
                                                            leaseOwner := None, leaseExpires := None)]
            && Run(h + [ClaimNext(worker, later, lease, id)]).claims == Run(h).claims + [ClaimRecord(id, worker)]
  {
    hide Run;
    RunListsFailed(es);
    SubmittedTasksAreBounded(es, id);
    OneMore(es, Retry(id, now));
    ClaimOutcome(es + [Retry(id, now)], worker, later, lease, id);
  }

  // ----- Sweeps -----

  /** The sweep takes every expired lease back, at the attempts left to it, and touches nothing else. */
  lemma SweepOutcome(es: seq<Event>, now: nat, id: nat)
    requires id in Run(es).db.tasks
    ensures var t, after := Run(es).db.tasks[id], Run(es + [Sweep(now)]);
            && id in after.db.tasks && after.claims == Run(es).claims && after.db.approvals == Run(es).db.approvals
            && var t' := after.db.tasks[id];
               if t.status == Running && t.leaseExpires.Some? && t.leaseExpires.value < now then
                 && t'.leaseOwner.None? && t'.leaseExpires.None?
                 && (if t.attempt < t.maxAttempts then t'.status == Queued && t'.runAfter == now else t'.status == DeadLetter && t'.runAfter == t.runAfter)
                 && t' == t.(status := t'.status, runAfter := t'.runAfter, leaseOwner := None, leaseExpires := None)
               else t' == t
  {
    hide Run;
    OneMore(es, Sweep(now));
  }

  /** A task whose worker stopped renewing is claimed by another one after the sweep, while attempts are left. */
  lemma LostTaskIsClaimedAgain(es: seq<Event>, now: nat, id: nat, worker: string, lease: nat)
    requires id in Run(es).db.tasks && var t := Run(es).db.tasks[id];
             && t.leaseExpires.Some? && t.leaseExpires.value < now && t.attempt < t.maxAttempts && !t.cancelRequested
    ensures var h := es + [Sweep(now)]; Run(h + [ClaimNext(worker, now, lease, id)]).claims == Run(h).claims + [ClaimRecord(id, worker)]
  {
    RunningIffOwned(es, id);
    hide Run;
    SweepOutcome(es, now, id);
    ClaimOutcome(es + [Sweep(now)], worker, now, lease, id);
  }
}
