/** The agent loop on top of the task table: what its reads of the row imply for the tools it runs. */
module ExecutionApprovals {
  import Tasks
  import H = TaskHistory
  import A = TaskApprovals
  import opened ExecutionLoop

  /** What a read of the task row shows the loop. */
  function ViewOf(db: Tasks.Db, id: nat): View
    requires id in db.tasks
  {
    View(db.tasks[id].cancelRequested, db.tasks[id].approvedAt.Some?)
  }

  /**
   * The loop runs on a claim: task `id` was claimed in the history before event `from`, the loop's
   * parameters are those of its row, and read number `n` sees the row after `at(n)` events, some time
   * after the claim. Everybody else goes on meanwhile.
   */
  ghost predicate OnClaim(p: Params, w: World, es: seq<H.Event>, from: nat, id: nat, at: nat -> nat) {
    && from <= |es| && id in H.Run(es[..from]).db.tasks && H.ClaimsOf(H.Run(es[..from]).claims, id) > 0
    && p.required == H.Run(es[..from]).db.tasks[id].required && p.mutating == H.Run(es[..from]).db.tasks[id].mutating
    && forall n :: from <= at(n) <= |es| && id in H.Run(es[..at(n)]).db.tasks && w.views(n) == ViewOf(H.Run(es[..at(n)]).db, id)
  }

  /** The required number of distinct actors other than the creator approved, and nobody rejected. */
  ghost predicate Independent(db: Tasks.Db, id: nat) {
    && id in db.tasks
    && |Tasks.Deciders(db.approvals, id, Tasks.Approve)| >= db.tasks[id].required
    && db.tasks[id].creator !in Tasks.Deciders(db.approvals, id, Tasks.Approve)
    && Tasks.Deciders(db.approvals, id, Tasks.Reject) == {}
  }

  lemma ClaimedTask(s: H.System, id: nat)
    requires H.Inv(s) && A.EverySigned(s) && id in s.db.tasks && H.ClaimsOf(s.claims, id) > 0
    ensures Independent(s.db, id) && (s.db.tasks[id].required > 0 ==> s.db.tasks[id].approvedAt.Some?)
  {
    hide H.ClaimsOf;
    assert H.TaskInv(s, id);
    H.ApprovedByOthers(s, id);
    assert A.Signed(s, id);
  }

  /** Some time after its claim, a task has its approvals and its mark. */
  lemma ClaimedState(es: seq<H.Event>, from: nat, id: nat, k: nat)
    requires from <= k <= |es| && id in H.Run(es[..from]).db.tasks && H.ClaimsOf(H.Run(es[..from]).claims, id) > 0
    ensures var db := H.Run(es[..k]).db;
            && Independent(db, id) && db.tasks[id].required == H.Run(es[..from]).db.tasks[id].required
            && db.tasks[id].mutating == H.Run(es[..from]).db.tasks[id].mutating
            && (db.tasks[id].required > 0 ==> db.tasks[id].approvedAt.Some? && db.tasks[id].mutating)
  {
    hide H.Run, H.ClaimsOf, H.Inv, A.EverySigned, Independent;
    var more := es[from..k];
    assert es[..k] == es[..from] + more;
    A.IdentityNeverChanges(es[..from], more, id);
    A.ClaimsStay(es[..from], more, id);
    H.RunInv(es[..k]);
    A.AllSigned(es[..k]);
    A.SubmittedTasksAreBounded(es[..k], id);
    ClaimedTask(H.Run(es[..k]), id);
  }

  /** The read whose view a handled call acted on. */
  lemma ViewRead(p: Params, w: World, log: Log, i: nat) returns (n: nat)
    requires Legal(p, w, log) && i < |log| && log[i].Handled?
    ensures log[i].view == w.views(n) && exists children, fails, rejects :: log[i].how == Answer(p, children, log[i].call, log[i].view, fails, rejects)
  {
    hide Turns, Spent, Used, Children, Calls, Dispatches, Streak, CurrentTier, Cost, Pending, Answer;
    n := Turns(log[..i]) + Calls(log[..i]);
    assert log[i] == Next(p, w, log[..i]);
    assert log[i].how == Answer(p, Children(log[..i]), log[i].call, log[i].view, w.toolFails(Calls(log[..i])), w.handoffRejects(Calls(log[..i])));
  }

  /**
   * In every history and against every provider: a mutating or policy-bound tool that ran was granted,
   * a mutating one ran for a task declared mutating, and in the very state its row was read in the
   * task had the required number of distinct approvers other than its creator and no rejection.
   */
  lemma MutatingToolsAreApproved(p: Params, w: World, log: Log, i: nat, es: seq<H.Event>, from: nat, id: nat, at: nat -> nat) returns (n: nat)
    requires Legal(p, w, log) && OnClaim(p, w, es, from, id, at)
    requires i < |log| && log[i].Handled? && log[i].how.Executed? && log[i].call.name in p.mutatingTools + p.approvalTools
    ensures at(n) <= |es| && log[i].view == w.views(n) && log[i].call.name in p.allowed
    ensures var db := H.Run(es[..at(n)]).db;
            && Independent(db, id)
            && (log[i].call.name in p.mutatingTools ==> db.tasks[id].mutating)
            && (db.tasks[id].required > 0 ==> db.tasks[id].mutating && db.tasks[id].approvedAt.Some?)
  {
    hide Legal, H.Run, H.ClaimsOf;
    n := ViewRead(p, w, log, i);
    ToolsRunOnlyWhenCleared(p, w, log, i);
    ClaimedState(es, from, id, at(n));
  }

  /**
   * The two approval checks of the loop never fire on a claimed task, because claims already waited for
   * the approvals: a granted tool runs exactly when it is not a mutating one on an undeclared task.
   */
  lemma ApprovalChecksNeverFire(p: Params, w: World, log: Log, i: nat, es: seq<H.Event>, from: nat, id: nat, at: nat -> nat)
    requires Legal(p, w, log) && OnClaim(p, w, es, from, id, at) && i < |log| && log[i].Handled?
    ensures log[i].how !in {ApprovalsPending, PolicyWantsApproval}
    ensures log[i].how.Executed? <==>
              && log[i].call.name in p.allowed && log[i].call.name != "agent_delegate"
              && (log[i].call.name in p.mutatingTools ==> p.mutating)
  {
    hide Legal, H.Run, H.ClaimsOf;
    var n := ViewRead(p, w, log, i);
    ClaimedState(es, from, id, at(n));
  }
}
