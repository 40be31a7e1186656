/** The ledger of browser side effects, on top of the task and approval tables. */
module BrowserEffects {
  import opened Wrappers
  import opened Text
  import Tasks
  import TaskHistory

  datatype EffectStatus = NotStarted | Executing | EffectSucceeded | EffectFailed | Unknown | EffectCanceled

  /** A row of `browser_effects3`. */
  datatype Effect = Effect(tenant: string, key: string, digest: string, approval: nat, status: EffectStatus)

  datatype EffectError =
    | BadKey
    | BadDigest
    | NotApprovedMutation
    | ApprovalCanceled
    | NoApprovalRequired
    | ApprovalsMissing
    | AlreadyBound
    | KeyReused
    | EffectNotFound
    | BadStatus
    | NotExecuting
    | NotUnknown

  // ----- Arguments -----

  predicate KeyChar(c: char) {
    'A' <= c <= 'Z' || 'a' <= c <= 'z' || '0' <= c <= '9' || c in "._:-"
  }

  predicate ValidKey(s: string) {
    1 <= |s| <= 128 && forall i :: 0 <= i < |s| ==> KeyChar(s[i])
  }

  function Lower(s: string): string {
    seq(|s|, i requires 0 <= i < |s| => if 'A' <= s[i] <= 'Z' then s[i] - 'A' + 'a' else s[i])
  }

  predicate ValidDigest(s: string) {
    |s| == 64 && forall i :: 0 <= i < |s| ==> '0' <= s[i] <= '9' || 'a' <= s[i] <= 'f'
  }

  /** A digest may be given in either case, and is stored in lower case. */
  lemma DigestForm(s: string)
    ensures ValidDigest(Lower(s)) <==>
              |s| == 64 && forall i :: 0 <= i < |s| ==> '0' <= s[i] <= '9' || 'a' <= s[i] <= 'f' || 'A' <= s[i] <= 'F'
    ensures ValidDigest(s) ==> Lower(s) == s
  {
    assert forall i :: 0 <= i < |s| ==> Lower(s)[i] == if 'A' <= s[i] <= 'Z' then s[i] - 'A' + 'a' else s[i];
  }

  // ----- Transactions -----

  /** The checks `begin_browser_effect` makes on the approval task, in order. */
  function ApprovalError(db: Tasks.Db, tenant: string, id: nat): Option<EffectError> {
    if id !in db.tasks || db.tasks[id].tenant != tenant || !db.tasks[id].mutating || db.tasks[id].approvedAt.None? then
      Some(NotApprovedMutation)
    else if db.tasks[id].cancelRequested || db.tasks[id].status in {Tasks.Canceled, Tasks.Failed, Tasks.DeadLetter} then
      Some(ApprovalCanceled)
    else if db.tasks[id].required < 1 then Some(NoApprovalRequired)
    else if Tasks.CountRows(db.approvals, id, Tasks.Reject) > 0
         || |Tasks.Deciders(db.approvals, id, Tasks.Approve)| < db.tasks[id].required then Some(ApprovalsMissing)
    else None
  }

  type Effects = map<nat, Effect>

  predicate Conflicts(effects: Effects, e: Effect) {
    exists id :: id in effects && effects[id].tenant == e.tenant && (effects[id].key == e.key || effects[id].approval == e.approval)
  }

  predicate HasKey(effects: Effects, id: nat, tenant: string, key: string) {
    id in effects && effects[id].tenant == tenant && effects[id].key == key
  }

  /** The unique keys of the table. */
  ghost predicate UniqueKeys(effects: Effects) {
    forall i, j :: i in effects && j in effects && i != j && effects[i].tenant == effects[j].tenant ==>
                     effects[i].key != effects[j].key && effects[i].approval != effects[j].approval
  }

  /** `INSERT ... ON CONFLICT DO NOTHING`. */
  function Insert(effects: Effects, id: nat, e: Effect): Effects {
    if Conflicts(effects, e) then effects else effects[id := e]
  }

  predicate MayStart(db: Tasks.Db, e: Effect) {
    e.status == NotStarted && ApprovalError(db, e.tenant, e.approval).None?
  }

  // ----- The ledger -----

  class Ledger {
    var effects: Effects

    constructor ()
      ensures effects == map[]
    {
      effects := map[];
    }

    /**
     * `begin_browser_effect`: the checks in order; then a new row unless an existing one is in its
     * way, and in that case the row of an equal earlier call, or the error that says what is.
     */
    method Begin(db: Tasks.Db, id: nat, tenant: string, rawKey: string, rawDigest: string, approval: nat) returns (r: Result<nat, EffectError>)
      requires id !in effects && UniqueKeys(effects)
      modifies this
      ensures var key, digest := Strip(rawKey), Lower(Strip(rawDigest));
              var e := Effect(tenant, key, digest, approval, NotStarted);
              if !ValidKey(key) then r == Failure(BadKey)
              else if !ValidDigest(digest) then r == Failure(BadDigest)
              else if ApprovalError(db, tenant, approval).Some? then r == Failure(ApprovalError(db, tenant, approval).value)
              else if forall other :: other in old(effects) && old(effects)[other].tenant == tenant ==>
                                        old(effects)[other].key != key && old(effects)[other].approval != approval then
                r == Success(id) && effects == old(effects)[id := e]
              else if forall other :: other in old(effects) ==> !HasKey(old(effects), other, tenant, key) then r == Failure(AlreadyBound)
              else exists other :: && HasKey(old(effects), other, tenant, key)
                                   && r == if old(effects)[other].digest == digest && old(effects)[other].approval == approval
                                           then Success(other) else Failure(KeyReused)
      ensures r != Success(id) ==> effects == old(effects)
    {
      var key, digest := Strip(rawKey), Lower(Strip(rawDigest));
      if !ValidKey(key) {
        return Failure(BadKey);
      }
      if !ValidDigest(digest) {
        return Failure(BadDigest);
      }
      var error := ApprovalError(db, tenant, approval);
      if error.Some? {
        return Failure(error.value);
      }
      var e := Effect(tenant, key, digest, approval, NotStarted);
      if !Conflicts(effects, e) {
        effects := effects[id := e];
        assert HasKey(effects, id, tenant, key);
        return Success(id);
      }
      if !exists other :: other in effects && HasKey(effects, other, tenant, key) {
        return Failure(AlreadyBound);
      }
      var row :| row in effects && HasKey(effects, row, tenant, key);
      if effects[row].digest != digest || effects[row].approval != approval {
        return Failure(KeyReused);
      }
      r := Success(row);
    }

    /** `claim_browser_effect`: true once, while the approval still stands. */
    method ClaimEffect(db: Tasks.Db, tenant: string, id: nat) returns (r: Result<bool, EffectError>)
      modifies this
      ensures r == (if id !in old(effects) || old(effects)[id].tenant != tenant then Failure(EffectNotFound)
                    else Success(old(effects)[id].status == NotStarted && ApprovalError(db, tenant, old(effects)[id].approval).None?))
      ensures effects == (if r == Success(true) then old(effects)[id := old(effects)[id].(status := Executing)] else old(effects))
    {
      if id !in effects || effects[id].tenant != tenant {
        return Failure(EffectNotFound);
      }
      var changed := MayStart(db, effects[id]);
      if changed {
        effects := effects[id := effects[id].(status := Executing)];
      }
      r := Success(changed);
    }

    /** `finish_browser_effect` and `reconcile_browser_effect`: a guarded move to a final status, with an optional result digest. */
    method Move(tenant: string, id: nat, target: EffectStatus, rawResult: string, reconcile: bool) returns (r: Option<EffectError>)
      modifies this
      ensures r == (if target !in (if reconcile then {EffectSucceeded, EffectFailed}
                                   else {EffectSucceeded, EffectFailed, Unknown, EffectCanceled}) then Some(BadStatus)
                    else if Strip(rawResult) != [] && !ValidDigest(Lower(Strip(rawResult))) then Some(BadDigest)
                    else if id !in old(effects) || old(effects)[id].tenant != tenant then Some(EffectNotFound)
                    else if reconcile && old(effects)[id].status != Unknown then Some(NotUnknown)
                    else if !reconcile && old(effects)[id].status != Executing then Some(NotExecuting)
                    else None)
      ensures effects == (if r.None? then old(effects)[id := old(effects)[id].(status := target)] else old(effects))
    {
      if !MoveTarget(target, reconcile) {
        return Some(BadStatus);
      }
      var result := Lower(Strip(rawResult));
      if result != [] && !ValidDigest(result) {
        return Some(BadDigest);
      }
      if id !in effects || effects[id].tenant != tenant {
        return Some(EffectNotFound);
      }
      if effects[id].status != MoveSource(reconcile) {
        return Some(if reconcile then NotUnknown else NotExecuting);
      }
      effects := effects[id := effects[id].(status := target)];
      r := None;
    }
  }

  predicate MoveTarget(target: EffectStatus, reconcile: bool) {
    if reconcile then target in {EffectSucceeded, EffectFailed} else target in {EffectSucceeded, EffectFailed, Unknown, EffectCanceled}
  }

  function MoveSource(reconcile: bool): EffectStatus {
    if reconcile then Unknown else Executing
  }

  // ----- Histories -----

  /** The tables, and the effects in the order they were claimed. */
  datatype System = System(tasks: TaskHistory.System, effects: Effects, claimed: seq<nat>)

  datatype Event =
    | TaskEvent(e: TaskHistory.Event)
    | BeginEffect(id: nat, tenant: string, key: string, digest: string, approval: nat)
    | Claim(tenant: string, id: nat)
    | MoveEffect(tenant: string, id: nat, target: EffectStatus, reconcile: bool)

  function Step(s: System, e: Event): System {
    match e
    case TaskEvent(t) => s.(tasks := TaskHistory.Step(s.tasks, t))
    case BeginEffect(id, tenant, key, digest, approval) =>
      if id in s.effects || !ValidKey(key) || !ValidDigest(digest) || ApprovalError(s.tasks.db, tenant, approval).Some? then s
      else s.(effects := Insert(s.effects, id, Effect(tenant, key, digest, approval, NotStarted)))
    case Claim(tenant, id) =>
      if id in s.effects && s.effects[id].tenant == tenant && MayStart(s.tasks.db, s.effects[id]) then
        s.(effects := s.effects[id := s.effects[id].(status := Executing)], claimed := s.claimed + [id])
      else s
    case MoveEffect(tenant, id, target, reconcile) =>
      if id in s.effects && s.effects[id].tenant == tenant && MoveTarget(target, reconcile) && s.effects[id].status == MoveSource(reconcile) then
        s.(effects := s.effects[id := s.effects[id].(status := target)])
      else s
  }

  function Run(es: seq<Event>): System {
    if es == [] then System(TaskHistory.START, map[], []) else Step(Run(es[..|es| - 1]), es[|es| - 1])
  }

  ghost predicate Inv(s: System) {
    UniqueKeys(s.effects) && ClaimedIff(s.effects, s.claimed) && TasksExist(s.effects, s.tasks.db.tasks)
  }

  /** Every effect belongs to a task of its own tenant. */
  ghost predicate TasksExist(effects: Effects, tasks: map<nat, Tasks.Task>) {
    forall id :: id in effects ==> effects[id].approval in tasks && tasks[effects[id].approval].tenant == effects[id].tenant
  }

  ghost predicate ClaimedIff(effects: Effects, claimed: seq<nat>) {
    && (forall id :: id in claimed <==> id in effects && effects[id].status != NotStarted)
    && (forall i, j :: 0 <= i < j < |claimed| ==> claimed[i] != claimed[j])
  }

  lemma TaskKeepsTenant(s: TaskHistory.System, e: TaskHistory.Event, id: nat)
    requires id in s.db.tasks
    ensures id in TaskHistory.Step(s, e).db.tasks && TaskHistory.Step(s, e).db.tasks[id].tenant == s.db.tasks[id].tenant
  {
  }

  lemma TasksKeepTenants(effects: Effects, s: TaskHistory.System, e: TaskHistory.Event)
    requires TasksExist(effects, s.db.tasks)
    ensures TasksExist(effects, TaskHistory.Step(s, e).db.tasks)
  {
    hide TaskHistory.Step;
    forall id | id in effects
      ensures effects[id].approval in TaskHistory.Step(s, e).db.tasks
      ensures TaskHistory.Step(s, e).db.tasks[effects[id].approval].tenant == effects[id].tenant
    {
      TaskKeepsTenant(s, e, effects[id].approval);
    }
  }

  lemma InsertKeepsInv(s: System, id: nat, e: Effect)
    requires Inv(s) && id !in s.effects && e.status == NotStarted
    requires e.approval in s.tasks.db.tasks && s.tasks.db.tasks[e.approval].tenant == e.tenant
    ensures Inv(s.(effects := Insert(s.effects, id, e)))
  {
  }

  /** A row moved to another status, and added to the claimed ones if it had not started. */
  lemma StatusKeepsInv(s: System, id: nat, status: EffectStatus)
    requires Inv(s) && id in s.effects && status != NotStarted
    ensures var claimed := if s.effects[id].status == NotStarted then s.claimed + [id] else s.claimed;
            Inv(s.(effects := s.effects[id := s.effects[id].(status := status)], claimed := claimed))
  {
  }

  lemma StepKeepsInv(s: System, e: Event)
    requires Inv(s)
    ensures Inv(Step(s, e))
  {
    hide TaskHistory.Step, UniqueKeys, ClaimedIff, Insert;
    match e {
      case TaskEvent(t) => TasksKeepTenants(s.effects, s.tasks, t);
      case BeginEffect(id, tenant, key, digest, approval) =>
        hide Inv, ValidKey, ValidDigest, Tasks.CountRows, Tasks.Deciders;
        if id !in s.effects && ApprovalError(s.tasks.db, tenant, approval).None? {
          InsertKeepsInv(s, id, Effect(tenant, key, digest, approval, NotStarted));
        }
      case Claim(_, id) =>
        hide Inv, ApprovalError;
        if id in s.effects {
          StatusKeepsInv(s, id, Executing);
        }
      case MoveEffect(_, id, target, _) =>
        hide Inv;
        if id in s.effects && target != NotStarted {
          StatusKeepsInv(s, id, target);
        }
    }
  }

  lemma {:induction false} RunInv(es: seq<Event>)
    ensures Inv(Run(es)) && TaskHistory.Inv(Run(es).tasks)
  {
    if es == [] {
      assert TaskHistory.Inv(TaskHistory.START);
    } else {
      hide Step, Inv, TaskHistory.Inv;
      var before, e := es[..|es| - 1], es[|es| - 1];
      RunInv(before);
      StepKeepsInv(Run(before), e);
      StepTasks(Run(before), e);
    }
  }

  lemma StepTasks(s: System, e: Event)
    requires TaskHistory.Inv(s.tasks)
    ensures TaskHistory.Inv(Step(s, e).tasks)
  {
    hide TaskHistory.Inv, TaskHistory.Step;
    if e.TaskEvent? {
      TaskHistory.StepKeepsInv(s.tasks, e.e);
    }
  }

  /** Over all histories, no effect is claimed twice and no approval task starts two effects. */
  lemma ClaimedAtMostOnce(es: seq<Event>, i: nat, j: nat)
    requires i < j < |Run(es).claimed|
    ensures var s := Run(es);
            && s.claimed[i] in s.effects && s.claimed[j] in s.effects
            && s.claimed[i] != s.claimed[j]
            && s.effects[s.claimed[i]].approval != s.effects[s.claimed[j]].approval
  {
    RunInv(es);
    var s := Run(es);
    assert s.claimed[i] in s.claimed && s.claimed[j] in s.claimed;
  }

  /**
   * A claim that succeeds was approved: by at least one actor other than the requester, by the
   * required number of them, and rejected by nobody.
   */
  lemma ClaimIsApproved(es: seq<Event>, e: Event)
    requires |Step(Run(es), e).claimed| > |Run(es).claimed|
    ensures e.Claim? && e.id in Run(es).effects && Run(es).effects[e.id].status == NotStarted
    ensures var db, id := Run(es).tasks.db, Run(es).effects[e.id].approval;
            && id in db.tasks && db.tasks[id].required >= 1 && !db.tasks[id].cancelRequested
            && |Tasks.Deciders(db.approvals, id, Tasks.Approve)| >= db.tasks[id].required
            && (exists actor :: actor in Tasks.Deciders(db.approvals, id, Tasks.Approve) && actor != db.tasks[id].creator)
            && db.tasks[id].creator !in Tasks.Deciders(db.approvals, id, Tasks.Approve)
            && Tasks.Deciders(db.approvals, id, Tasks.Reject) == {}
  {
    RunInv(es);
    var s := Run(es);
    var db, id := s.tasks.db, s.effects[e.id].approval;
    assert TaskHistory.TaskInv(s.tasks, id);
    TaskHistory.ApprovedByOthers(s.tasks, id);
    var approvers := Tasks.Deciders(db.approvals, id, Tasks.Approve);
    assert approvers != {};
    var actor :| actor in approvers;
  }

  /** The approval of a task stands: an approved mutation of the tenant that needed approvals, neither canceled nor failed. */
  predicate Stands(db: Tasks.Db, tenant: string, id: nat) {
    && id in db.tasks && db.tasks[id].tenant == tenant && db.tasks[id].mutating && db.tasks[id].approvedAt.Some?
    && db.tasks[id].required >= 1 && !db.tasks[id].cancelRequested
    && db.tasks[id].status in {Tasks.Queued, Tasks.WaitingApproval, Tasks.Running, Tasks.Succeeded}
  }

  /**
   * In every history the checks pass exactly when the approval stands, and which error is met is decided
   * by the row alone: the mark implies the approvals that are counted again.
   */
  lemma ApprovalStandsIff(es: seq<Event>, tenant: string, id: nat)
    ensures var db := Run(es).tasks.db; var error := ApprovalError(db, tenant, id);
            && (error.None? <==> Stands(db, tenant, id))
            && (error == Some(NotApprovedMutation) <==>
                  id !in db.tasks || db.tasks[id].tenant != tenant || !db.tasks[id].mutating || db.tasks[id].approvedAt.None?)
            && (error == Some(NoApprovalRequired) ==> db.tasks[id].required == 0)
            && (error == Some(ApprovalCanceled) ==> db.tasks[id].cancelRequested || db.tasks[id].status in {Tasks.Canceled, Tasks.Failed, Tasks.DeadLetter})
            && error != Some(ApprovalsMissing)
  {
    RunInv(es);
    var s := Run(es).tasks;
    hide Run, Tasks.Deciders, Tasks.CountRows;
    if id in s.db.tasks && s.db.tasks[id].approvedAt.Some? {
      assert TaskHistory.TaskInv(s, id);
      TaskHistory.ApprovedByOthers(s, id);
    }
  }

  predicate Settled(status: EffectStatus) {
    status in {EffectSucceeded, EffectFailed, EffectCanceled}
  }

  ghost predicate Later(s: System, t: System, id: nat)
    requires id in s.effects && s.effects[id].status != NotStarted
  {
    && id in t.effects && t.effects[id].status != NotStarted && t.effects[id].approval == s.effects[id].approval
    && (Settled(s.effects[id].status) ==> t.effects[id] == s.effects[id])
  }

  lemma StepIsLater(s: System, e: Event, id: nat)
    requires id in s.effects && s.effects[id].status != NotStarted
    ensures Later(s, Step(s, e), id)
  {
  }

  /** Finished states other than `unknown` never change; a started effect never becomes startable again. */
  lemma {:induction false} SettledStays(es: seq<Event>, more: seq<Event>, id: nat)
    requires id in Run(es).effects && Run(es).effects[id].status != NotStarted
    ensures id in Run(es + more).effects && Run(es + more).effects[id].status != NotStarted
    ensures Run(es + more).effects[id].approval == Run(es).effects[id].approval
    ensures Settled(Run(es).effects[id].status) ==> Run(es + more).effects[id] == Run(es).effects[id]
  {
    hide Step;
    if more == [] {
      assert es + more == es;
    } else {
      var last := |more| - 1;
      SettledStays(es, more[..last], id);
      assert (es + more)[..|es + more| - 1] == es + more[..last];
      StepIsLater(Run(es + more[..last]), more[last], id);
    }
  }
}
