/** The task table: claims, leases, retries and approvals, one transaction at a time. */
module Tasks {
  import opened Wrappers

  datatype Status = Queued | WaitingApproval | Running | Succeeded | Failed | DeadLetter | Canceled

  datatype Decision = Approve | Reject

  /** A row of `tasks2`; times are whole seconds. */
  datatype Task = Task(
    tenant: string, creator: string, mutating: bool, required: nat, priority: int, created: nat,
    status: Status, attempt: nat, maxAttempts: nat, runAfter: nat, cancelRequested: bool,
    approvedAt: Option<nat>, leaseOwner: Option<string>, leaseExpires: Option<nat>)

  /** A row of `approvals2`. */
  datatype Approval = Approval(task: nat, actor: string, decision: Decision)

  datatype Db = Db(tasks: map<nat, Task>, approvals: seq<Approval>)

  // ----- submit -----

  /** What the caller and the agent say about a new task. */
  datatype Submission = Submission(
    tenant: string, creator: string, mutating: bool, agentNeedsApproval: bool, agentRequired: int,
    priority: int, maxAttempts: int, now: nat)

  function Clamp(x: int, low: int, high: int): int {
    if x > high then high else if x < low then low else x
  }

  function NewTask(s: Submission): Task {
    var required := if s.mutating && s.agentNeedsApproval then Clamp(s.agentRequired, 0, 3) else 0;
    Task(s.tenant, s.creator, s.mutating, required, Clamp(s.priority, -100, 100), s.now,
         if required > 0 then WaitingApproval else Queued, 0, Clamp(s.maxAttempts, 1, 10), s.now, false, None, None, None)
  }

  // ----- claim_next_task, heartbeat, sweep -----

  predicate Claimable(t: Task, now: nat) {
    t.status == Queued && !t.cancelRequested && t.runAfter <= now
  }

  /** `ORDER BY priority DESC, created_at ASC`: strictly before. */
  predicate Before(a: Task, b: Task) {
    a.priority > b.priority || (a.priority == b.priority && a.created < b.created)
  }

  /** The claim of one claimable row: `running`, or `dead_letter` when the attempts are used up. */
  function Claim(t: Task, worker: string, now: nat, lease: nat): Task {
    if t.attempt + 1 > t.maxAttempts then t.(status := DeadLetter)
    else t.(status := Running, attempt := t.attempt + 1, leaseOwner := Some(worker), leaseExpires := Some(now + lease))
  }

  function Heartbeat(t: Task, worker: string, now: nat, lease: nat): Task {
    if t.status == Running && t.leaseOwner == Some(worker) then t.(leaseExpires := Some(now + lease)) else t
  }

  predicate Expired(t: Task, now: nat) {
    t.status == Running && t.leaseExpires.Some? && t.leaseExpires.value < now
  }

  function Released(t: Task): Task {
    t.(leaseOwner := None, leaseExpires := None)
  }

  /** What the sweep of expired leases does to one row. */
  function SweepTask(t: Task, now: nat): Task {
    if !Expired(t, now) then t
    else if t.attempt >= t.maxAttempts then Released(t).(status := DeadLetter)
    else Released(t).(status := Queued, runAfter := now)
  }

  function SweepAll(tasks: map<nat, Task>, now: nat): map<nat, Task> {
    map id | id in tasks :: SweepTask(tasks[id], now)
  }

  // ----- Unguarded writes -----

  /** The `update_task` calls of workers, `cancel` and `retry`: none looks at the row it writes. */
  datatype Write =
    | Progress
    | MarkSucceeded
    | MarkFailed
    | MarkCanceled
    | MarkDeadLetter
    | Requeue(runAfter: nat)
    | CancelNow
    | CancelFlag
    | ManualRetry(now: nat)

  function Written(t: Task, w: Write): Task {
    match w
    case Progress => t
    case MarkSucceeded => Released(t).(status := Succeeded)
    case MarkFailed => Released(t).(status := Failed)
    case MarkCanceled => Released(t).(status := Canceled)
    case MarkDeadLetter => Released(t).(status := DeadLetter)
    case Requeue(at) => Released(t).(status := Queued, runAfter := at)
    case CancelNow => Released(t).(status := Canceled, cancelRequested := true)
    case CancelFlag => t.(cancelRequested := true)
    case ManualRetry(now) => Released(t).(status := Queued, attempt := 0, cancelRequested := false, runAfter := now)
  }

  /** `release_for_retry`, on the row it was given. */
  function ReleaseWrite(seen: Task, at: nat): Write {
    if seen.attempt >= seen.maxAttempts then MarkDeadLetter else Requeue(at)
  }

  // ----- approval_decision -----

  datatype DecisionError = TaskNotFound | NotWaiting | OwnTask | AlreadyDecided

  /** `SELECT COUNT(*) FROM approvals2 WHERE task_id=? AND decision=?`. */
  function CountRows(approvals: seq<Approval>, id: nat, decision: Decision): nat {
    if approvals == [] then 0
    else
      var last := approvals[|approvals| - 1];
      CountRows(approvals[..|approvals| - 1], id, decision) + if last.task == id && last.decision == decision then 1 else 0
  }

  function Deciders(approvals: seq<Approval>, id: nat, decision: Decision): set<string> {
    set i | 0 <= i < |approvals| && approvals[i].task == id && approvals[i].decision == decision :: approvals[i].actor
  }

  predicate HasDecided(approvals: seq<Approval>, id: nat, actor: string) {
    exists i :: 0 <= i < |approvals| && approvals[i].task == id && approvals[i].actor == actor
  }

  function Decide(db: Db, tenant: string, id: nat, actor: string, decision: Decision, now: nat): Result<Db, DecisionError> {
    if id !in db.tasks || db.tasks[id].tenant != tenant then Failure(TaskNotFound)
    else
      var t := db.tasks[id];
      if t.status != WaitingApproval then Failure(NotWaiting)
      else if actor == t.creator then Failure(OwnTask)
      else if HasDecided(db.approvals, id, actor) then Failure(AlreadyDecided)
      else
        var approvals := db.approvals + [Approval(id, actor, decision)];
        var t' :=
          if decision == Reject then t.(status := Canceled)
          else if CountRows(approvals, id, Approve) >= t.required then t.(status := Queued, approvedAt := Some(now), runAfter := now)
          else t;
        Success(Db(db.tasks[id := t'], approvals))
  }
}
