/** What a whole tick leaves, in the stored rows and the statuses of their tasks. */
module WorkflowOutcome {
  import opened Wrappers
  import opened WorkflowDefinition
  import opened Template
  import opened WorkflowRun
  import opened WorkflowSafety
  import opened WorkflowHistory
  import opened WorkflowProgress

  /** A tick that nothing cuts short: a later cut would change nothing. */
  ghost predicate WholeTick(db: Db, r: nat, view: map<nat, Task>, after: Db) {
    exists cut: nat :: CutsNothing(db, r, view, after, cut)
  }

  ghost predicate CutsNothing(db: Db, r: nat, view: map<nat, Task>, after: Db, cut: nat) {
    forall c: nat :: c >= cut ==> Next(db, Tick(r, view, c)) == after
  }

  /** A whole tick of an active run is one that sends every statement of its plan until one raises. */
  lemma WholeTickIff(db: Db, r: nat, view: map<nat, Task>, after: Db)
    requires r in db.runs && db.runs[r].status == Active
    ensures WholeTick(db, r, view, after) <==> after == Exec(db, r, Plan(db.runs[r], view))
  {
    hide Plan, Exec;
    var n := |Plan(db.runs[r], view)|;
    assert CutsNothing(db, r, view, Exec(db, r, Plan(db.runs[r], view)), n);
    if WholeTick(db, r, view, after) {
      var cut: nat :| CutsNothing(db, r, view, after, cut);
      var c: nat := if n > cut then n else cut;
      assert Next(db, Tick(r, view, c)) == after;
      assert CutAt(Plan(db.runs[r], view), c) == Plan(db.runs[r], view);
    }
  }

  // ----- What submissions do to the tables -----

  /** A pending row whose dependencies have succeeded now carries the task of its key. */
  ghost predicate Attached(a: Db, b: Db, r: nat, k: nat)
    requires r in a.runs && r in b.runs && k < |a.runs[r].rows| == |b.runs[r].rows|
  {
    && a.runs[r].rows[k].status == Pending && DepsSucceeded(a.runs[r].rows, k) && KeyOf(a, r, k) in b.keys
    && b.runs[r].rows[k] == a.runs[r].rows[k].(status := Submitted, taskId := Some(b.keys[KeyOf(a, r, k)].task))
  }

  /** A key a tick used for a pending step whose dependencies have succeeded, with the step's own request. */
  ghost predicate OwnKey(a: Db, b: Db, r: nat, key: Key, j: nat)
    requires r in a.runs && j < |a.runs[r].rows| && key in b.keys
  {
    && key == KeyOf(a, r, j) && a.runs[r].rows[j].status == Pending && DepsSucceeded(a.runs[r].rows, j)
    && !b.keys[key].client && b.keys[key].request == RequestOf(a.runs[r].rows, a.runs[r].input, j)
  }

  ghost predicate KeysAdded(a: Db, b: Db, r: nat)
    requires r in a.runs
  {
    && (forall k :: k in a.keys ==> k in b.keys && b.keys[k] == a.keys[k])
    && (forall k :: k in b.keys && k !in a.keys ==> exists j :: 0 <= j < |a.runs[r].rows| && OwnKey(a, b, r, k, j))
    && (forall t :: t in a.tasks ==> t in b.tasks && b.tasks[t] == a.tasks[t])
    && (forall t :: t in b.tasks && t !in a.tasks ==> exists k :: k in b.keys && k !in a.keys && b.tasks[t] == Task(Queued, "", Some(k)))
  }

  ghost predicate RowsAttached(a: Db, b: Db, r: nat)
    requires r in a.runs
  {
    && b.runs.Keys == a.runs.Keys && (forall q :: q in a.runs && q != r ==> b.runs[q] == a.runs[q])
    && b.runs[r] == a.runs[r].(rows := b.runs[r].rows) && |b.runs[r].rows| == |a.runs[r].rows|
    && forall k :: 0 <= k < |a.runs[r].rows| ==> b.runs[r].rows[k] == a.runs[r].rows[k] || Attached(a, b, r, k)
  }

  lemma AttachedTracks(a: Db, b: Db, r: nat)
    requires r in a.runs && RowsAttached(a, b, r)
    ensures Tracks(b.runs[r].rows, a.runs[r].rows, |a.runs[r].rows|)
  {
    hide DepsSucceeded;
  }

  lemma RowsStay(a: Db, now: Db, after: Db, r: nat)
    requires r in a.runs && RowsAttached(a, now, r) && after.runs == now.runs
    requires forall k :: k in now.keys ==> k in after.keys && after.keys[k] == now.keys[k]
    ensures RowsAttached(a, after, r)
  {
    hide DepsSucceeded;
    forall k | 0 <= k < |a.runs[r].rows|
      ensures after.runs[r].rows[k] == a.runs[r].rows[k] || Attached(a, after, r, k)
    {
      assert now.runs[r].rows[k] == a.runs[r].rows[k] || Attached(a, now, r, k);
    }
  }

  lemma OneMoreKey(a: Db, now: Db, after: Db, r: nat, j: nat, row: KeyRow)
    requires r in a.runs && KeysAdded(a, now, r) && j < |a.runs[r].rows|
    requires var key := KeyOf(a, r, j);
             && key !in now.keys && now.next !in now.tasks && after.keys == now.keys[key := row]
             && after.tasks == now.tasks[now.next := Task(Queued, "", Some(key))] && OwnKey(a, after, r, key, j)
    ensures KeysAdded(a, after, r)
  {
    hide RequestOf, DepsSucceeded;
    var key := KeyOf(a, r, j);
    forall k | k in after.keys && k !in a.keys
      ensures exists i :: 0 <= i < |a.runs[r].rows| && OwnKey(a, after, r, k, i)
    {
      if k != key {
        var i :| 0 <= i < |a.runs[r].rows| && OwnKey(a, now, r, k, i);
        assert OwnKey(a, after, r, k, i);
      }
    }
    forall t | t in after.tasks && t !in a.tasks
      ensures exists k :: k in after.keys && k !in a.keys && after.tasks[t] == Task(Queued, "", Some(k))
    {
      if t == now.next {
        assert key !in a.keys;
      } else {
        var k :| k in now.keys && k !in a.keys && now.tasks[t] == Task(Queued, "", Some(k));
        assert k in after.keys;
      }
    }
  }

  lemma SubmitAdds(a: Db, now: Db, r: nat, j: nat, request: Request)
    requires r in a.runs && RowsAttached(a, now, r) && KeysAdded(a, now, r)
    requires Enabled(now, r, Submit(j, request)) && Apply(now, r, Submit(j, request)).Some? && now.next !in now.tasks
    ensures var after := Apply(now, r, Submit(j, request)).value;
            RowsAttached(a, after, r) && KeysAdded(a, after, r)
  {
    hide RequestOf, Refuses, DepsSucceeded, Tracks, KeysAdded, Attached;
    var after := Apply(now, r, Submit(j, request)).value;
    if after != now {
      PendingRow(a, now, r, j);
      AttachedTracks(a, now, r);
      OwnRequest(a, now, r, j);
      RowsStay(a, now, after, r);
      OneMoreKey(a, now, after, r, j, KeyRow(now.next, request, false));
    }
  }

  /** A row that is pending still is as it was. */
  lemma PendingRow(a: Db, now: Db, r: nat, j: nat)
    requires r in a.runs && RowsAttached(a, now, r) && r in now.runs && j < |now.runs[r].rows| && now.runs[r].rows[j].status == Pending
    ensures j < |a.runs[r].rows| && now.runs[r].rows[j] == a.runs[r].rows[j] && KeyOf(now, r, j) == KeyOf(a, r, j)
    ensures now.runs[r].input == a.runs[r].input
  {
    hide DepsSucceeded;
    assert now.runs[r].rows[j] == a.runs[r].rows[j] || Attached(a, now, r, j);
  }

  /** Rows that only gained tasks make the same requests, of steps whose dependencies have succeeded as before. */
  lemma OwnRequest(a: Db, now: Db, r: nat, j: nat)
    requires r in a.runs && r in now.runs && j < |now.runs[r].rows| && Tracks(now.runs[r].rows, a.runs[r].rows, |a.runs[r].rows|)
    requires now.runs[r].input == a.runs[r].input
    ensures RequestOf(now.runs[r].rows, now.runs[r].input, j) == RequestOf(a.runs[r].rows, a.runs[r].input, j)
    ensures DepsSucceeded(now.runs[r].rows, j) <==> DepsSucceeded(a.runs[r].rows, j)
  {
    TracksResults(now.runs[r].rows, a.runs[r].rows, |a.runs[r].rows|);
    TracksIds(now.runs[r].rows, a.runs[r].rows, |a.runs[r].rows|);
    hide SucceededIds, StepResults, Render, Parse;
  }

  lemma AttachAdds(a: Db, now: Db, r: nat, j: nat)
    requires r in a.runs && RowsAttached(a, now, r) && KeysAdded(a, now, r)
    requires Enabled(now, r, Attach(j)) && Apply(now, r, Attach(j)).Some?
    ensures var after := Apply(now, r, Attach(j)).value; RowsAttached(a, after, r) && KeysAdded(a, after, r)
  {
    hide RequestOf, DepsSucceeded, Tracks, KeysAdded, Attached, RowsAttached;
    PendingRow(a, now, r, j);
    AttachedTracks(a, now, r);
    OwnRequest(a, now, r, j);
    RowAttaches(a, now, r, j);
    KeysStay(a, now, Apply(now, r, Attach(j)).value, r);
  }

  lemma RowAttaches(a: Db, now: Db, r: nat, j: nat)
    requires r in a.runs && RowsAttached(a, now, r) && j < |a.runs[r].rows| && KeyOf(a, r, j) in now.keys && KeyOf(now, r, j) == KeyOf(a, r, j)
    requires now.runs[r].rows[j] == a.runs[r].rows[j] && a.runs[r].rows[j].status == Pending && DepsSucceeded(a.runs[r].rows, j)
    ensures Apply(now, r, Attach(j)).Some? && RowsAttached(a, Apply(now, r, Attach(j)).value, r)
  {
    hide DepsSucceeded;
    var after := Apply(now, r, Attach(j)).value;
    assert Attached(a, after, r, j);
    forall k | 0 <= k < |a.runs[r].rows|
      ensures after.runs[r].rows[k] == a.runs[r].rows[k] || Attached(a, after, r, k)
    {
      assert now.runs[r].rows[k] == a.runs[r].rows[k] || Attached(a, now, r, k);
    }
  }

  lemma KeysStay(a: Db, now: Db, after: Db, r: nat)
    requires r in a.runs && KeysAdded(a, now, r) && after.keys == now.keys && after.tasks == now.tasks
    ensures KeysAdded(a, after, r)
  {
    hide RequestOf, DepsSucceeded;
    forall k | k in after.keys && k !in a.keys
      ensures exists i :: 0 <= i < |a.runs[r].rows| && OwnKey(a, after, r, k, i)
    {
      var i :| 0 <= i < |a.runs[r].rows| && OwnKey(a, now, r, k, i);
      assert OwnKey(a, after, r, k, i);
    }
  }

  ghost predicate Submits(ss: seq<Statement>) {
    forall i :: 0 <= i < |ss| ==> ss[i].Submit? || ss[i].Attach?
  }

  /** Submissions, also when one of them raises, only attach tasks to pending rows whose dependencies have succeeded. */
  lemma {:induction false} SubmissionsAdd(a: Db, now: Db, r: nat, ss: seq<Statement>)
    requires r in a.runs && RowsAttached(a, now, r) && KeysAdded(a, now, r)
    requires Inv(now) && EnabledAll(now, r, ss) && Submits(ss)
    ensures RowsAttached(a, Exec(now, r, ss), r) && KeysAdded(a, Exec(now, r, ss), r)
    decreases |ss|
  {
    hide RowsAttached, KeysAdded, Enabled, Apply, RunInv;
    if ss != [] && Apply(now, r, ss[0]).Some? {
      var after := Apply(now, r, ss[0]).value;
      StatementKeepsInv(now, r, ss[0]);
      if ss[0].Submit? {
        SubmitAdds(a, now, r, ss[0].row, ss[0].request);
      } else {
        AttachAdds(a, now, r, ss[0].row);
      }
      hide Inv;
      SubmissionsAdd(a, after, r, ss[1..]);
    }
  }

  lemma {:induction false} SubmissionsAreSubmits(rows: seq<StepRow>, input: Value, j: nat)
    ensures Submits(Submissions(rows, input, j))
    decreases |rows| - j
  {
    hide RequestOf, Ready;
    if j < |rows| {
      SubmissionsAreSubmits(rows, input, j + 1);
    }
  }

  // ----- The rows a tick leaves -----

  /** A submitted row follows its task once that has ended. */
  ghost predicate FollowsTask(before: StepRow, task: Task, after: StepRow) {
    match task.status
    case TaskSucceeded => after == before.(status := Succeeded, result := task.result)
    case TaskFailed => after == before.(status := Failed)
    case DeadLetter => after == before.(status := Failed)
    case Canceled => after == before.(status := Failed)
    case Queued => after == before
    case WaitingApproval => after == before
    case Executing => after == before
  }

  /** What a tick makes of one stored row, by the status in which it saw the row's task. */
  ghost predicate RowOutcome(before: StepRow, view: map<nat, Task>, after: StepRow) {
    match before.status
    case Submitted =>
      && before.taskId.Some?
      && if before.taskId.value in view then FollowsTask(before, view[before.taskId.value], after) else after == before
    case Succeeded => after == before
    case Failed => after == before
    case Pending => after == before || (after.taskId.Some? && after == before.(status := Submitted, taskId := after.taskId))
    case Running => false
  }

  lemma MarkedOutcome(row: StepRow, view: map<nat, Task>, j: nat)
    requires row.status != Running && (row.status == Pending <==> row.taskId.None?)
    ensures RowOutcome(row, view, if MarkOf(row, view, j) != [] then Observe(row, view) else row)
    ensures row.status == Pending ==> MarkOf(row, view, j) == []
    ensures Observe(row, view).status == Failed <==> (if MarkOf(row, view, j) != [] then Observe(row, view) else row).status == Failed
  {
  }

  lemma MarksOutcome(db: Db, r: nat, view: map<nat, Task>)
    requires r in db.runs && RunInv(db, r)
    ensures var rows, marked := db.runs[r].rows, AfterMarks(db, r, view).runs[r].rows;
            && |marked| == |rows|
            && (forall j :: 0 <= j < |rows| ==> RowOutcome(rows[j], view, marked[j]) && (rows[j].status == Pending ==> marked[j] == rows[j]))
            && (SomeFailed(ObserveAll(rows, view)) <==> SomeFailed(marked))
  {
    RunRowsForm(db, r);
    hide RunInv, RowOutcome, MarkOf, Observe;
    var rows, marked, local := db.runs[r].rows, AfterMarks(db, r, view).runs[r].rows, ObserveAll(db.runs[r].rows, view);
    forall j | 0 <= j < |rows|
      ensures RowOutcome(rows[j], view, marked[j]) && (rows[j].status == Pending ==> marked[j] == rows[j])
      ensures local[j].status == Failed <==> marked[j].status == Failed
    {
      MarkedOutcome(rows[j], view, j);
    }
  }

  /** The two ways a whole tick can go, after its marks. */
  ghost predicate GivesUp(marked: Db, after: Db, r: nat)
    requires r in marked.runs
  {
    SomeFailed(marked.runs[r].rows) && after == marked.(runs := marked.runs[r := marked.runs[r].(status := Aborted)])
  }

  ghost predicate GoesOn(marked: Db, mid: Db, after: Db, r: nat)
    requires r in marked.runs
  {
    && !SomeFailed(marked.runs[r].rows) && RowsAttached(marked, mid, r) && KeysAdded(marked, mid, r)
    && after == (if AllSucceeded(mid.runs[r].rows) then mid.(runs := mid.runs[r := mid.runs[r].(status := Completed)]) else mid)
  }

  lemma FinishOnly(db: Db, r: nat, status: RunStatus)
    requires r in db.runs
    ensures Exec(db, r, [Finish(status)]) == db.(runs := db.runs[r := db.runs[r].(status := status)])
  {
    assert [Finish(status)][1..] == [];
  }

  lemma TickGoes(db: Db, r: nat, view: map<nat, Task>) returns (mid: Db)
    requires Inv(db) && r in db.runs && db.runs[r].status == Active
    ensures var marked, after := AfterMarks(db, r, view), Exec(db, r, Plan(db.runs[r], view));
            GivesUp(marked, after, r) || GoesOn(marked, mid, after, r)
  {
    hide Inv, Exec, Executes, Apply, Marks, AfterMarks, Tracks, Submissions, RowsAttached, KeysAdded, SomeFailed, AllSucceeded, Observe;
    var run := db.runs[r];
    var local, marked := ObserveAll(run.rows, view), AfterMarks(db, r, view);
    MarksPhase(db, r, view);
    MarkedRun(db, r, view);
    ExecConcat(db, r, Marks(run.rows, view, 0), Decisions(local, run.input));
    FailedAlike(db, r, view);
    mid := marked;
    if SomeFailed(local) {
      FinishOnly(marked, r, Aborted);
    } else {
      mid := SubmitPhase(marked, r, local);
    }
  }

  lemma FailedAlike(db: Db, r: nat, view: map<nat, Task>)
    requires Inv(db) && r in db.runs
    ensures SomeFailed(ObserveAll(db.runs[r].rows, view)) <==> SomeFailed(AfterMarks(db, r, view).runs[r].rows)
  {
    assert RunInv(db, r);
    hide Inv, RunInv;
    MarksOutcome(db, r, view);
  }

  lemma SubmitPhase(marked: Db, r: nat, local: seq<StepRow>) returns (mid: Db)
    requires Inv(marked) && r in marked.runs && marked.runs[r].status == Active && Tracks(marked.runs[r].rows, local, 0)
    requires !SomeFailed(local) && !SomeFailed(marked.runs[r].rows)
    ensures GoesOn(marked, mid, Exec(marked, r, Decisions(local, marked.runs[r].input)), r)
  {
    hide Inv, Exec, Executes, Apply, Tracks, Submissions, RowsAttached, KeysAdded, SomeFailed, Submits;
    var subs, end := Submissions(local, marked.runs[r].input, 0), Ending(local);
    SubmissionsEnabled(marked, r, local, 0);
    SubmissionsAreSubmits(local, marked.runs[r].input, 0);
    NothingAdded(marked, r);
    SubmissionsAdd(marked, marked, r, subs);
    mid := Exec(marked, r, subs);
    SucceededAlike(marked, mid, r, local);
    if Executes(marked, r, subs) {
      ExecConcat(marked, r, subs, end);
      if end == [] {
        ExecNothing(mid, r);
      } else {
        FinishOnly(mid, r, Completed);
      }
    } else {
      ExecStops(marked, r, subs, end);
      if AllSucceeded(local) {
        NothingReady(local, marked.runs[r].input, 0);
        ExecutesNothing(marked, r);
        assert false;
      }
    }
  }

  lemma ExecNothing(db: Db, r: nat)
    ensures Exec(db, r, []) == db
  {
  }

  lemma ExecutesNothing(db: Db, r: nat)
    ensures Executes(db, r, [])
  {
  }

  lemma NothingAdded(db: Db, r: nat)
    requires r in db.runs
    ensures RowsAttached(db, db, r) && KeysAdded(db, db, r)
  {
  }

  /** Submissions make no row succeed. */
  lemma SucceededAlike(marked: Db, mid: Db, r: nat, local: seq<StepRow>)
    requires Inv(marked) && r in marked.runs && Tracks(marked.runs[r].rows, local, 0) && RowsAttached(marked, mid, r)
    ensures r in mid.runs && (AllSucceeded(mid.runs[r].rows) <==> local != [] && AllSucceeded(local))
  {
    assert RunInv(marked, r);
    hide Inv, DepsSucceeded;
    var a, b := marked.runs[r].rows, mid.runs[r].rows;
    assert StepsOf(a) != [];
    forall k | 0 <= k < |a|
      ensures b[k].status == Succeeded <==> local[k].status == Succeeded
    {
      assert b[k] == a[k] || Attached(marked, mid, r, k);
    }
  }

  /**
   * The rows by their tasks, and nothing else of any run; the run fails exactly with a failed row and
   * then adds no key and no task, and it succeeds exactly with every row succeeded.
   */
  ghost predicate TickLeft(db: Db, r: nat, view: map<nat, Task>, after: Db)
    requires r in db.runs
  {
    && after.runs.Keys == db.runs.Keys && (forall q :: q in after.runs && q != r ==> after.runs[q] == db.runs[q])
    && var a, b := db.runs[r], after.runs[r];
       && b.input == a.input && |b.rows| == |a.rows|
       && (forall j :: 0 <= j < |a.rows| ==> RowOutcome(a.rows[j], view, b.rows[j]))
       && (b.status == Aborted <==> exists j :: 0 <= j < |b.rows| && b.rows[j].status == Failed)
       && (b.status == Completed <==> forall j :: 0 <= j < |b.rows| ==> b.rows[j].status == Succeeded)
       && (b.status == Aborted ==>
             && after.keys == db.keys && after.tasks == db.tasks
             && forall j :: 0 <= j < |a.rows| && a.rows[j].status == Pending ==> b.rows[j] == a.rows[j])
  }

  /** The marks follow the tasks and leave pending rows alone. */
  ghost predicate PendingStay(rows: seq<StepRow>, view: map<nat, Task>, marked: seq<StepRow>) {
    && |marked| == |rows|
    && forall j :: 0 <= j < |rows| ==> RowOutcome(rows[j], view, marked[j]) && (rows[j].status == Pending ==> marked[j] == rows[j])
  }

  lemma GaveUp(db: Db, r: nat, view: map<nat, Task>, after: Db)
    requires r in db.runs && db.runs[r].rows != [] && GivesUp(AfterMarks(db, r, view), after, r)
    requires PendingStay(db.runs[r].rows, view, AfterMarks(db, r, view).runs[r].rows)
    ensures TickLeft(db, r, view, after)
  {
    hide RowOutcome, Marked;
  }

  lemma WentOn(db: Db, r: nat, view: map<nat, Task>, mid: Db, after: Db)
    requires r in db.runs && db.runs[r].status == Active && db.runs[r].rows != [] && GoesOn(AfterMarks(db, r, view), mid, after, r)
    requires PendingStay(db.runs[r].rows, view, AfterMarks(db, r, view).runs[r].rows)
    ensures TickLeft(db, r, view, after)
  {
    hide RowOutcome, Marked, KeysAdded, DepsSucceeded, Attached;
    var rows, marked, end := db.runs[r].rows, AfterMarks(db, r, view).runs[r].rows, after.runs[r].rows;
    assert |end| == |rows| && end == mid.runs[r].rows;
    forall j | 0 <= j < |rows|
      ensures RowOutcome(rows[j], view, end[j]) && end[j].status != Failed
    {
      AttachedOutcome(AfterMarks(db, r, view), mid, r, view, rows[j], j);
    }
  }

  lemma AttachedOutcome(marked: Db, mid: Db, r: nat, view: map<nat, Task>, before: StepRow, j: nat)
    requires r in marked.runs && !SomeFailed(marked.runs[r].rows) && RowsAttached(marked, mid, r) && j < |marked.runs[r].rows|
    requires RowOutcome(before, view, marked.runs[r].rows[j])
    ensures RowOutcome(before, view, mid.runs[r].rows[j]) && mid.runs[r].rows[j].status != Failed
  {
    hide DepsSucceeded;
    assert mid.runs[r].rows[j] == marked.runs[r].rows[j] || Attached(marked, mid, r, j);
  }

  /**
   * What a whole tick leaves of a reachable active run, whatever it read, whether or not a submission
   * raised: every row by the status of its task, and the end of the run.
   */
  lemma TickOutcome(es: seq<Event>, r: nat, view: map<nat, Task>, after: Db)
    requires r in History(es).runs && History(es).runs[r].status == Active && WholeTick(History(es), r, view, after)
    ensures TickLeft(History(es), r, view, after)
  {
    var mid := TickReaches(es, r, view, after);
    hide *;
    if GivesUp(AfterMarks(History(es), r, view), after, r) {
      GaveUp(History(es), r, view, after);
    } else {
      WentOn(History(es), r, view, mid, after);
    }
  }

  /** A whole tick of a reachable run, in its phases. */
  lemma TickReaches(es: seq<Event>, r: nat, view: map<nat, Task>, after: Db) returns (mid: Db)
    requires r in History(es).runs && History(es).runs[r].status == Active && WholeTick(History(es), r, view, after)
    ensures History(es).runs[r].rows != []
    ensures PendingStay(History(es).runs[r].rows, view, AfterMarks(History(es), r, view).runs[r].rows)
    ensures GivesUp(AfterMarks(History(es), r, view), after, r) || GoesOn(AfterMarks(History(es), r, view), mid, after, r)
  {
    hide History, PromptInv, WholeTick, Plan, Exec, GivesUp, GoesOn, RowOutcome, AfterMarks;
    var db := History(es);
    HistoryInv(es);
    WholeTickIff(db, r, view, after);
    assert RunInv(db, r);
    hide Inv, RunInv;
    mid := TickGoes(db, r, view);
    MarksOutcome(db, r, view);
    NotEmpty(db, r);
  }

  lemma NotEmpty(db: Db, r: nat)
    requires r in db.runs && RunInv(db, r)
    ensures db.runs[r].rows != []
  {
    assert StepsOf(db.runs[r].rows) != [];
  }

  // ----- What a tick submits -----

  /** What a prompt template renders to with the run's input and the results of the succeeded rows. */
  ghost predicate IsPrompt(text: string, input: Value, rows: seq<StepRow>, prompt: seq<Piece>) {
    exists xs, ends :: Spellings(xs) == text && Leftmost(xs) && Renders(xs, TickContext(input, StepResults(rows)), prompt, ends)
  }

  /** Where the paths of a prompt lead: into the run's input, or to the result of a succeeded step, and nowhere else. */
  lemma ContextLeads(input: Value, rows: seq<StepRow>, path: seq<string>, w: Value)
    requires DistinctIds(StepsOf(rows)) && path != []
    ensures var context := TickContext(input, StepResults(rows));
            && (path[0] == "input" ==> (LeadsTo(context, path, w) <==> LeadsTo(input, path[1..], w)))
            && (path[0] !in {"input", "steps"} ==> !LeadsTo(context, path, w))
            && (|path| == 3 && path[0] == "steps" && path[2] == "result" ==>
                  (LeadsTo(context, path, w) <==> exists k :: HasResult(rows, k, path[1], w)))
            && (|path| >= 3 && path[0] == "steps" && path[2] != "result" ==> !LeadsTo(context, path, w))
  {
    hide LeadsTo, StepResults;
    var context := TickContext(input, StepResults(rows));
    LeadsOn(context, path, w);
    if |path| >= 3 && path[0] == "steps" {
      var steps := StepResults(rows);
      LeadsOn(Obj(steps), path[1..], w);
      assert path[1..][1..] == path[2..] && path[1..][0] == path[1];
      StepResultsContents(rows);
      if path[1] in steps {
        var k :| 0 <= k < |rows| && rows[k].status == Succeeded && rows[k].step.id == path[1];
        assert steps[path[1]] == Obj(map["result" := Str(rows[k].result)]);
        LeadsOn(steps[path[1]], path[2..], w);
        assert path[2..][0] == path[2];
        if |path| == 3 && path[2] == "result" {
          assert path[2..][1..] == [];
          LeadsNowhere(Str(rows[k].result), w);
          OneResult(rows, k, path[1], w);
        }
      }
    }
  }

  ghost predicate HasResult(rows: seq<StepRow>, k: int, id: string, w: Value) {
    0 <= k < |rows| && rows[k].status == Succeeded && rows[k].step.id == id && w == Str(rows[k].result)
  }

  lemma OneResult(rows: seq<StepRow>, k: nat, id: string, w: Value)
    requires DistinctIds(StepsOf(rows)) && k < |rows| && rows[k].status == Succeeded && rows[k].step.id == id
    ensures (exists i :: HasResult(rows, i, id, w)) <==> w == Str(rows[k].result)
  {
    if w == Str(rows[k].result) {
      assert HasResult(rows, k, id, w);
    }
    forall i | HasResult(rows, i, id, w)
      ensures i == k
    {
      assert StepsOf(rows)[i].id == StepsOf(rows)[k].id;
    }
  }

  /** Every dependency of the step has a row that succeeded. */
  ghost predicate DependenciesDone(rows: seq<StepRow>, j: nat)
    requires j < |rows|
  {
    forall d :: d in rows[j].step.deps ==> exists k :: 0 <= k < |rows| && rows[k].step.id == d && rows[k].status == Succeeded
  }

  /** Row `j` was pending, its dependencies are done, and this is the request its step calls for. */
  ghost predicate StepRequest(a: Run, b: Run, j: nat, request: Request)
    requires |a.rows| == |b.rows| && j < |a.rows|
  {
    && a.rows[j].status == Pending && DependenciesDone(b.rows, j)
    && request.agent == a.rows[j].step.agent && request.ownOptions && IsPrompt(a.rows[j].step.prompt, a.input, b.rows, request.prompt)
  }

  /**
   * Used keys and tasks stay as they are. Every new key is that of a pending step whose dependencies are
   * done, for its agent and its rendered prompt; every new task is queued under such a key; and a step
   * that was submitted carries the task of its key.
   */
  ghost predicate TickSubmitted(db: Db, r: nat, after: Db)
    requires r in db.runs && r in after.runs && |after.runs[r].rows| == |db.runs[r].rows|
  {
    && (forall k :: k in db.keys ==> k in after.keys && after.keys[k] == db.keys[k])
    && (forall k :: k in after.keys && k !in db.keys ==>
          !after.keys[k].client && exists j :: 0 <= j < |db.runs[r].rows| && k == KeyOf(db, r, j)
                                               && StepRequest(db.runs[r], after.runs[r], j, after.keys[k].request))
    && (forall t :: t in db.tasks ==> t in after.tasks && after.tasks[t] == db.tasks[t])
    && (forall t :: t in after.tasks && t !in db.tasks ==>
          exists k :: k in after.keys && k !in db.keys && after.tasks[t] == Task(Queued, "", Some(k)))
    && (forall j :: 0 <= j < |db.runs[r].rows| && db.runs[r].rows[j].status == Pending && after.runs[r].rows[j].status == Submitted ==>
          && KeyOf(db, r, j) in after.keys && after.runs[r].rows[j].taskId == Some(after.keys[KeyOf(db, r, j)].task)
          && DependenciesDone(after.runs[r].rows, j))
  }

  /** What a whole tick of a reachable active run submits, whatever it read, whether or not a submission raised. */
  lemma TickSubmissions(es: seq<Event>, r: nat, view: map<nat, Task>, after: Db)
    requires r in History(es).runs && History(es).runs[r].status == Active && WholeTick(History(es), r, view, after)
    ensures r in after.runs && |after.runs[r].rows| == |History(es).runs[r].rows| && TickSubmitted(History(es), r, after)
  {
    var mid := TickReaches(es, r, view, after);
    hide *;
    if GivesUp(AfterMarks(History(es), r, view), after, r) {
      NothingSubmitted(History(es), r, view, after);
    } else {
      AllSubmitted(History(es), r, view, mid, after);
    }
  }

  lemma NothingSubmitted(db: Db, r: nat, view: map<nat, Task>, after: Db)
    requires r in db.runs && GivesUp(AfterMarks(db, r, view), after, r)
    requires PendingStay(db.runs[r].rows, view, AfterMarks(db, r, view).runs[r].rows)
    ensures r in after.runs && |after.runs[r].rows| == |db.runs[r].rows| && TickSubmitted(db, r, after)
  {
    hide RowOutcome, StepRequest, DependenciesDone, Marked;
  }

  lemma OutcomeStep(before: StepRow, view: map<nat, Task>, after: StepRow)
    requires RowOutcome(before, view, after)
    ensures after.step == before.step && (after.status == Pending ==> before.status == Pending)
    ensures before.status == Pending ==> after.status in {Pending, Submitted}
  {
  }

  lemma OwnRequestIsStep(marked: Db, mid: Db, r: nat, k: Key, j: nat, a: Run, b: Run)
    requires r in marked.runs && RowsAttached(marked, mid, r) && j < |marked.runs[r].rows| && k in mid.keys && OwnKey(marked, mid, r, k, j)
    requires |a.rows| == |marked.runs[r].rows| && a.rows[j].step == marked.runs[r].rows[j].step && a.rows[j].status == Pending
    requires a.input == marked.runs[r].input && b.rows == mid.runs[r].rows
    ensures StepRequest(a, b, j, mid.keys[k].request)
  {
    var rows, end := marked.runs[r].rows, b.rows;
    AttachedTracks(marked, mid, r);
    TracksResults(end, rows, |rows|);
    TracksIds(end, rows, |rows|);
    AllDone(rows, end, j);
    hide StepResults, SucceededIds, Renders, Leftmost, Parse, Render;
    var xs, ends := RenderIs(rows[j].step.prompt, TickContext(a.input, StepResults(end)));
  }

  lemma AllDone(rows: seq<StepRow>, end: seq<StepRow>, j: nat)
    requires j < |rows| == |end| && DepsSucceeded(rows, j) && SucceededIds(rows) == SucceededIds(end) && end[j].step == rows[j].step
    ensures DependenciesDone(end, j)
  {
    forall d | d in end[j].step.deps
      ensures exists k :: 0 <= k < |end| && end[k].step.id == d && end[k].status == Succeeded
    {
      assert d in SucceededIds(end);
    }
  }

  lemma AllSubmitted(db: Db, r: nat, view: map<nat, Task>, mid: Db, after: Db)
    requires r in db.runs && GoesOn(AfterMarks(db, r, view), mid, after, r)
    requires PendingStay(db.runs[r].rows, view, AfterMarks(db, r, view).runs[r].rows)
    ensures r in after.runs && |after.runs[r].rows| == |db.runs[r].rows| && TickSubmitted(db, r, after)
  {
    hide RowOutcome, StepRequest, DependenciesDone, DepsSucceeded, Marked, RequestOf, AllSucceeded, SomeFailed, Attached, OwnKey;
    var marked := AfterMarks(db, r, view);
    var a, b := db.runs[r], after.runs[r];
    assert b.rows == mid.runs[r].rows && after.keys == mid.keys && after.tasks == mid.tasks && marked.keys == db.keys && marked.tasks == db.tasks;
    forall k | k in after.keys && k !in db.keys
      ensures !after.keys[k].client && exists j :: 0 <= j < |a.rows| && k == KeyOf(db, r, j) && StepRequest(a, b, j, after.keys[k].request)
    {
      NewKeyIsStep(db, r, view, mid, k, b);
    }
    forall j | 0 <= j < |a.rows| && a.rows[j].status == Pending && b.rows[j].status == Submitted
      ensures KeyOf(db, r, j) in after.keys && b.rows[j].taskId == Some(after.keys[KeyOf(db, r, j)].task) && DependenciesDone(b.rows, j)
    {
      assert marked.runs[r].rows[j] == a.rows[j];
      AttachedDone(marked, mid, r, j);
    }
  }

  lemma NewKeyIsStep(db: Db, r: nat, view: map<nat, Task>, mid: Db, k: Key, b: Run)
    requires r in db.runs && PendingStay(db.runs[r].rows, view, AfterMarks(db, r, view).runs[r].rows)
    requires RowsAttached(AfterMarks(db, r, view), mid, r) && KeysAdded(AfterMarks(db, r, view), mid, r)
    requires k in mid.keys && k !in db.keys && b.rows == mid.runs[r].rows
    ensures !mid.keys[k].client && |b.rows| == |db.runs[r].rows|
    ensures exists j :: 0 <= j < |db.runs[r].rows| && k == KeyOf(db, r, j) && StepRequest(db.runs[r], b, j, mid.keys[k].request)
  {
    hide RowOutcome, StepRequest, DepsSucceeded, Marked, RequestOf, Attached;
    var marked := AfterMarks(db, r, view);
    var j :| 0 <= j < |marked.runs[r].rows| && OwnKey(marked, mid, r, k, j);
    OutcomeStep(db.runs[r].rows[j], view, marked.runs[r].rows[j]);
    OwnRequestIsStep(marked, mid, r, k, j, db.runs[r], b);
    assert k == KeyOf(db, r, j);
  }

  lemma AttachedDone(marked: Db, mid: Db, r: nat, j: nat)
    requires r in marked.runs && RowsAttached(marked, mid, r) && j < |marked.runs[r].rows|
    requires marked.runs[r].rows[j].status == Pending && mid.runs[r].rows[j].status == Submitted
    ensures KeyOf(marked, r, j) in mid.keys && mid.runs[r].rows[j].taskId == Some(mid.keys[KeyOf(marked, r, j)].task)
    ensures DependenciesDone(mid.runs[r].rows, j)
  {
    hide DepsSucceeded, SucceededIds, DependenciesDone;
    assert Attached(marked, mid, r, j);
    AttachedTracks(marked, mid, r);
    TracksIds(mid.runs[r].rows, marked.runs[r].rows, |marked.runs[r].rows|);
    AllDone(marked.runs[r].rows, mid.runs[r].rows, j);
  }

  /** When no submission raises and no row has failed, every pending row whose dependencies are done is submitted. */
  lemma TickSubmitsAllReady(es: seq<Event>, r: nat, view: map<nat, Task>, after: Db, j: nat)
    requires r in History(es).runs && History(es).runs[r].status == Active && WholeTick(History(es), r, view, after)
    requires Executes(History(es), r, Plan(History(es).runs[r], view))
    requires r in after.runs && |after.runs[r].rows| == |History(es).runs[r].rows|
    requires forall k :: 0 <= k < |after.runs[r].rows| ==> after.runs[r].rows[k].status != Failed
    requires j < |after.runs[r].rows| && History(es).runs[r].rows[j].status == Pending && DependenciesDone(after.runs[r].rows, j)
    ensures after.runs[r].rows[j].status == Submitted
  {
    var db := History(es);
    HistoryInv(es);
    WholeTickIff(db, r, view, after);
    assert RunInv(db, r) && RowInv(db, r, j);
    hide History, PromptInv, WholeTick;
    var mid := TickGoes(db, r, view);
    FailedAlike(db, r, view);
    hide Inv, RunInv, RowInv, Plan, Exec, Executes, DependenciesDone, RowsAttached, KeysAdded;
    StillNoFailure(db, r, view, mid, after);
    TickEffect(db, r, view);
    ReadyIsSubmitted(db.runs[r], view, after.runs[r], j);
  }

  lemma StillNoFailure(db: Db, r: nat, view: map<nat, Task>, mid: Db, after: Db)
    requires r in db.runs && r in after.runs && (GivesUp(AfterMarks(db, r, view), after, r) || GoesOn(AfterMarks(db, r, view), mid, after, r))
    requires forall k :: 0 <= k < |after.runs[r].rows| ==> after.runs[r].rows[k].status != Failed
    ensures !SomeFailed(AfterMarks(db, r, view).runs[r].rows)
  {
    hide Marked;
  }

  lemma ReadyIsSubmitted(a: Run, view: map<nat, Task>, b: Run, j: nat)
    requires TickLeaves(a, view, b) && j < |a.rows| && a.rows[j].status == Pending && a.rows[j].taskId.None? && DependenciesDone(b.rows, j)
    ensures b.rows[j].status == Submitted
  {
    var local := ObserveAll(a.rows, view);
    assert local[j] == a.rows[j];
    forall d | d in local[j].step.deps
      ensures d in SucceededIds(local)
    {
      var k :| 0 <= k < |b.rows| && b.rows[k].step.id == d && b.rows[k].status == Succeeded;
      assert local[k].status == Succeeded && local[k].step == a.rows[k].step;
    }
    assert Ready(local, j);
  }
}
