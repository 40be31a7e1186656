/** What every statement of every tick keeps, over all runs of the workflow engine. */
module WorkflowSafety {
  import opened Wrappers
  import opened WorkflowDefinition
  import opened Template
  import opened WorkflowRun

  function StepsOf(rows: seq<StepRow>): (steps: seq<Step>)
    ensures |steps| == |rows|
  {
    seq(|rows|, j requires 0 <= j < |rows| => rows[j].step)
  }

  /** A list of steps as the validator accepts it, in any order. */
  ghost predicate ValidListing(steps: seq<Step>) {
    steps != [] && DistinctIds(steps) && DepsKnown(steps) && exists order :: Orders(GraphOf(steps), order)
  }

  ghost predicate DepsSucceeded(rows: seq<StepRow>, j: nat)
    requires j < |rows|
  {
    forall d :: d in rows[j].step.deps ==> d in SucceededIds(rows)
  }

  /** A tick used the key of the step, and no client before it. */
  predicate TickKey(db: Db, r: nat, j: nat)
    requires r in db.runs && j < |db.runs[r].rows|
  {
    KeyOf(db, r, j) in db.keys && !db.keys[KeyOf(db, r, j)].client
  }

  ghost predicate RowInv(db: Db, r: nat, j: nat)
    requires r in db.runs && j < |db.runs[r].rows|
  {
    var row, key := db.runs[r].rows[j], KeyOf(db, r, j);
    && row.status != Running
    && (row.status == Pending <==> row.taskId.None?)
    && (row.taskId.Some? ==> key in db.keys && db.keys[key].task == row.taskId.value)
    && (row.taskId.Some? || TickKey(db, r, j) ==> DepsSucceeded(db.runs[r].rows, j))
  }

  ghost predicate RunInv(db: Db, r: nat)
    requires r in db.runs
  {
    var run := db.runs[r];
    && ValidListing(StepsOf(run.rows))
    && (forall j :: 0 <= j < |run.rows| ==> RowInv(db, r, j))
    && (run.status == Completed ==> AllSucceeded(run.rows))
    && (run.status == Aborted ==> SomeFailed(run.rows))
  }

  ghost predicate TablesInv(db: Db) {
    && (forall t :: t in db.tasks ==> t < db.next)
    && (forall t :: t in db.tasks && db.tasks[t].origin.Some? ==>
                      db.tasks[t].origin.value in db.keys && db.keys[db.tasks[t].origin.value].task == t)
    && (forall k :: k in db.keys ==> db.keys[k].task in db.tasks && db.tasks[db.keys[k].task].origin == Some(k))
    && (forall k :: k in db.keys && !db.keys[k].client ==> k.run in db.runs)
  }

  ghost predicate Inv(db: Db) {
    TablesInv(db) && forall r :: r in db.runs ==> RunInv(db, r)
  }

  // ----- When a statement may be sent -----

  ghost predicate Enabled(db: Db, r: nat, s: Statement) {
    && r in db.runs && db.runs[r].status == Active
    && var rows := db.runs[r].rows;
       match s
       case Mark(j, status, _) => j < |rows| && rows[j].status == Submitted && status in {Succeeded, Failed}
       case Submit(j, request) =>
         j < |rows| && rows[j].status == Pending && DepsSucceeded(rows, j) && request == RequestOf(rows, db.runs[r].input, j)
       case Attach(j) => j < |rows| && rows[j].status == Pending && KeyOf(db, r, j) in db.keys && DepsSucceeded(rows, j)
       case Finish(status) => (status == Completed && AllSucceeded(rows)) || (status == Aborted && SomeFailed(rows))
  }

  /** What can never change again within a run: attached tasks, finished steps, a finished run. */
  ghost predicate FrozenRun(a: Run, b: Run) {
    && |b.rows| == |a.rows|
    && (a.status != Active ==> b == a)
    && forall j :: 0 <= j < |a.rows| ==>
         && b.rows[j].step == a.rows[j].step
         && (a.rows[j].taskId.Some? ==> b.rows[j].taskId == a.rows[j].taskId)
         && (a.rows[j].status in {Succeeded, Failed} ==> b.rows[j] == a.rows[j])
  }

  /** Used keys stay, and no tick uses a new one for a finished run. */
  ghost predicate FrozenKeys(a: Db, b: Db) {
    && (forall k :: k in a.keys ==> k in b.keys && b.keys[k] == a.keys[k])
    && (forall k :: k in b.keys && k !in a.keys && !b.keys[k].client && k.run in a.runs ==> a.runs[k.run].status == Active)
  }

  ghost predicate Frozen(a: Db, b: Db) {
    && (forall r :: r in a.runs ==> r in b.runs && FrozenRun(a.runs[r], b.runs[r]))
    && FrozenKeys(a, b)
  }

  lemma FrozenTransitive(a: Db, b: Db, c: Db)
    requires Frozen(a, b) && Frozen(b, c)
    ensures Frozen(a, c)
  {
    forall r | r in a.runs
      ensures r in c.runs && FrozenRun(a.runs[r], c.runs[r])
    {
      assert FrozenRun(a.runs[r], b.runs[r]) && FrozenRun(b.runs[r], c.runs[r]);
    }
    forall k | k in c.keys && k !in a.keys && !c.keys[k].client && k.run in a.runs
      ensures a.runs[k.run].status == Active
    {
      assert FrozenRun(a.runs[k.run], b.runs[k.run]);
    }
  }

  /** A run whose row and keys are untouched keeps its invariant. */
  lemma RunInvFrame(a: Db, b: Db, q: nat)
    requires q in a.runs && q in b.runs && RunInv(a, q)
    requires b.runs[q].rows == a.runs[q].rows && b.runs[q].status == a.runs[q].status
    requires forall k :: k in a.keys && k.run == q ==> k in b.keys && b.keys[k] == a.keys[k]
    requires forall k :: k in b.keys && k !in a.keys && !b.keys[k].client && k.run == q ==>
                           forall j :: 0 <= j < |a.runs[q].rows| && a.runs[q].rows[j].step.id == k.step ==> DepsSucceeded(a.runs[q].rows, j)
    ensures RunInv(b, q)
  {
    forall j | 0 <= j < |b.runs[q].rows|
      ensures RowInv(b, q, j)
    {
      assert RowInv(a, q, j);
    }
  }

  lemma SubmitKeepsRuns(db: Db, r: nat, j: nat, request: Request)
    requires Inv(db) && Enabled(db, r, Submit(j, request)) && Apply(db, r, Submit(j, request)).Some?
    ensures var after := Apply(db, r, Submit(j, request)).value; forall q :: q in after.runs ==> RunInv(after, q)
  {
    var after := Apply(db, r, Submit(j, request)).value;
    forall i | 0 <= i < |db.runs[r].rows| && db.runs[r].rows[i].step.id == KeyOf(db, r, j).step
      ensures DepsSucceeded(db.runs[r].rows, i)
    {
      assert RunInv(db, r);
      var steps := StepsOf(db.runs[r].rows);
      assert steps[i].id == steps[j].id;
    }
    forall q | q in after.runs
      ensures RunInv(after, q)
    {
      RunInvFrame(db, after, q);
    }
  }

  lemma SubmitKeepsInv(db: Db, r: nat, j: nat, request: Request)
    requires Inv(db) && Enabled(db, r, Submit(j, request)) && Apply(db, r, Submit(j, request)).Some?
    ensures Inv(Apply(db, r, Submit(j, request)).value) && Frozen(db, Apply(db, r, Submit(j, request)).value)
  {
    SubmitKeepsRuns(db, r, j, request);
    SubmitKeepsTables(db, r, j, request);
  }

  lemma SubmitKeepsTables(db: Db, r: nat, j: nat, request: Request)
    requires TablesInv(db) && Enabled(db, r, Submit(j, request)) && Apply(db, r, Submit(j, request)).Some?
    ensures TablesInv(Apply(db, r, Submit(j, request)).value) && Frozen(db, Apply(db, r, Submit(j, request)).value)
  {
  }

  lemma SucceededIdsGrow(rows: seq<StepRow>, j: nat, row: StepRow)
    requires j < |rows| && rows[j].status != Succeeded && row.step == rows[j].step
    ensures SucceededIds(rows) <= SucceededIds(rows[j := row])
  {
    forall d | d in SucceededIds(rows)
      ensures d in SucceededIds(rows[j := row])
    {
      var k :| 0 <= k < |rows| && rows[k].status == Succeeded && rows[k].step.id == d;
      assert rows[j := row][k] == rows[k];
    }
  }

  /** A row that has not finished, replaced as a mark or an attachment does. */
  ghost predicate Replaces(db: Db, r: nat, j: nat, row: StepRow) {
    && r in db.runs && db.runs[r].status == Active && j < |db.runs[r].rows|
    && db.runs[r].rows[j].status in {Pending, Submitted} && row.step == db.runs[r].rows[j].step
    && row.status in {Submitted, Succeeded, Failed} && row.taskId.Some?
    && (db.runs[r].rows[j].taskId.Some? ==> row.taskId == db.runs[r].rows[j].taskId)
    && KeyOf(db, r, j) in db.keys && db.keys[KeyOf(db, r, j)].task == row.taskId.value && DepsSucceeded(db.runs[r].rows, j)
  }

  lemma SetRowKeepsRun(db: Db, r: nat, j: nat, row: StepRow)
    requires Replaces(db, r, j, row) && RunInv(db, r)
    ensures RunInv(SetRow(db, r, j, row), r)
    ensures StepsOf(SetRow(db, r, j, row).runs[r].rows) == StepsOf(db.runs[r].rows)
  {
    var after := SetRow(db, r, j, row);
    var rows, rows' := db.runs[r].rows, after.runs[r].rows;
    assert StepsOf(rows') == StepsOf(rows);
    SucceededIdsGrow(rows, j, row);
    forall i | 0 <= i < |rows'|
      ensures RowInv(after, r, i)
    {
      assert RowInv(db, r, i);
    }
  }

  lemma SetRowFrozen(db: Db, r: nat, j: nat, row: StepRow)
    requires Replaces(db, r, j, row)
    ensures Frozen(db, SetRow(db, r, j, row))
  {
  }

  lemma SetRowKeepsInv(db: Db, r: nat, j: nat, row: StepRow)
    requires Inv(db) && Replaces(db, r, j, row)
    ensures Inv(SetRow(db, r, j, row))
  {
    var after := SetRow(db, r, j, row);
    SetRowKeepsRun(db, r, j, row);
    forall q | q in after.runs && q != r
      ensures RunInv(after, q)
    {
      RunInvFrame(db, after, q);
    }
  }

  lemma FinishKeepsInv(db: Db, r: nat, outcome: RunStatus)
    requires Inv(db) && Enabled(db, r, Finish(outcome))
    ensures var after := Apply(db, r, Finish(outcome)).value; Inv(after) && Frozen(db, after)
  {
    hide Frozen, TablesInv;
    var after := Apply(db, r, Finish(outcome)).value;
    FinishKeepsTables(db, r, outcome);
    assert RunInv(db, r);
    FinishedRunInv(db, r, outcome);
    hide RunInv, Enabled;
    forall q | q in after.runs && q != r
      ensures RunInv(after, q)
    {
      RunInvFrame(db, after, q);
    }
  }

  lemma FinishKeepsTables(db: Db, r: nat, outcome: RunStatus)
    requires TablesInv(db) && r in db.runs && db.runs[r].status == Active
    ensures var after := Apply(db, r, Finish(outcome)).value; TablesInv(after) && Frozen(db, after)
  {
    hide Refuses;
  }

  lemma FinishedRunInv(db: Db, r: nat, outcome: RunStatus)
    requires r in db.runs && RunInv(db, r) && Enabled(db, r, Finish(outcome))
    ensures RunInv(Apply(db, r, Finish(outcome)).value, r)
  {
    hide ValidListing, SucceededIds;
    var after := Apply(db, r, Finish(outcome)).value;
    assert StepsOf(after.runs[r].rows) == StepsOf(db.runs[r].rows);
    forall j | 0 <= j < |after.runs[r].rows|
      ensures RowInv(after, r, j)
    {
      assert RowInv(db, r, j);
    }
  }

  /** Every enabled statement keeps the invariant and what is frozen. */
  lemma StatementKeepsInv(db: Db, r: nat, s: Statement)
    requires Inv(db) && Enabled(db, r, s) && Apply(db, r, s).Some?
    ensures Inv(Apply(db, r, s).value) && Frozen(db, Apply(db, r, s).value)
  {
    hide Refuses, RequestOf;
    assert RunInv(db, r);
    match s {
      case Finish(outcome) => FinishKeepsInv(db, r, outcome);
      case Submit(j, request) => SubmitKeepsInv(db, r, j, request);
      case Mark(j, status, result) =>
        assert RowInv(db, r, j);
        var row := db.runs[r].rows[j].(status := status, result := result);
        SetRowKeepsInv(db, r, j, row);
        SetRowFrozen(db, r, j, row);
      case Attach(j) =>
        assert RowInv(db, r, j);
        var row := db.runs[r].rows[j].(status := Submitted, taskId := Some(db.keys[KeyOf(db, r, j)].task));
        SetRowKeepsInv(db, r, j, row);
        SetRowFrozen(db, r, j, row);
    }
  }

  // ----- Every statement of a plan is enabled when it is sent -----

  ghost predicate EnabledAll(db: Db, r: nat, ss: seq<Statement>)
    decreases |ss|
  {
    ss == [] || (Enabled(db, r, ss[0]) && (Apply(db, r, ss[0]).Some? ==> EnabledAll(Apply(db, r, ss[0]).value, r, ss[1..])))
  }

  lemma {:induction false} EnabledConcat(db: Db, r: nat, a: seq<Statement>, b: seq<Statement>)
    requires EnabledAll(db, r, a) && (Executes(db, r, a) ==> EnabledAll(Exec(db, r, a), r, b))
    ensures EnabledAll(db, r, a + b)
    decreases |a|
  {
    hide Enabled, Apply;
    if a == [] {
      assert a + b == b;
    } else {
      assert (a + b)[1..] == a[1..] + b;
      if Apply(db, r, a[0]).Some? {
        EnabledConcat(Apply(db, r, a[0]).value, r, a[1..], b);
      }
    }
  }

  /** A tick stopped after any number of statements. */
  lemma {:induction false} EnabledPrefix(db: Db, r: nat, ss: seq<Statement>, n: nat)
    requires EnabledAll(db, r, ss) && n <= |ss|
    ensures EnabledAll(db, r, ss[..n])
    decreases n
  {
    hide Enabled, Apply;
    if n > 0 && Apply(db, r, ss[0]).Some? {
      assert ss[..n][1..] == ss[1..][..n - 1];
      EnabledPrefix(Apply(db, r, ss[0]).value, r, ss[1..], n - 1);
    }
  }

  lemma {:induction false} ExecKeepsInv(db: Db, r: nat, ss: seq<Statement>)
    requires Inv(db) && EnabledAll(db, r, ss)
    ensures Inv(Exec(db, r, ss)) && Frozen(db, Exec(db, r, ss))
    decreases |ss|
  {
    if ss != [] && Apply(db, r, ss[0]).Some? {
      var after := Apply(db, r, ss[0]).value;
      StatementKeepsInv(db, r, ss[0]);
      ExecKeepsInv(after, r, ss[1..]);
      FrozenTransitive(db, after, Exec(after, r, ss[1..]));
    }
  }

  /** The rows after the first `j` marks of a tick that began with `rows`. */
  function Marked(rows: seq<StepRow>, view: map<nat, Task>, j: nat): (marked: seq<StepRow>)
    requires j <= |rows|
    ensures |marked| == |rows|
  {
    seq(|rows|, i requires 0 <= i < |rows| => if i < j && MarkOf(rows[i], view, i) != [] then Observe(rows[i], view) else rows[i])
  }

  function WithRows(db: Db, r: nat, rows: seq<StepRow>): Db
    requires r in db.runs
  {
    db.(runs := db.runs[r := db.runs[r].(rows := rows)])
  }

  lemma MarkedStep(rows: seq<StepRow>, view: map<nat, Task>, j: nat)
    requires j < |rows|
    ensures Marked(rows, view, j)[j] == rows[j]
    ensures MarkOf(rows[j], view, j) == [] ==> Marked(rows, view, j + 1) == Marked(rows, view, j)
    ensures MarkOf(rows[j], view, j) != [] ==> Marked(rows, view, j + 1) == Marked(rows, view, j)[j := Observe(rows[j], view)]
  {
  }

  lemma MarkStep(db: Db, r: nat, rows: seq<StepRow>, view: map<nat, Task>, j: nat)
    requires r in db.runs && db.runs[r].status == Active && j < |rows| && db.runs[r].rows == Marked(rows, view, j)
    requires rows[j].taskId.Some? && rows[j].status !in {Succeeded, Failed} ==> rows[j].status == Submitted
    requires MarkOf(rows[j], view, j) != []
    ensures var s := MarkOf(rows[j], view, j)[0]; Enabled(db, r, s) && Apply(db, r, s) == Some(WithRows(db, r, Marked(rows, view, j + 1)))
  {
    MarkedStep(rows, view, j);
  }

  lemma ExecCons(db: Db, r: nat, s: Statement, tail: seq<Statement>, after: Db)
    requires Enabled(db, r, s) && Apply(db, r, s) == Some(after)
    ensures EnabledAll(after, r, tail) ==> EnabledAll(db, r, [s] + tail)
    ensures Executes(after, r, tail) ==> Executes(db, r, [s] + tail)
    ensures Exec(db, r, [s] + tail) == Exec(after, r, tail)
  {
    assert ([s] + tail)[1..] == tail;
  }

  /** The first loop sends enabled marks only, and they do to the stored rows what it did to its own. */
  lemma {:induction false} MarksRun(db: Db, r: nat, rows: seq<StepRow>, view: map<nat, Task>, j: nat)
    requires r in db.runs && db.runs[r].status == Active && j <= |rows| && db.runs[r].rows == Marked(rows, view, j)
    requires forall i :: 0 <= i < |rows| && rows[i].taskId.Some? && rows[i].status !in {Succeeded, Failed} ==> rows[i].status == Submitted
    ensures EnabledAll(db, r, Marks(rows, view, j)) && Executes(db, r, Marks(rows, view, j))
    ensures Exec(db, r, Marks(rows, view, j)) == WithRows(db, r, Marked(rows, view, |rows|))
    decreases |rows| - j
  {
    if j == |rows| {
      assert db == WithRows(db, r, Marked(rows, view, |rows|));
    } else {
      var head, tail := MarkOf(rows[j], view, j), Marks(rows, view, j + 1);
      if head == [] {
        MarkedStep(rows, view, j);
        assert head + tail == tail;
        MarksRun(db, r, rows, view, j + 1);
      } else {
        var after := WithRows(db, r, Marked(rows, view, j + 1));
        MarkStep(db, r, rows, view, j);
        MarksRun(after, r, rows, view, j + 1);
        ExecCons(db, r, head[0], tail, after);
        assert head == [head[0]];
        assert WithRows(after, r, Marked(rows, view, |rows|)) == WithRows(db, r, Marked(rows, view, |rows|));
      }
    }
  }

  /** The stored rows and the rows in memory agree on what has succeeded, and on what is pending from `j` on. */
  ghost predicate Tracks(rows: seq<StepRow>, local: seq<StepRow>, j: nat) {
    && |rows| == |local|
    && (forall k :: 0 <= k < |rows| ==>
          && rows[k].step == local[k].step
          && (rows[k].status == Succeeded <==> local[k].status == Succeeded)
          && (rows[k].status == Succeeded ==> rows[k].result == local[k].result))
    && (forall k :: j <= k < |rows| ==> (rows[k].status == Pending <==> local[k].status == Pending))
  }

  lemma {:induction false} TracksResults(rows: seq<StepRow>, local: seq<StepRow>, j: nat)
    requires Tracks(rows, local, j)
    ensures StepResults(rows) == StepResults(local)
  {
    if rows != [] {
      TracksResults(rows[..|rows| - 1], local[..|rows| - 1], j);
    }
  }

  lemma TracksIds(rows: seq<StepRow>, local: seq<StepRow>, j: nat)
    requires Tracks(rows, local, j)
    ensures SucceededIds(rows) == SucceededIds(local)
  {
    forall d
      ensures d in SucceededIds(rows) <==> d in SucceededIds(local)
    {
      if d in SucceededIds(rows) {
        var k :| 0 <= k < |rows| && rows[k].status == Succeeded && rows[k].step.id == d;
        assert local[k].status == Succeeded;
      }
      if d in SucceededIds(local) {
        var k :| 0 <= k < |local| && local[k].status == Succeeded && local[k].step.id == d;
        assert rows[k].status == Succeeded;
      }
    }
  }

  /** What the second loop leaves of a row it looked at. */
  ghost predicate SubmittedFrom(before: Db, after: Db, r: nat, local: seq<StepRow>, j: nat)
    requires r in before.runs && |before.runs[r].rows| == |local|
  {
    && r in after.runs && |after.runs[r].rows| == |local|
    && after.runs[r] == before.runs[r].(rows := after.runs[r].rows)
    && forall k :: 0 <= k < |local| ==>
         if k >= j && Ready(local, k) then
           && KeyOf(before, r, k) in after.keys
           && after.runs[r].rows[k] == before.runs[r].rows[k].(status := Submitted, taskId := Some(after.keys[KeyOf(before, r, k)].task))
         else after.runs[r].rows[k] == before.runs[r].rows[k]
  }

  /** One ready step: submit it, then attach its task. */
  lemma SubmitStep(db: Db, r: nat, local: seq<StepRow>, j: nat)
    requires Inv(db) && r in db.runs && db.runs[r].status == Active && j < |local|
    requires Tracks(db.runs[r].rows, local, j) && Ready(local, j)
    ensures var submit := Submit(j, RequestOf(local, db.runs[r].input, j));
            && Enabled(db, r, submit)
            && (Apply(db, r, submit).Some? ==>
                  var mid := Apply(db, r, submit).value;
                  && Inv(mid) && Enabled(mid, r, Attach(j)) && Apply(mid, r, Attach(j)).Some? && Frozen(db, mid)
                  && mid.runs == db.runs && KeyOf(db, r, j) in mid.keys)
  {
    hide Refuses, RequestOf, Ready, Enabled;
    SubmitEnabled(db, r, local, j);
    var submit := Submit(j, RequestOf(local, db.runs[r].input, j));
    if Apply(db, r, submit).Some? {
      StatementKeepsInv(db, r, submit);
      hide Inv, Frozen;
      SubmitThenAttach(db, r, local, j, submit.request);
    }
  }

  lemma SubmitEnabled(db: Db, r: nat, local: seq<StepRow>, j: nat)
    requires r in db.runs && db.runs[r].status == Active && j < |local| && Tracks(db.runs[r].rows, local, j) && Ready(local, j)
    ensures Enabled(db, r, Submit(j, RequestOf(local, db.runs[r].input, j)))
  {
    hide SucceededIds;
    TracksResults(db.runs[r].rows, local, j);
    TracksIds(db.runs[r].rows, local, j);
  }

  lemma SubmitThenAttach(db: Db, r: nat, local: seq<StepRow>, j: nat, request: Request)
    requires Enabled(db, r, Submit(j, request)) && Apply(db, r, Submit(j, request)).Some?
    ensures var mid := Apply(db, r, Submit(j, request)).value;
            && mid.runs == db.runs && j < |db.runs[r].rows| && KeyOf(db, r, j) in mid.keys
            && Enabled(mid, r, Attach(j)) && Apply(mid, r, Attach(j)).Some?
  {
    hide Refuses, RequestOf, DepsSucceeded;
  }

  lemma AttachTracks(mid: Db, r: nat, local: seq<StepRow>, j: nat)
    requires Enabled(mid, r, Attach(j)) && j < |local| && Tracks(mid.runs[r].rows, local, j) && local[j].status == Pending
    ensures Apply(mid, r, Attach(j)).Some?
    ensures var after := Apply(mid, r, Attach(j)).value;
            && r in after.runs && Tracks(after.runs[r].rows, local, j + 1)
            && after.runs[r].status == Active && after.runs[r].input == mid.runs[r].input
  {
  }

  lemma AttachStep(mid: Db, r: nat, local: seq<StepRow>, j: nat)
    requires Inv(mid) && Enabled(mid, r, Attach(j)) && j < |local| && Tracks(mid.runs[r].rows, local, j) && local[j].status == Pending
    ensures Apply(mid, r, Attach(j)).Some?
    ensures var after := Apply(mid, r, Attach(j)).value;
            && Inv(after) && r in after.runs && Tracks(after.runs[r].rows, local, j + 1) && after.runs[r].status == Active
            && after.runs[r].input == mid.runs[r].input && Frozen(mid, after)
  {
    hide Inv, Frozen;
    AttachTracks(mid, r, local, j);
    StatementKeepsInv(mid, r, Attach(j));
  }

  lemma ConsPair(db: Db, r: nat, a: Statement, b: Statement, tail: seq<Statement>, mid: Db, after: Db)
    requires Apply(db, r, a) == Some(mid) && Apply(mid, r, b) == Some(after)
    ensures Enabled(db, r, a) && Enabled(mid, r, b) && EnabledAll(after, r, tail) ==> EnabledAll(db, r, [a, b] + tail)
    ensures Executes(db, r, [a, b] + tail) <==> Executes(after, r, tail)
    ensures Exec(db, r, [a, b] + tail) == Exec(after, r, tail)
  {
    assert ([a, b] + tail)[1..] == [b] + tail && ([b] + tail)[1..] == tail;
  }

  /** The second loop sends enabled statements only. */
  lemma {:induction false} SubmissionsEnabled(db: Db, r: nat, local: seq<StepRow>, j: nat)
    requires Inv(db) && r in db.runs && db.runs[r].status == Active && j <= |local|
    requires Tracks(db.runs[r].rows, local, j)
    ensures EnabledAll(db, r, Submissions(local, db.runs[r].input, j))
    decreases |local| - j
  {
    hide Inv, Refuses, RequestOf, Enabled, Apply, SucceededIds;
    if j < |local| && Ready(local, j) {
      hide Tracks;
      SubmitStep(db, r, local, j);
      var submit, tail := Submit(j, RequestOf(local, db.runs[r].input, j)), Submissions(local, db.runs[r].input, j + 1);
      if Apply(db, r, submit).Some? {
        var mid := Apply(db, r, submit).value;
        AttachStep(mid, r, local, j);
        var after := Apply(mid, r, Attach(j)).value;
        SubmissionsEnabled(after, r, local, j + 1);
        ConsPair(db, r, submit, Attach(j), tail, mid, after);
      }
    } else if j < |local| {
      SubmissionsEnabled(db, r, local, j + 1);
    }
  }

  /** The second loop submits exactly the ready steps. */
  lemma {:induction false} SubmissionsEffect(db: Db, r: nat, local: seq<StepRow>, j: nat)
    requires Inv(db) && r in db.runs && db.runs[r].status == Active && j <= |local|
    requires Tracks(db.runs[r].rows, local, j)
    requires Executes(db, r, Submissions(local, db.runs[r].input, j))
    ensures SubmittedFrom(db, Exec(db, r, Submissions(local, db.runs[r].input, j)), r, local, j)
    decreases |local| - j
  {
    hide Inv, Refuses, RequestOf, Enabled, Apply, SucceededIds;
    if j < |local| && Ready(local, j) {
      hide Tracks;
      SubmitStep(db, r, local, j);
      var submit, tail := Submit(j, RequestOf(local, db.runs[r].input, j)), Submissions(local, db.runs[r].input, j + 1);
      var mid := Apply(db, r, submit).value;
      AttachStep(mid, r, local, j);
      var after := Apply(mid, r, Attach(j)).value;
      ConsPair(db, r, submit, Attach(j), tail, mid, after);
      SubmissionsEffect(after, r, local, j + 1);
      SubmissionsEnabled(after, r, local, j + 1);
      var end := Exec(after, r, tail);
      ExecKeepsInv(after, r, tail);
      SubmittedCons(db, mid, after, end, r, local, j);
    } else if j < |local| {
      SubmissionsEffect(db, r, local, j + 1);
    }
  }

  lemma SubmittedCons(db: Db, mid: Db, after: Db, end: Db, r: nat, local: seq<StepRow>, j: nat)
    requires r in db.runs && |db.runs[r].rows| == |local| && j < |local| && Ready(local, j)
    requires mid.runs == db.runs && KeyOf(db, r, j) in mid.keys && Apply(mid, r, Attach(j)) == Some(after)
    requires FrozenKeys(after, end) && SubmittedFrom(after, end, r, local, j + 1)
    ensures SubmittedFrom(db, end, r, local, j)
  {
    forall k | 0 <= k < |local|
      ensures if k >= j && Ready(local, k) then
                && KeyOf(db, r, k) in end.keys
                && end.runs[r].rows[k] == db.runs[r].rows[k].(status := Submitted, taskId := Some(end.keys[KeyOf(db, r, k)].task))
              else end.runs[r].rows[k] == db.runs[r].rows[k]
    {
      assert KeyOf(after, r, k) == KeyOf(db, r, k);
    }
  }

  // ----- A whole tick -----

  /** After the first loop, the stored rows agree with the ones in memory. */
  lemma MarkedTracks(rows: seq<StepRow>, view: map<nat, Task>)
    requires forall i :: 0 <= i < |rows| ==> rows[i].status != Running && (rows[i].status == Pending <==> rows[i].taskId.None?)
    ensures Tracks(Marked(rows, view, |rows|), ObserveAll(rows, view), 0)
    ensures SomeFailed(ObserveAll(rows, view)) ==> SomeFailed(Marked(rows, view, |rows|))
    ensures AllSucceeded(ObserveAll(rows, view)) ==> AllSucceeded(Marked(rows, view, |rows|))
  {
    var local, stored := ObserveAll(rows, view), Marked(rows, view, |rows|);
    forall i | 0 <= i < |rows|
      ensures local[i].status in {Succeeded, Failed} ==> stored[i].status == local[i].status
    {
    }
  }

  lemma RunRowsForm(db: Db, r: nat)
    requires r in db.runs && RunInv(db, r)
    ensures forall i :: 0 <= i < |db.runs[r].rows| ==>
              && db.runs[r].rows[i].status != Running
              && (db.runs[r].rows[i].status == Pending <==> db.runs[r].rows[i].taskId.None?)
  {
    forall i | 0 <= i < |db.runs[r].rows|
      ensures db.runs[r].rows[i].status != Running && (db.runs[r].rows[i].status == Pending <==> db.runs[r].rows[i].taskId.None?)
    {
      assert RowInv(db, r, i);
    }
  }

  /** The database after the first loop. */
  function AfterMarks(db: Db, r: nat, view: map<nat, Task>): Db
    requires r in db.runs
  {
    WithRows(db, r, Marked(db.runs[r].rows, view, |db.runs[r].rows|))
  }

  lemma MarkedRun(db: Db, r: nat, view: map<nat, Task>)
    requires r in db.runs
    ensures var marked := AfterMarks(db, r, view);
            r in marked.runs && marked.runs[r].status == db.runs[r].status && marked.runs[r].input == db.runs[r].input
  {
  }

  lemma MarksPhase(db: Db, r: nat, view: map<nat, Task>)
    requires Inv(db) && r in db.runs && db.runs[r].status == Active
    ensures var marks := Marks(db.runs[r].rows, view, 0);
            EnabledAll(db, r, marks) && Executes(db, r, marks) && Exec(db, r, marks) == AfterMarks(db, r, view)
    ensures Inv(AfterMarks(db, r, view))
    ensures var stored, local := AfterMarks(db, r, view).runs[r].rows, ObserveAll(db.runs[r].rows, view);
            && Tracks(stored, local, 0) && (SomeFailed(local) ==> SomeFailed(stored)) && (AllSucceeded(local) ==> AllSucceeded(stored))
  {
    var run := db.runs[r];
    RunRowsForm(db, r);
    assert Marked(run.rows, view, 0) == run.rows;
    MarksRun(db, r, run.rows, view, 0);
    MarkedTracks(run.rows, view);
    ExecKeepsInv(db, r, Marks(run.rows, view, 0));
  }

  /** Whatever task states a tick reads, each statement it sends is enabled when it is sent. */
  lemma PlanEnabled(db: Db, r: nat, view: map<nat, Task>)
    requires Inv(db) && r in db.runs && db.runs[r].status == Active
    ensures EnabledAll(db, r, Plan(db.runs[r], view))
  {
    var run := db.runs[r];
    hide Inv, Tracks;
    MarksPhase(db, r, view);
    var local := ObserveAll(run.rows, view);
    DecisionsEnabled(AfterMarks(db, r, view), r, local);
    EnabledConcat(db, r, Marks(run.rows, view, 0), Decisions(local, run.input));
  }

  lemma DecisionsEnabled(db: Db, r: nat, local: seq<StepRow>)
    requires Inv(db) && r in db.runs && db.runs[r].status == Active && Tracks(db.runs[r].rows, local, 0)
    requires SomeFailed(local) ==> SomeFailed(db.runs[r].rows)
    requires AllSucceeded(local) ==> AllSucceeded(db.runs[r].rows)
    ensures EnabledAll(db, r, Decisions(local, db.runs[r].input))
  {
    hide Inv;
    if SomeFailed(local) {
    } else {
      var input := db.runs[r].input;
      var subs := Submissions(local, input, 0);
      SubmissionsEnabled(db, r, local, 0);
      var end := Ending(local);
      if end != [] {
        NothingReady(local, input, 0);
      }
      EnabledConcat(db, r, subs, end);
    }
  }

  lemma {:induction false} NothingReady(rows: seq<StepRow>, input: Value, j: nat)
    requires AllSucceeded(rows)
    ensures Submissions(rows, input, j) == []
    decreases |rows| - j
  {
    if j < |rows| {
      NothingReady(rows, input, j + 1);
    }
  }
}
