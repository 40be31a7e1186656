/** Why the validator's acyclicity makes `tick` finish runs, and how many ticks that takes. */
module WorkflowProgress {
  import opened WorkflowDefinition
  import opened Template
  import opened WorkflowRun
  import opened WorkflowSafety
  import opened WorkflowHistory

  // ----- Heights -----

  /** `h[s]` is the number of dependency edges on the longest path from `s`. */
  ghost predicate IsHeight(g: Graph, h: map<string, nat>) {
    && h.Keys == g.Keys
    && forall s :: s in g ==>
         && (forall d :: d in g[s] ==> d in h && h[d] < h[s])
         && (h[s] > 0 ==> exists d :: d in g[s] && d in h && h[s] == h[d] + 1)
  }

  /** No dependency path from a step is longer than its height. */
  lemma {:induction false} HeightBoundsWalks(g: Graph, h: map<string, nat>, p: seq<string>)
    requires IsHeight(g, h) && Walk(g, p)
    ensures |p| - 1 <= h[p[0]]
    decreases |p|
  {
    if |p| > 1 {
      assert p[1] in g[p[0]];
      HeightBoundsWalks(g, h, p[1..]);
    }
  }

  lemma WalkFrom(g: Graph, s: string, rest: seq<string>)
    requires s in g && Walk(g, rest) && rest[0] in g[s]
    ensures Walk(g, [s] + rest)
  {
    var p := [s] + rest;
    assert forall i :: 0 <= i < |rest| ==> p[i + 1] == rest[i];
    forall i | 0 <= i < |p| - 1
      ensures p[i + 1] in g[p[i]]
    {
      assert p[i + 1] == rest[i];
      assert i > 0 ==> p[i] == rest[i - 1];
    }
  }

  /** Some dependency path from the step is as long as its height. */
  lemma {:induction false} HeightIsReached(g: Graph, h: map<string, nat>, s: string) returns (p: seq<string>)
    requires IsHeight(g, h) && s in g
    ensures Walk(g, p) && p[0] == s && |p| - 1 == h[s]
    decreases h[s]
  {
    if h[s] == 0 {
      p := [s];
    } else {
      var d :| d in g[s] && d in h && h[s] == h[d] + 1;
      hide Walk;
      var rest := HeightIsReached(g, h, d);
      WalkFrom(g, s, rest);
      p := [s] + rest;
    }
  }

  ghost function Highest(deps: seq<string>, h: map<string, nat>): nat
    requires forall d :: d in deps ==> d in h
  {
    if deps == [] then 0
    else
      var rest := Highest(deps[1..], h);
      if h[deps[0]] + 1 > rest then h[deps[0]] + 1 else rest
  }

  lemma {:induction false} HighestIsMax(deps: seq<string>, h: map<string, nat>)
    requires forall d :: d in deps ==> d in h
    ensures forall d :: d in deps ==> h[d] < Highest(deps, h)
    ensures Highest(deps, h) > 0 ==> exists d :: d in deps && Highest(deps, h) == h[d] + 1
  {
    if deps != [] {
      HighestIsMax(deps[1..], h);
      assert deps == [deps[0]] + deps[1..];
    }
  }

  /** Heights of some of the steps, a set closed under dependencies. */
  ghost predicate Heights(g: Graph, h: map<string, nat>) {
    && h.Keys <= g.Keys
    && (forall s, d :: s in h && d in g[s] ==> d in h && h[d] < h[s])
    && (forall s :: s in h && h[s] > 0 ==> HasLower(g, h, s))
  }

  ghost predicate HasLower(g: Graph, h: map<string, nat>, s: string)
    requires s in h && s in g
  {
    exists d :: d in g[s] && d in h && h[s] == h[d] + 1
  }

  lemma ExtendHeights(g: Graph, before: map<string, nat>, s: string)
    requires Heights(g, before) && s in g && s !in before && forall d :: d in g[s] ==> d in before
    ensures Heights(g, before[s := Highest(g[s], before)])
  {
    HighestIsMax(g[s], before);
    var h := before[s := Highest(g[s], before)];
    forall t | t in h && h[t] > 0
      ensures HasLower(g, h, t)
    {
      if t == s {
        var d :| d in g[s] && Highest(g[s], before) == before[d] + 1;
        assert h[s] == h[d] + 1;
      } else {
        assert HasLower(g, before, t);
        var d :| d in g[t] && d in before && before[t] == before[d] + 1;
        assert h[t] == h[d] + 1;
      }
    }
  }

  /** Accepted definitions have heights, all below the number of steps. */
  lemma {:induction false} HeightsExist(g: Graph, order: seq<string>, n: nat) returns (h: map<string, nat>)
    requires Topological(g, order) && n <= |order|
    ensures Heights(g, h) && forall s :: s in h <==> s in order[..n]
    ensures forall s :: s in h ==> h[s] < n
  {
    if n == 0 {
      h := map[];
    } else {
      var before := HeightsExist(g, order, n - 1);
      var s := order[n - 1];
      assert order[..n] == order[..n - 1] + [s];
      assert forall i :: 0 <= i < n - 1 ==> order[i] != s;
      ExtendHeights(g, before, s);
      HighestIsMax(g[s], before);
      hide Heights, Highest;
      h := before[s := Highest(g[s], before)];
    }
  }

  lemma {:induction false} DistinctFits(order: seq<string>, all: set<string>)
    requires Distinct(order) && forall i :: 0 <= i < |order| ==> order[i] in all
    ensures |order| <= |all|
  {
    if order != [] {
      var last := order[|order| - 1];
      DistinctFits(order[..|order| - 1], all - {last});
    }
  }

  /** The longest dependency path of an accepted definition has fewer edges than there are steps. */
  lemma AcceptedHeights(steps: seq<Step>) returns (h: map<string, nat>)
    requires ValidListing(steps)
    ensures IsHeight(GraphOf(steps), h) && forall s :: s in h ==> h[s] < |steps|
  {
    var g := GraphOf(steps);
    var order :| Orders(g, order);
    h := HeightsExist(g, order, |order|);
    assert order[..|order|] == order;
    assert h.Keys == g.Keys;
    assert forall s :: s in g && h[s] > 0 ==> HasLower(g, h, s);
    DistinctFits(order, g.Keys);
    IdsFit(steps);
  }

  lemma {:induction false} IdsFit(steps: seq<Step>)
    ensures |IdSet(steps)| <= |steps|
  {
    if steps != [] {
      var init := steps[..|steps| - 1];
      IdsFit(init);
      assert steps == init + [steps[|steps| - 1]];
      IdSetAppend(init, steps[|steps| - 1]);
    }
  }

  // ----- The effect of one whole tick -----

  /** What a tick that raises nothing leaves of a run with no failed step. */
  ghost predicate TickLeaves(before: Run, view: map<nat, Task>, after: Run) {
    var local := ObserveAll(before.rows, view);
    && |after.rows| == |before.rows| && after.input == before.input
    && after.status == (if local != [] && AllSucceeded(local) then Completed else before.status)
    && forall j :: 0 <= j < |local| ==>
         && after.rows[j].step == before.rows[j].step
         && if Ready(local, j) then after.rows[j].status == Submitted && after.rows[j].taskId.Some?
            else after.rows[j] == (if MarkOf(before.rows[j], view, j) != [] then local[j] else before.rows[j])
  }

  /** A whole tick is its three phases. */
  lemma TickPhases(db: Db, r: nat, view: map<nat, Task>) returns (submitted: Db)
    requires Inv(db) && r in db.runs && db.runs[r].status == Active
    requires !SomeFailed(ObserveAll(db.runs[r].rows, view)) && Executes(db, r, Plan(db.runs[r], view))
    ensures SubmittedFrom(AfterMarks(db, r, view), submitted, r, ObserveAll(db.runs[r].rows, view), 0)
    ensures Exec(db, r, Plan(db.runs[r], view)) == Exec(submitted, r, Ending(ObserveAll(db.runs[r].rows, view)))
  {
    hide Inv, Tracks, Apply, Observe, Marks, Submissions, SubmittedFrom, AfterMarks, SomeFailed;
    var run := db.runs[r];
    var local := ObserveAll(run.rows, view);
    MarksPhase(db, r, view);
    var marked := AfterMarks(db, r, view);
    assert r in marked.runs && marked.runs[r].status == Active && marked.runs[r].input == run.input by {
      MarkedRun(db, r, view);
    }
    ExecConcat(db, r, Marks(run.rows, view, 0), Decisions(local, run.input));
    var subs := Submissions(local, run.input, 0);
    assert Decisions(local, run.input) == subs + Ending(local);
    ExecutesFront(marked, r, subs, Ending(local));
    TracksLength(marked.runs[r].rows, local);
    SubmissionsEffect(marked, r, local, 0);
    submitted := Exec(marked, r, subs);
    ExecConcat(marked, r, subs, Ending(local));
  }

  lemma TracksLength(rows: seq<StepRow>, local: seq<StepRow>)
    requires Tracks(rows, local, 0)
    ensures |rows| == |local|
  {
  }

  lemma TickEffect(db: Db, r: nat, view: map<nat, Task>)
    requires Inv(db) && r in db.runs && db.runs[r].status == Active
    requires !SomeFailed(ObserveAll(db.runs[r].rows, view)) && Executes(db, r, Plan(db.runs[r], view))
    ensures var after := Exec(db, r, Plan(db.runs[r], view));
            r in after.runs && TickLeaves(db.runs[r], view, after.runs[r])
  {
    var submitted := TickPhases(db, r, view);
    EndEffect(submitted, r, Ending(ObserveAll(db.runs[r].rows, view)));
    hide Inv, Executes, Exec, Plan;
    PhasesLeave(db, r, view, submitted);
  }

  lemma PhasesLeave(db: Db, r: nat, view: map<nat, Task>, submitted: Db)
    requires r in db.runs && db.runs[r].status == Active
    requires SubmittedFrom(AfterMarks(db, r, view), submitted, r, ObserveAll(db.runs[r].rows, view), 0)
    ensures var local := ObserveAll(db.runs[r].rows, view);
            TickLeaves(db.runs[r], view,
                       if Ending(local) == [] then submitted.runs[r] else submitted.runs[r].(status := Completed))
  {
  }

  lemma {:induction false} ExecutesFront(db: Db, r: nat, a: seq<Statement>, b: seq<Statement>)
    requires Executes(db, r, a + b)
    ensures Executes(db, r, a)
    decreases |a|
  {
    if a != [] {
      assert (a + b)[1..] == a[1..] + b;
      ExecutesFront(Apply(db, r, a[0]).value, r, a[1..], b);
    }
  }

  lemma EndEffect(db: Db, r: nat, end: seq<Statement>)
    requires r in db.runs && (end == [] || end == [Finish(Completed)])
    ensures var after := Exec(db, r, end);
            && r in after.runs && after.runs[r] == (if end == [] then db.runs[r] else db.runs[r].(status := Completed))
  {
    if end != [] {
      assert end[1..] == [];
    }
  }

  // ----- No reachable run is stuck -----

  ghost predicate TasksDone(db: Db, r: nat)
    requires r in db.runs
  {
    forall j :: 0 <= j < |db.runs[r].rows| && db.runs[r].rows[j].taskId.Some? ==>
                  db.runs[r].rows[j].taskId.value in db.tasks && db.tasks[db.runs[r].rows[j].taskId.value].status == TaskSucceeded
  }

  function Rank(status: StepStatus): nat {
    match status
    case Pending => 0
    case Submitted | Running => 1
    case Succeeded | Failed => 2
  }

  /** The first entry of a list that is not in a set. */
  lemma {:induction false} FirstOutside(order: seq<string>, done: set<string>, s: string) returns (i: nat)
    requires s in order && s !in done
    ensures i < |order| && order[i] !in done && forall k :: 0 <= k < i ==> order[k] in done
  {
    if order[0] !in done {
      i := 0;
    } else {
      var rest := FirstOutside(order[1..], done, s);
      i := rest + 1;
      forall k | 0 <= k < i
        ensures order[k] in done
      {
        assert k > 0 ==> order[k] == order[1..][k - 1];
      }
    }
  }

  lemma UnfinishedId(rows: seq<StepRow>, j: nat)
    requires DistinctIds(StepsOf(rows)) && j < |rows|
    ensures rows[j].step.id in SucceededIds(rows) <==> rows[j].status == Succeeded
  {
    forall k | 0 <= k < |rows| && k != j
      ensures rows[k].step.id != rows[j].step.id
    {
      assert StepsOf(rows)[k].id != StepsOf(rows)[j].id;
    }
  }

  /** In a topological order, the first step that has not succeeded has only succeeded dependencies. */
  lemma FirstUnfinished(rows: seq<StepRow>, order: seq<string>) returns (j: nat)
    requires DistinctIds(StepsOf(rows)) && DepsKnown(StepsOf(rows)) && Orders(GraphOf(StepsOf(rows)), order) && !AllSucceeded(rows)
    ensures j < |rows| && rows[j].status != Succeeded && forall d :: d in rows[j].step.deps ==> d in SucceededIds(rows)
  {
    hide SucceededIds, DistinctIds, DepsKnown;
    var steps := StepsOf(rows);
    GraphOfContents(steps);
    var bad :| 0 <= bad < |rows| && rows[bad].status != Succeeded;
    UnfinishedId(rows, bad);
    assert steps[bad].id in IdSet(steps);
    var i := FirstOutside(order, SucceededIds(rows), steps[bad].id);
    assert order[i] in IdSet(steps);
    j :| 0 <= j < |steps| && steps[j].id == order[i];
    UnfinishedId(rows, j);
    forall d | d in rows[j].step.deps
      ensures d in SucceededIds(rows)
    {
      assert d in GraphOf(steps)[order[i]];
      assert d in order[..i];
    }
  }

  /**
   * A reachable unfinished run with no failed step is never stuck: once its tasks have succeeded,
   * a tick finishes the run or moves a step forward.
   */
  lemma NeverStuck(es: seq<Event>, r: nat)
    requires r in History(es).runs && History(es).runs[r].status == Active
    requires TasksDone(History(es), r) && !SomeFailed(History(es).runs[r].rows)
    requires Executes(History(es), r, Plan(History(es).runs[r], History(es).tasks))
    ensures var db := History(es); var after := Exec(db, r, Plan(db.runs[r], db.tasks));
            && r in after.runs && |after.runs[r].rows| == |db.runs[r].rows|
            && (after.runs[r].status == Completed
                || exists j :: 0 <= j < |db.runs[r].rows| && Rank(after.runs[r].rows[j].status) > Rank(db.runs[r].rows[j].status))
  {
    var db := History(es);
    HistoryInv(es);
    assert RunInv(db, r);
    DoneStatuses(db, r);
    hide Inv, PromptInv, RunInv, Plan, Exec, Executes, TickLeaves, Observe, TasksDone;
    SomeFailedLocal(ObserveAll(db.runs[r].rows, db.tasks), db.runs[r].rows);
    TickEffect(db, r, db.tasks);
    UnstuckRow(db.runs[r], db.tasks, Exec(db, r, Plan(db.runs[r], db.tasks)).runs[r]);
  }

  lemma SomeFailedLocal(local: seq<StepRow>, rows: seq<StepRow>)
    requires LocalDone(rows, local)
    ensures !SomeFailed(local)
  {
  }

  /** What the first loop sees when every attached task has succeeded. */
  ghost predicate LocalDone(rows: seq<StepRow>, local: seq<StepRow>) {
    && |local| == |rows|
    && forall j :: 0 <= j < |local| ==>
         && local[j].step == rows[j].step && local[j].taskId == rows[j].taskId
         && local[j].status == (if rows[j].status == Pending then Pending else Succeeded)
         && rows[j].status in {Pending, Submitted, Succeeded}
         && (rows[j].status == Pending ==> rows[j].taskId.None?)
  }

  lemma DoneStatuses(db: Db, r: nat)
    requires r in db.runs && RunInv(db, r) && TasksDone(db, r) && !SomeFailed(db.runs[r].rows)
    ensures LocalDone(db.runs[r].rows, ObserveAll(db.runs[r].rows, db.tasks))
  {
    RunRowsForm(db, r);
  }

  lemma UnstuckRow(run: Run, view: map<nat, Task>, after: Run)
    requires ValidListing(StepsOf(run.rows)) && TickLeaves(run, view, after)
    requires LocalDone(run.rows, ObserveAll(run.rows, view))
    ensures after.status == Completed || exists j :: 0 <= j < |run.rows| && Rank(after.rows[j].status) > Rank(run.rows[j].status)
  {
    var local := ObserveAll(run.rows, view);
    assert StepsOf(local) == StepsOf(run.rows);
    if !AllSucceeded(local) {
      var order :| Orders(GraphOf(StepsOf(local)), order);
      var j := FirstUnfinished(local, order);
      assert Ready(local, j);
      assert Rank(after.rows[j].status) > Rank(run.rows[j].status);
    }
  }

  // ----- How many ticks a run takes -----

  /** The rows of a run after `k` ticks: steps finish in the order of their heights. */
  ghost predicate AtRound(run: Run, h: map<string, nat>, top: nat, k: nat) {
    && run.status == (if k >= top + 2 then Completed else Active)
    && forall j :: 0 <= j < |run.rows| ==> RowAtRound(run.rows[j], h, k)
  }

  ghost predicate RowAtRound(row: StepRow, h: map<string, nat>, k: nat) {
    && row.step.id in h
    && var level := h[row.step.id];
       && row.status == (if level >= k then Pending else if level == k - 1 then Submitted else Succeeded)
       && (row.taskId.Some? <==> level < k)
  }

  /** `h` is the height of the definition and `top` the length of its longest dependency path. */
  ghost predicate LongestPath(steps: seq<Step>, h: map<string, nat>, top: nat) {
    && IsHeight(GraphOf(steps), h)
    && (forall s :: s in h ==> h[s] <= top)
    && exists s :: s in h && h[s] == top
  }

  /** One round: a whole tick for `r` that raises nothing, then events in which its tasks succeed and no tick of `r` writes. */
  ghost predicate Round(es: seq<Event>, next: seq<Event>, r: nat) {
    var db, after := History(es), History(next);
    && r in db.runs && r in after.runs
    && es <= next
    && (db.runs[r].status == Active ==>
          && Executes(db, r, Plan(db.runs[r], db.tasks))
          && var ticked := Exec(db, r, Plan(db.runs[r], db.tasks)); r in ticked.runs && after.runs[r] == ticked.runs[r])
    && TasksDone(after, r)
  }

  /** What the first loop of the tick after round `k` sees. */
  ghost predicate LocalAtRound(local: seq<StepRow>, h: map<string, nat>, k: nat) {
    forall j :: 0 <= j < |local| ==>
      && local[j].step.id in h
      && local[j].status == (if h[local[j].step.id] < k then Succeeded else Pending)
      && (local[j].taskId.None? <==> local[j].status == Pending)
  }

  ghost predicate SeenDone(run: Run, view: map<nat, Task>) {
    forall j :: 0 <= j < |run.rows| && run.rows[j].taskId.Some? ==>
                  run.rows[j].taskId.value in view && view[run.rows[j].taskId.value].status == TaskSucceeded
  }

  lemma ObservedRound(run: Run, view: map<nat, Task>, h: map<string, nat>, top: nat, k: nat)
    requires AtRound(run, h, top, k) && SeenDone(run, view)
    ensures StepsOf(ObserveAll(run.rows, view)) == StepsOf(run.rows)
    ensures LocalAtRound(ObserveAll(run.rows, view), h, k)
  {
    forall j | 0 <= j < |run.rows|
      ensures var row := Observe(run.rows[j], view);
              && row.step == run.rows[j].step && row.step.id in h
              && row.status == (if h[row.step.id] < k then Succeeded else Pending)
              && (row.taskId.None? <==> row.status == Pending)
    {
      assert RowAtRound(run.rows[j], h, k);
    }
  }

  lemma DependencyAtRound(local: seq<StepRow>, h: map<string, nat>, k: nat, d: string)
    requires DistinctIds(StepsOf(local)) && LocalAtRound(local, h, k) && d in IdSet(StepsOf(local))
    ensures d in h && (d in SucceededIds(local) <==> h[d] < k)
  {
    hide SucceededIds, DistinctIds;
    var steps := StepsOf(local);
    var i :| 0 <= i < |steps| && steps[i].id == d;
    assert local[i].step.id == d;
    UnfinishedId(local, i);
  }

  lemma HeightOf(g: Graph, h: map<string, nat>, s: string, k: nat)
    requires IsHeight(g, h) && s in g && h[s] >= k
    ensures h[s] == k <==> forall d :: d in g[s] ==> d in h && h[d] < k
  {
  }

  /** The heights decide which steps a tick submits. */
  lemma ReadyAtRound(local: seq<StepRow>, h: map<string, nat>, k: nat, j: nat)
    requires j < |local| && DistinctIds(StepsOf(local)) && DepsKnown(StepsOf(local)) && IsHeight(GraphOf(StepsOf(local)), h)
    requires LocalAtRound(local, h, k)
    ensures Ready(local, j) <==> h[local[j].step.id] == k
  {
    hide SucceededIds, DistinctIds, IsHeight, IdSet;
    var steps := StepsOf(local);
    GraphOfContents(steps);
    assert steps[j].id in GraphOf(steps) && GraphOf(steps)[steps[j].id] == local[j].step.deps;
    forall d | d in local[j].step.deps
      ensures d in h && (d in SucceededIds(local) <==> h[d] < k)
    {
      assert d in steps[j].deps;
      DependencyAtRound(local, h, k, d);
    }
    if h[local[j].step.id] >= k {
      HeightOf(GraphOf(steps), h, local[j].step.id, k);
    }
  }

  lemma AllAtRound(local: seq<StepRow>, h: map<string, nat>, top: nat, k: nat)
    requires LongestPath(StepsOf(local), h, top) && LocalAtRound(local, h, k)
    ensures local != [] && (AllSucceeded(local) <==> top < k)
  {
    var i := TallestRow(local, h, top);
    hide IsHeight, LongestPath;
    assert local[i].step.id in h && h[local[i].step.id] == top;
    assert local[i].status == Succeeded <==> top < k;
    TallIsLongest(StepsOf(local), h, top);
  }

  lemma TallIsLongest(steps: seq<Step>, h: map<string, nat>, top: nat)
    requires LongestPath(steps, h, top)
    ensures forall s :: s in h ==> h[s] <= top
  {
  }

  lemma TallestRow(local: seq<StepRow>, h: map<string, nat>, top: nat) returns (i: nat)
    requires LongestPath(StepsOf(local), h, top)
    ensures i < |local| && local[i].step.id in h && h[local[i].step.id] == top
  {
    var steps := StepsOf(local);
    var s :| s in h && h[s] == top;
    assert h.Keys == GraphOf(steps).Keys;
    assert s in IdSet(steps);
    hide IsHeight;
    i :| 0 <= i < |steps| && steps[i].id == s;
    assert local[i].step.id == s;
  }

  lemma RowStep(run: Run, after: Run, view: map<nat, Task>, h: map<string, nat>, top: nat, k: nat, j: nat)
    requires AtRound(run, h, top, k) && TickLeaves(run, view, after) && SeenDone(run, view) && j < |run.rows|
    requires run.rows[j].step.id in h && (Ready(ObserveAll(run.rows, view), j) <==> h[run.rows[j].step.id] == k)
    ensures RowAtRound(after.rows[j], h, k + 1)
  {
    assert RowAtRound(run.rows[j], h, k);
  }

  lemma RoundStep(run: Run, after: Run, view: map<nat, Task>, h: map<string, nat>, top: nat, k: nat)
    requires ValidListing(StepsOf(run.rows)) && LongestPath(StepsOf(run.rows), h, top)
    requires run.status == Active && AtRound(run, h, top, k) && TickLeaves(run, view, after) && SeenDone(run, view)
    ensures AtRound(after, h, top, k + 1)
  {
    var local := ObserveAll(run.rows, view);
    ObservedRound(run, view, h, top, k);
    AllAtRound(local, h, top, k);
    hide ObserveAll, IsHeight, RowAtRound, SeenDone, Ready, AllSucceeded;
    forall j | 0 <= j < |after.rows|
      ensures RowAtRound(after.rows[j], h, k + 1)
    {
      ReadyAtRound(local, h, k, j);
      assert StepsOf(local)[j] == StepsOf(run.rows)[j];
      RowStep(run, after, view, h, top, k, j);
    }
  }

  /** No failed step, so the tick goes on to submit. */
  lemma NoFailure(local: seq<StepRow>, h: map<string, nat>, k: nat)
    requires LocalAtRound(local, h, k)
    ensures !SomeFailed(local)
  {
  }

  lemma RoundFrozen(es: seq<Event>, next: seq<Event>, r: nat)
    requires es <= next && r in History(es).runs
    ensures r in History(next).runs && StepsOf(History(next).runs[r].rows) == StepsOf(History(es).runs[r].rows)
    ensures History(es).runs[r].status != Active ==> History(next).runs[r] == History(es).runs[r]
  {
    HistoryFrozen(es, next[|es|..]);
    assert es + next[|es|..] == next;
    assert FrozenRun(History(es).runs[r], History(next).runs[r]);
  }

  lemma RoundKeeps(es: seq<Event>, next: seq<Event>, r: nat, steps: seq<Step>, h: map<string, nat>, top: nat, k: nat)
    requires Round(es, next, r) && LongestPath(steps, h, top)
    requires StepsOf(History(es).runs[r].rows) == steps && TasksDone(History(es), r) && AtRound(History(es).runs[r], h, top, k)
    ensures r in History(next).runs && StepsOf(History(next).runs[r].rows) == steps && TasksDone(History(next), r)
    ensures AtRound(History(next).runs[r], h, top, k + 1)
  {
    RoundIs(es, next, r);
    hide *;
    RoundFrozen(es, next, r);
    if History(es).runs[r].status == Active {
      ReachableRun(es, r);
      DoneIsSeen(History(es), r);
      ActiveRound(History(es), r, History(next).runs[r], h, top, k);
    } else {
      HeightsWithin(steps, h, top);
      FinishedRound(History(es).runs[r], h, top, k);
    }
  }

  lemma RoundIs(es: seq<Event>, next: seq<Event>, r: nat)
    requires Round(es, next, r)
    ensures es <= next && r in History(es).runs && r in History(next).runs && TasksDone(History(next), r)
    ensures var db := History(es);
            db.runs[r].status == Active ==>
              && Executes(db, r, Plan(db.runs[r], db.tasks))
              && r in Exec(db, r, Plan(db.runs[r], db.tasks)).runs
              && History(next).runs[r] == Exec(db, r, Plan(db.runs[r], db.tasks)).runs[r]
  {
    hide History, Plan, Exec, Executes, TasksDone;
  }

  lemma ReachableRun(es: seq<Event>, r: nat)
    requires r in History(es).runs
    ensures Inv(History(es)) && ValidListing(StepsOf(History(es).runs[r].rows))
  {
    HistoryInv(es);
    hide History, PromptInv, ValidListing;
    assert RunInv(History(es), r);
  }

  lemma DoneIsSeen(db: Db, r: nat)
    requires r in db.runs && TasksDone(db, r)
    ensures SeenDone(db.runs[r], db.tasks)
  {
  }

  lemma HeightsWithin(steps: seq<Step>, h: map<string, nat>, top: nat)
    requires LongestPath(steps, h, top)
    ensures forall s :: s in h ==> h[s] <= top
  {
  }

  lemma ActiveRound(db: Db, r: nat, after: Run, h: map<string, nat>, top: nat, k: nat)
    requires Inv(db) && r in db.runs && db.runs[r].status == Active && ValidListing(StepsOf(db.runs[r].rows))
    requires LongestPath(StepsOf(db.runs[r].rows), h, top) && AtRound(db.runs[r], h, top, k) && SeenDone(db.runs[r], db.tasks)
    requires Executes(db, r, Plan(db.runs[r], db.tasks))
    requires r in Exec(db, r, Plan(db.runs[r], db.tasks)).runs && after == Exec(db, r, Plan(db.runs[r], db.tasks)).runs[r]
    ensures AtRound(after, h, top, k + 1)
  {
    hide *;
    ObservedRound(db.runs[r], db.tasks, h, top, k);
    NoFailure(ObserveAll(db.runs[r].rows, db.tasks), h, k);
    TickEffect(db, r, db.tasks);
    RoundStep(db.runs[r], after, db.tasks, h, top, k);
  }

  lemma FinishedRound(run: Run, h: map<string, nat>, top: nat, k: nat)
    requires AtRound(run, h, top, k) && run.status != Active
    requires forall s :: s in h ==> h[s] <= top
    ensures AtRound(run, h, top, k + 1)
  {
    forall j | 0 <= j < |run.rows|
      ensures RowAtRound(run.rows[j], h, k + 1)
    {
      assert RowAtRound(run.rows[j], h, k);
    }
  }

  lemma StartsAtRoundZero(next: seq<Event>, es: seq<Event>, r: nat, input: Value, steps: seq<Step>, h: map<string, nat>, top: nat)
    requires ValidListing(steps) && LongestPath(steps, h, top) && r !in History(es).runs && next == es + [Start(r, input, steps)]
    ensures r in History(next).runs && AtRound(History(next).runs[r], h, top, 0) && History(next).runs[r].status == Active
    ensures StepsOf(History(next).runs[r].rows) == steps && TasksDone(History(next), r)
  {
    var db := History(next);
    assert next[..|next| - 1] == es;
    assert StepsOf(db.runs[r].rows) == steps;
    assert h.Keys == IdSet(steps);
    forall j | 0 <= j < |db.runs[r].rows|
      ensures RowAtRound(db.runs[r].rows[j], h, 0)
    {
      assert steps[j].id in IdSet(steps);
    }
  }

  /** The rows after `k` rounds. */
  lemma {:induction false} RoundsReach(rounds: seq<seq<Event>>, es: seq<Event>, r: nat, input: Value, steps: seq<Step>,
                                       h: map<string, nat>, top: nat, k: nat)
    requires ValidListing(steps) && LongestPath(steps, h, top) && r !in History(es).runs
    requires k < |rounds| && rounds[0] == es + [Start(r, input, steps)]
    requires forall i :: 0 <= i < |rounds| - 1 ==> Round(rounds[i], rounds[i + 1], r)
    ensures r in History(rounds[k]).runs && AtRound(History(rounds[k]).runs[r], h, top, k)
    ensures StepsOf(History(rounds[k]).runs[r].rows) == steps && TasksDone(History(rounds[k]), r)
  {
    hide ValidListing, LongestPath, TasksDone, History, StepsOf, Round, AtRound;
    if k == 0 {
      StartsAtRoundZero(rounds[0], es, r, input, steps, h, top);
    } else {
      RoundsReach(rounds, es, r, input, steps, h, top, k - 1);
      assert Round(rounds[k - 1], rounds[k - 1 + 1], r);
      RoundKeeps(rounds[k - 1], rounds[k], r, steps, h, top, k - 1);
    }
  }

  lemma RoundStatus(run: Run, h: map<string, nat>, top: nat, k: nat)
    requires AtRound(run, h, top, k)
    ensures run.status == Completed <==> k >= top + 2
  {
    hide RowAtRound;
  }

  /**
   * Started from any history, with every submission accepted and every submitted task succeeding
   * before the next tick, a run is `succeeded` after `k` ticks exactly when `k` is at least the length
   * of its longest dependency path plus two.
   */
  lemma RunSucceedsOnTime(rounds: seq<seq<Event>>, es: seq<Event>, r: nat, input: Value, steps: seq<Step>,
                          h: map<string, nat>, top: nat, k: nat)
    requires ValidListing(steps) && LongestPath(steps, h, top) && r !in History(es).runs
    requires k < |rounds| && rounds[0] == es + [Start(r, input, steps)]
    requires forall i :: 0 <= i < |rounds| - 1 ==> Round(rounds[i], rounds[i + 1], r)
    ensures r in History(rounds[k]).runs && AtRound(History(rounds[k]).runs[r], h, top, k)
    ensures History(rounds[k]).runs[r].status == Completed <==> k >= top + 2
    ensures StepsOf(History(rounds[k]).runs[r].rows) == steps && TasksDone(History(rounds[k]), r)
  {
    hide *;
    RoundsReach(rounds, es, r, input, steps, h, top, k);
    RoundStatus(History(rounds[k]).runs[r], h, top, k);
  }

  /** So a definition of `n` steps needs at most `n + 1` ticks. */
  lemma RunSucceedsWithinSteps(rounds: seq<seq<Event>>, es: seq<Event>, r: nat, input: Value, steps: seq<Step>)
    requires ValidListing(steps) && r !in History(es).runs
    requires |rounds| > |steps| + 1 && rounds[0] == es + [Start(r, input, steps)]
    requires forall i :: 0 <= i < |rounds| - 1 ==> Round(rounds[i], rounds[i + 1], r)
    ensures r in History(rounds[|steps| + 1]).runs && History(rounds[|steps| + 1]).runs[r].status == Completed
  {
    var h := AcceptedHeights(steps);
    assert steps[0].id in IdSet(steps);
    var top := Tallest(h);
    RunSucceedsOnTime(rounds, es, r, input, steps, h, h[top], |steps| + 1);
  }

  lemma {:induction false} Tallest(h: map<string, nat>) returns (s: string)
    requires h != map[]
    ensures s in h && forall t :: t in h ==> h[t] <= h[s]
    decreases |h|
  {
    s :| s in h;
    var rest := h - {s};
    assert forall t :: t in h ==> t == s || (t in rest && rest[t] == h[t]);
    if rest != map[] {
      var other := Tallest(rest);
      s := if h[other] > h[s] then other else s;
    }
  }

  // ----- Rounds happen -----

  lemma AttachedTaskExists(es: seq<Event>, r: nat, j: nat)
    requires r in History(es).runs && j < |History(es).runs[r].rows| && History(es).runs[r].rows[j].taskId.Some?
    ensures History(es).runs[r].rows[j].taskId.value in History(es).tasks
  {
    HistoryInv(es);
    assert RunInv(History(es), r) && RowInv(History(es), r, j);
  }

  lemma {:induction false} TasksCanSucceed(es: seq<Event>, r: nat, n: nat) returns (next: seq<Event>)
    requires r in History(es).runs && n <= |History(es).runs[r].rows|
    ensures es <= next && History(next).runs == History(es).runs && History(next).tasks.Keys == History(es).tasks.Keys
    ensures forall j :: 0 <= j < n && History(es).runs[r].rows[j].taskId.Some? ==>
              History(es).runs[r].rows[j].taskId.value in History(next).tasks &&
              History(next).tasks[History(es).runs[r].rows[j].taskId.value].status == TaskSucceeded
  {
    if n == 0 {
      next := es;
    } else {
      var before := TasksCanSucceed(es, r, n - 1);
      var row := History(es).runs[r].rows[n - 1];
      next := before;
      if row.taskId.Some? {
        AttachedTaskExists(es, r, n - 1);
        var change := TaskChange(row.taskId.value, TaskSucceeded, "");
        next := before + [change];
        assert next[..|next| - 1] == before;
        assert History(next) == Next(History(before), change);
      }
    }
  }

  /** Whenever no submission is refused, the round the theorem speaks of can take place. */
  lemma RoundIsPossible(es: seq<Event>, r: nat) returns (next: seq<Event>)
    requires r in History(es).runs && Executes(History(es), r, Plan(History(es).runs[r], History(es).tasks))
    ensures Round(es, next, r)
  {
    var db := History(es);
    var plan := Plan(db.runs[r], db.tasks);
    var tick := Tick(r, db.tasks, |plan|);
    var ticked := es + [tick];
    assert ticked[..|ticked| - 1] == es;
    assert History(ticked) == Next(db, tick);
    HistoryFrozen(es, [tick]);
    next := TasksCanSucceed(ticked, r, |History(ticked).runs[r].rows|);
  }
}
