/** What happens to workflow runs, in any order: ticks that crash anywhere, tasks, settings and clients. */
module WorkflowHistory {
  import opened Wrappers
  import opened WorkflowDefinition
  import opened Template
  import opened WorkflowRun
  import opened WorkflowSafety

  /**
   * A tick works on one run with the task states it happened to read, and stops after `cut`
   * statements (a crash) or at a submission that raises, or at the end. Tasks change on their own,
   * and so does what submissions meet: agents, budgets, settings. A client that shares the run's
   * actor may submit a task under any key, the keys of steps included; other tasks do not meet them.
   */
  datatype Event =
    | Start(run: nat, input: Value, steps: seq<Step>)
    | Tick(run: nat, view: map<nat, Task>, cut: nat)
    | TaskChange(task: nat, status: TaskStatus, result: string)
    | OtherTask
    | SetGate(gate: Gate)
    | ClientSubmit(key: Key, request: Request)

  function NewRun(input: Value, steps: seq<Step>): Run {
    Run(Active, input, seq(|steps|, i requires 0 <= i < |steps| => StepRow(steps[i], Pending, None, "")))
  }

  function CutAt<T>(s: seq<T>, n: nat): seq<T> {
    if n < |s| then s[..n] else s
  }

  ghost function Next(db: Db, e: Event): Db {
    match e
    case Start(r, input, steps) =>
      if r !in db.runs && ValidListing(steps) then db.(runs := db.runs[r := NewRun(input, steps)]) else db
    case Tick(r, view, cut) =>
      if r in db.runs && db.runs[r].status == Active then Exec(db, r, CutAt(Plan(db.runs[r], view), cut)) else db
    case TaskChange(t, status, result) =>
      if t in db.tasks then db.(tasks := db.tasks[t := db.tasks[t].(status := status, result := result)]) else db
    case OtherTask => db.(tasks := db.tasks[db.next := Task(Queued, "", None)], next := db.next + 1)
    case SetGate(gate) => db.(gate := gate)
    case ClientSubmit(key, request) =>
      if Refuses(db.gate, key, request) || key in db.keys then db
      else
        db.(tasks := db.tasks[db.next := Task(Queued, "", Some(key))],
            keys := db.keys[key := KeyRow(db.next, request, true)],
            next := db.next + 1)
  }

  ghost function History(es: seq<Event>): Db {
    if es == [] then EMPTY else Next(History(es[..|es| - 1]), es[|es| - 1])
  }

  // ----- Prompts -----

  ghost function Ancestors(rows: seq<StepRow>, j: nat): iset<string>
    requires j < |rows|
  {
    iset p | Walk(GraphOf(StepsOf(rows)), p) && |p| >= 2 && p[0] == rows[j].step.id :: p[|p| - 1]
  }

  /** The prompt of step `j` reads the run input and the results of its ancestors only. */
  ghost predicate ReadsAncestors(rows: seq<StepRow>, j: nat)
    requires j < |rows|
  {
    ReadsOnly(Parse(rows[j].step.prompt), Ancestors(rows, j))
  }

  /** A prompt a tick submitted is the one that would be rendered now. */
  ghost predicate PromptInv(db: Db) {
    forall r, j :: r in db.runs && 0 <= j < |db.runs[r].rows| ==> PromptStable(db, r, j)
  }

  ghost predicate PromptStable(db: Db, r: nat, j: nat)
    requires r in db.runs && j < |db.runs[r].rows|
  {
    TickKey(db, r, j) && ReadsAncestors(db.runs[r].rows, j) ==>
      db.keys[KeyOf(db, r, j)].request == RequestOf(db.runs[r].rows, db.runs[r].input, j)
  }

  lemma {:induction false} StepResultsContents(rows: seq<StepRow>)
    requires DistinctIds(StepsOf(rows))
    ensures StepResults(rows).Keys == SucceededIds(rows)
    ensures forall j :: 0 <= j < |rows| && rows[j].status == Succeeded ==>
                          rows[j].step.id in SucceededIds(rows) &&
                          StepResults(rows)[rows[j].step.id] == Obj(map["result" := Str(rows[j].result)])
  {
    if rows != [] {
      var init, last := rows[..|rows| - 1], rows[|rows| - 1];
      forall i, j | 0 <= i < j < |init|
        ensures StepsOf(init)[i].id != StepsOf(init)[j].id
      {
        assert StepsOf(rows)[i].id != StepsOf(rows)[j].id;
      }
      StepResultsContents(init);
      assert rows == init + [last];
      assert SucceededIds(rows) == SucceededIds(init) + (if last.status == Succeeded then {last.step.id} else {}) by {
        forall d
          ensures d in SucceededIds(rows) <==> d in SucceededIds(init) || (last.status == Succeeded && d == last.step.id)
        {
          if d in SucceededIds(init) {
            var k :| 0 <= k < |init| && init[k].status == Succeeded && init[k].step.id == d;
            assert rows[k] == init[k];
          }
        }
      }
      forall j | 0 <= j < |rows| && rows[j].status == Succeeded
        ensures StepResults(rows)[rows[j].step.id] == Obj(map["result" := Str(rows[j].result)])
      {
        assert StepsOf(rows)[j].id == rows[j].step.id && StepsOf(rows)[|rows| - 1].id == last.step.id;
      }
    }
  }

  /** Once a step is submitted, every step it depends on, at any distance, has succeeded. */
  lemma {:induction false} WalkSucceeded(db: Db, r: nat, j: nat, p: seq<string>)
    requires r in db.runs && RunInv(db, r) && j < |db.runs[r].rows|
    requires db.runs[r].rows[j].taskId.Some? || TickKey(db, r, j)
    requires Walk(GraphOf(StepsOf(db.runs[r].rows)), p) && |p| >= 2 && p[0] == db.runs[r].rows[j].step.id
    ensures p[|p| - 1] in SucceededIds(db.runs[r].rows)
    decreases |p|
  {
    var rows := db.runs[r].rows;
    GraphOfContents(StepsOf(rows));
    assert RowInv(db, r, j);
    assert StepsOf(rows)[j].id == p[0] && p[1] in GraphOf(StepsOf(rows))[p[0]];
    if |p| > 2 {
      var k :| 0 <= k < |rows| && rows[k].status == Succeeded && rows[k].step.id == p[1];
      assert RowInv(db, r, k);
      WalkSucceeded(db, r, k, p[1..]);
    }
  }

  /** Rows in which the same steps succeeded, with the same results, up to rows that had not finished. */
  ghost predicate Extends(a: seq<StepRow>, b: seq<StepRow>) {
    && StepsOf(a) == StepsOf(b)
    && forall j :: 0 <= j < |a| && a[j].status == Succeeded ==> b[j] == a[j]
  }

  lemma ExtendsAgree(a: seq<StepRow>, b: seq<StepRow>, ids: iset<string>)
    requires Extends(a, b) && DistinctIds(StepsOf(a))
    requires forall d :: d in ids ==> d in SucceededIds(a)
    ensures AgreeOn(StepResults(a), StepResults(b), ids)
  {
    StepResultsContents(a);
    StepResultsContents(b);
    forall d | d in ids
      ensures d in StepResults(a) && d in StepResults(b) && StepResults(a)[d] == StepResults(b)[d]
    {
      var k :| 0 <= k < |a| && a[k].status == Succeeded && a[k].step.id == d;
      assert b[k] == a[k];
    }
  }

  /** The prompt of a submitted step renders the same for ever after. */
  lemma PromptFixed(db: Db, r: nat, j: nat, later: seq<StepRow>)
    requires r in db.runs && RunInv(db, r) && j < |db.runs[r].rows| && TickKey(db, r, j)
    requires Extends(db.runs[r].rows, later) && ReadsAncestors(db.runs[r].rows, j)
    ensures RequestOf(later, db.runs[r].input, j) == RequestOf(db.runs[r].rows, db.runs[r].input, j)
  {
    var rows := db.runs[r].rows;
    var ids := Ancestors(rows, j);
    forall d | d in ids
      ensures d in SucceededIds(rows)
    {
      var p :| Walk(GraphOf(StepsOf(rows)), p) && |p| >= 2 && p[0] == rows[j].step.id && p[|p| - 1] == d;
      WalkSucceeded(db, r, j, p);
    }
    ExtendsAgree(rows, later, ids);
    RenderDependsOnReads(Parse(rows[j].step.prompt), db.runs[r].input, StepResults(rows), StepResults(later), ids);
    assert StepsOf(rows)[j] == rows[j].step && StepsOf(later)[j] == later[j].step;
  }

  lemma StatementKeepsPrompts(db: Db, r: nat, s: Statement)
    requires Inv(db) && PromptInv(db) && Enabled(db, r, s) && Apply(db, r, s).Some?
    ensures PromptInv(Apply(db, r, s).value)
  {
    hide Refuses, Apply, Enabled, Extends, PromptStable;
    var after := Apply(db, r, s).value;
    StatementExtends(db, r, s);
    ApplyKeepsOthers(db, r, s);
    assert RunInv(db, r);
    hide Inv, RunInv;
    forall q, j | q in after.runs && 0 <= j < |after.runs[q].rows|
      ensures PromptStable(after, q, j)
    {
      if q == r {
        assert PromptStable(db, r, j);
        StatementKeepsPrompt(db, r, s, j);
      } else {
        assert q in db.runs && after.runs[q] == db.runs[q];
        assert PromptStable(db, q, j);
        SamePrompt(db, after, q, j);
      }
    }
  }

  lemma SamePrompt(db: Db, after: Db, q: nat, j: nat)
    requires q in db.runs && q in after.runs && after.runs[q] == db.runs[q] && j < |db.runs[q].rows| && PromptStable(db, q, j)
    requires TickKey(after, q, j) ==> KeyOf(db, q, j) in db.keys && after.keys[KeyOf(db, q, j)] == db.keys[KeyOf(db, q, j)]
    ensures PromptStable(after, q, j)
  {
  }

  /** A statement on one run touches no other. */
  lemma ApplyKeepsOthers(db: Db, r: nat, s: Statement)
    requires Apply(db, r, s).Some?
    ensures var after := Apply(db, r, s).value;
            && after.runs.Keys == db.runs.Keys
            && (forall q :: q in db.runs && q != r ==> after.runs[q] == db.runs[q])
            && forall k: Key :: k in after.keys && k.run != r ==> k in db.keys && after.keys[k] == db.keys[k]
  {
    hide Refuses;
  }

  lemma StatementExtends(db: Db, r: nat, s: Statement)
    requires Inv(db) && Enabled(db, r, s) && Apply(db, r, s).Some?
    ensures r in Apply(db, r, s).value.runs && Extends(db.runs[r].rows, Apply(db, r, s).value.runs[r].rows)
    ensures |Apply(db, r, s).value.runs[r].rows| == |db.runs[r].rows|
  {
    hide Refuses, RequestOf;
    RunRowsForm(db, r);
  }

  lemma StatementKeepsPrompt(db: Db, r: nat, s: Statement, j: nat)
    requires Enabled(db, r, s) && Apply(db, r, s).Some? && RunInv(db, r)
    requires j < |db.runs[r].rows| && PromptStable(db, r, j)
    requires r in Apply(db, r, s).value.runs && Extends(db.runs[r].rows, Apply(db, r, s).value.runs[r].rows)
    ensures PromptStable(Apply(db, r, s).value, r, j)
  {
    var after := Apply(db, r, s).value;
    var rows, rows' := db.runs[r].rows, after.runs[r].rows;
    assert StepsOf(rows)[j] == rows[j].step && StepsOf(rows')[j] == rows'[j].step;
    if TickKey(after, r, j) && ReadsAncestors(rows', j) {
      assert Ancestors(rows', j) == Ancestors(rows, j);
      if TickKey(db, r, j) {
        PromptFixed(db, r, j, rows');
      } else {
        assert s.Submit?;
        assert StepsOf(rows)[s.row].id == StepsOf(rows)[j].id;
        assert s.row == j;
      }
    }
  }

  // ----- Ticks -----

  ghost predicate TemplatesReadAncestors(rows: seq<StepRow>) {
    forall j :: 0 <= j < |rows| ==> ReadsAncestors(rows, j)
  }

  lemma {:induction false} ExecKeepsPrompts(db: Db, r: nat, ss: seq<Statement>)
    requires Inv(db) && PromptInv(db) && EnabledAll(db, r, ss)
    ensures PromptInv(Exec(db, r, ss))
    decreases |ss|
  {
    if ss != [] && Apply(db, r, ss[0]).Some? {
      var after := Apply(db, r, ss[0]).value;
      StatementKeepsInv(db, r, ss[0]);
      StatementKeepsPrompts(db, r, ss[0]);
      ExecKeepsPrompts(after, r, ss[1..]);
    }
  }

  // ----- Histories -----

  lemma StartKeepsInv(db: Db, r: nat, input: Value, steps: seq<Step>)
    requires Inv(db) && PromptInv(db) && r !in db.runs && ValidListing(steps)
    ensures var after := Next(db, Start(r, input, steps)); Inv(after) && PromptInv(after) && Frozen(db, after)
  {
    var after := Next(db, Start(r, input, steps));
    NewRunInv(db, after, r, input, steps);
    hide ValidListing, RunInv, NewRun, PromptStable;
    StartKeepsRuns(db, after, r);
    StartKeepsPrompts(db, after, r);
  }

  lemma StartKeepsRuns(db: Db, after: Db, r: nat)
    requires Inv(db) && r !in db.runs && r in after.runs && after == db.(runs := db.runs[r := after.runs[r]]) && RunInv(after, r)
    ensures Inv(after) && Frozen(db, after)
  {
    hide RunInv;
    forall q | q in after.runs
      ensures RunInv(after, q)
    {
      if q != r {
        RunInvFrame(db, after, q);
      }
    }
  }

  lemma StartKeepsPrompts(db: Db, after: Db, r: nat)
    requires PromptInv(db) && r !in db.runs && r in after.runs && after == db.(runs := db.runs[r := after.runs[r]])
    requires forall j :: 0 <= j < |after.runs[r].rows| ==> PromptStable(after, r, j)
    ensures PromptInv(after)
  {
    hide PromptStable;
    forall q, j | q in after.runs && 0 <= j < |after.runs[q].rows|
      ensures PromptStable(after, q, j)
    {
      if q != r {
        assert PromptStable(db, q, j);
        SamePrompt(db, after, q, j);
      }
    }
  }

  lemma NewRunInv(db: Db, after: Db, r: nat, input: Value, steps: seq<Step>)
    requires TablesInv(db) && r !in db.runs && ValidListing(steps)
    requires after == db.(runs := db.runs[r := NewRun(input, steps)])
    ensures RunInv(after, r) && forall j :: 0 <= j < |after.runs[r].rows| ==> PromptStable(after, r, j)
  {
    hide ReadsAncestors, RequestOf;
    var rows := after.runs[r].rows;
    assert StepsOf(rows) == steps;
    hide ValidListing;
    assert forall k: Key :: k in after.keys && !after.keys[k].client ==> k.run != r;
  }

  ghost predicate ClientKeysOnly(db: Db, after: Db) {
    && (forall k :: k in db.keys ==> k in after.keys && after.keys[k] == db.keys[k])
    && (forall k :: k in after.keys && k !in db.keys ==> after.keys[k].client)
  }

  /** A change of the tables that touches no run, and no key but for a client's. */
  lemma TasksKeepInv(db: Db, after: Db)
    requires Inv(db) && PromptInv(db) && after.runs == db.runs && ClientKeysOnly(db, after) && TablesInv(after)
    ensures Inv(after) && PromptInv(after) && Frozen(db, after)
  {
    forall r | r in after.runs
      ensures RunInv(after, r)
    {
      RunInvFrame(db, after, r);
    }
    forall r, j | r in after.runs && 0 <= j < |after.runs[r].rows|
      ensures PromptStable(after, r, j)
    {
      assert PromptStable(db, r, j);
      SamePrompt(db, after, r, j);
    }
  }

  lemma {:induction false} EnabledCut(db: Db, r: nat, ss: seq<Statement>, cut: nat)
    requires EnabledAll(db, r, ss)
    ensures EnabledAll(db, r, CutAt(ss, cut))
  {
    if cut < |ss| {
      EnabledPrefix(db, r, ss, cut);
    }
  }

  lemma TickKeepsInv(db: Db, r: nat, view: map<nat, Task>, cut: nat)
    requires Inv(db) && PromptInv(db) && r in db.runs && db.runs[r].status == Active
    ensures var after := Exec(db, r, CutAt(Plan(db.runs[r], view), cut)); Inv(after) && PromptInv(after) && Frozen(db, after)
  {
    hide Inv, PromptInv, Frozen, Plan, Exec, EnabledAll;
    var plan := Plan(db.runs[r], view);
    PlanEnabled(db, r, view);
    EnabledCut(db, r, plan, cut);
    ExecKeepsInv(db, r, CutAt(plan, cut));
    ExecKeepsPrompts(db, r, CutAt(plan, cut));
  }

  lemma OthersKeepInv(db: Db, e: Event)
    requires Inv(db) && PromptInv(db) && (e.TaskChange? || e.OtherTask? || e.SetGate? || e.ClientSubmit?)
    ensures Inv(Next(db, e)) && PromptInv(Next(db, e)) && Frozen(db, Next(db, e))
  {
    hide RunInv, PromptInv, Frozen, TablesInv;
    OthersKeepTables(db, e);
    TasksKeepInv(db, Next(db, e));
  }

  lemma OthersKeepTables(db: Db, e: Event)
    requires TablesInv(db) && (e.TaskChange? || e.OtherTask? || e.SetGate? || e.ClientSubmit?)
    ensures TablesInv(Next(db, e)) && Next(db, e).runs == db.runs && ClientKeysOnly(db, Next(db, e))
  {
    hide Refuses;
    if e.ClientSubmit? {
      ClientKeepsTables(db, e.key, e.request);
    } else if e.TaskChange? {
      hide ClientKeysOnly;
      ChangeKeepsTables(db, e.task, e.status, e.result);
    }
  }

  lemma ClientKeepsTables(db: Db, key: Key, request: Request)
    requires TablesInv(db)
    ensures var after := Next(db, ClientSubmit(key, request)); TablesInv(after) && after.runs == db.runs && ClientKeysOnly(db, after)
  {
    hide Refuses;
  }

  lemma ChangeKeepsTables(db: Db, t: nat, status: TaskStatus, result: string)
    requires TablesInv(db)
    ensures var after := Next(db, TaskChange(t, status, result)); TablesInv(after) && after.runs == db.runs && ClientKeysOnly(db, after)
  {
  }

  lemma NextKeepsInv(db: Db, e: Event)
    requires Inv(db) && PromptInv(db)
    ensures Inv(Next(db, e)) && PromptInv(Next(db, e)) && Frozen(db, Next(db, e))
  {
    hide Inv, PromptInv, Plan, Exec, ValidListing, Frozen;
    if e.Start? && e.run !in db.runs && ValidListing(e.steps) {
      StartKeepsInv(db, e.run, e.input, e.steps);
    } else if e.Tick? && e.run in db.runs && db.runs[e.run].status == Active {
      TickKeepsInv(db, e.run, e.view, e.cut);
    } else if e.Start? || e.Tick? {
      FrozenReflexive(db);
    } else {
      OthersKeepInv(db, e);
    }
  }

  lemma {:induction false} HistoryInv(es: seq<Event>)
    ensures Inv(History(es)) && PromptInv(History(es))
  {
    if es != [] {
      HistoryInv(es[..|es| - 1]);
      NextKeepsInv(History(es[..|es| - 1]), es[|es| - 1]);
    }
  }

  lemma FrozenReflexive(db: Db)
    ensures Frozen(db, db)
  {
  }

  /** Tasks stay attached, finished steps and finished runs never change, and a finished run submits nothing. */
  lemma {:induction false} HistoryFrozen(es: seq<Event>, more: seq<Event>)
    ensures Frozen(History(es), History(es + more))
  {
    hide Inv, PromptInv, Frozen, Next;
    if more == [] {
      assert es + more == es;
      FrozenReflexive(History(es));
    } else {
      var last := |more| - 1;
      HistoryFrozen(es, more[..last]);
      HistoryInv(es + more[..last]);
      NextKeepsInv(History(es + more[..last]), more[last]);
      assert (es + more)[..|es + more| - 1] == es + more[..last];
      FrozenTransitive(History(es), History(es + more[..last]), History(es + more));
    }
  }

  /** A step has a task only once every step it depends on has succeeded. */
  lemma TaskOnlyAfterDependencies(es: seq<Event>, r: nat, j: nat)
    requires r in History(es).runs && j < |History(es).runs[r].rows|
    requires History(es).runs[r].rows[j].taskId.Some? || TickKey(History(es), r, j)
    ensures forall d :: d in History(es).runs[r].rows[j].step.deps ==>
              exists k :: 0 <= k < |History(es).runs[r].rows| && History(es).runs[r].rows[k].step.id == d
                          && History(es).runs[r].rows[k].status == Succeeded
  {
    var db := History(es);
    HistoryInv(es);
    assert RunInv(db, r) && RowInv(db, r, j);
    forall d | d in db.runs[r].rows[j].step.deps
      ensures exists k :: 0 <= k < |db.runs[r].rows| && db.runs[r].rows[k].step.id == d && db.runs[r].rows[k].status == Succeeded
    {
      assert d in SucceededIds(db.runs[r].rows);
    }
  }

  /** However often ticks crash and run again and whatever clients submit, no step gets two tasks, and the one attached is the only one under its key. */
  lemma AtMostOneTaskPerStep(es: seq<Event>, k: Key, s: nat, t: nat)
    requires s in History(es).tasks && t in History(es).tasks
    requires History(es).tasks[s].origin == Some(k) == History(es).tasks[t].origin
    ensures s == t
    ensures k in History(es).keys && (k.run in History(es).runs || History(es).keys[k].client)
    ensures k.run in History(es).runs ==> forall j :: 0 <= j < |History(es).runs[k.run].rows| ==>
              KeyOf(History(es), k.run, j) == k && History(es).runs[k.run].rows[j].taskId.Some? ==>
                History(es).runs[k.run].rows[j].taskId == Some(t)
  {
    var db := History(es);
    HistoryInv(es);
    if k.run in db.runs {
      forall j | 0 <= j < |db.runs[k.run].rows| && KeyOf(db, k.run, j) == k && db.runs[k.run].rows[j].taskId.Some?
        ensures db.runs[k.run].rows[j].taskId == Some(t)
      {
        assert RunInv(db, k.run) && RowInv(db, k.run, j);
      }
    }
  }

  /** A run marked `succeeded` has every step succeeded, each through exactly one task. */
  lemma CompletedRun(es: seq<Event>, r: nat, j: nat)
    requires r in History(es).runs && History(es).runs[r].status == Completed && j < |History(es).runs[r].rows|
    ensures History(es).runs[r].rows[j].status == Succeeded
    ensures exists t :: t in History(es).tasks && History(es).tasks[t].origin == Some(KeyOf(History(es), r, j))
                        && forall s :: s in History(es).tasks && History(es).tasks[s].origin == Some(KeyOf(History(es), r, j)) ==> s == t
  {
    var db := History(es);
    HistoryInv(es);
    assert RunInv(db, r) && RowInv(db, r, j);
    var t := db.keys[KeyOf(db, r, j)].task;
    forall s | s in db.tasks && db.tasks[s].origin == Some(KeyOf(db, r, j))
      ensures s == t
    {
      AtMostOneTaskPerStep(es, KeyOf(db, r, j), s, t);
    }
  }
}
