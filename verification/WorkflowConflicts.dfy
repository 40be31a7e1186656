/** When a tick raises: a refused submission, or its own idempotency key met with another prompt. */
module WorkflowConflicts {
  import opened Wrappers
  import opened Text
  import opened WorkflowDefinition
  import opened Template
  import opened WorkflowRun
  import opened WorkflowSafety
  import opened WorkflowHistory

  /** No ready step is refused before its key is looked at. */
  ghost predicate NoneRefused(db: Db, r: nat, local: seq<StepRow>, from: nat)
    requires r in db.runs && |db.runs[r].rows| == |local|
  {
    forall j :: from <= j < |local| && Ready(local, j) ==> !Refuses(db.gate, KeyOf(db, r, j), RequestOf(local, db.runs[r].input, j))
  }

  /** Every ready step whose key is already used would be submitted with the request it was used for. */
  ghost predicate RequestsRepeat(db: Db, r: nat, local: seq<StepRow>, from: nat)
    requires r in db.runs && |db.runs[r].rows| == |local|
  {
    forall j :: from <= j < |local| && Ready(local, j) && KeyOf(db, r, j) in db.keys ==>
                  db.keys[KeyOf(db, r, j)].request == RequestOf(local, db.runs[r].input, j)
  }

  ghost predicate AllAccepted(db: Db, r: nat, local: seq<StepRow>, from: nat)
    requires r in db.runs && |db.runs[r].rows| == |local|
  {
    NoneRefused(db, r, local, from) && RequestsRepeat(db, r, local, from)
  }

  ghost predicate Accepted(db: Db, r: nat, local: seq<StepRow>, j: nat)
    requires r in db.runs && |db.runs[r].rows| == |local| && j < |local|
  {
    && !Refuses(db.gate, KeyOf(db, r, j), RequestOf(local, db.runs[r].input, j))
    && (KeyOf(db, r, j) in db.keys ==> db.keys[KeyOf(db, r, j)].request == RequestOf(local, db.runs[r].input, j))
  }

  lemma SubmitRaises(db: Db, r: nat, local: seq<StepRow>, j: nat)
    requires r in db.runs && |db.runs[r].rows| == |local| && j < |local| && Ready(local, j)
    ensures Apply(db, r, Submit(j, RequestOf(local, db.runs[r].input, j))).Some? <==> Accepted(db, r, local, j)
    ensures AllAccepted(db, r, local, j) <==> Accepted(db, r, local, j) && AllAccepted(db, r, local, j + 1)
  {
    hide Refuses, RequestOf, SucceededIds;
  }

  lemma AcceptedSkips(db: Db, r: nat, local: seq<StepRow>, j: nat)
    requires r in db.runs && j <= |local| && Tracks(db.runs[r].rows, local, j)
    ensures |db.runs[r].rows| == |local| && (j == |local| ==> AllAccepted(db, r, local, j))
    ensures j < |local| && !Ready(local, j) ==>
              Tracks(db.runs[r].rows, local, j + 1) && (AllAccepted(db, r, local, j) <==> AllAccepted(db, r, local, j + 1))
  {
    hide Refuses, RequestOf, SucceededIds, KeyOf;
  }

  lemma {:induction false} SubmissionsRaise(db: Db, r: nat, local: seq<StepRow>, j: nat)
    requires Inv(db) && r in db.runs && db.runs[r].status == Active && j <= |local|
    requires Tracks(db.runs[r].rows, local, j)
    ensures Executes(db, r, Submissions(local, db.runs[r].input, j)) <==> AllAccepted(db, r, local, j)
    decreases |local| - j
  {
    hide Inv, Accepted, AllAccepted, Apply, Enabled, Frozen, Ready, KeyOf, RequestOf, Tracks;
    AcceptedSkips(db, r, local, j);
    if j < |local| && Ready(local, j) {
      SubmitStep(db, r, local, j);
      SubmitRaises(db, r, local, j);
      var submit, tail := Submit(j, RequestOf(local, db.runs[r].input, j)), Submissions(local, db.runs[r].input, j + 1);
      if Apply(db, r, submit).Some? {
        SubmitAttach(db, r, local, j);
        var mid := Apply(db, r, submit).value;
        var after := Apply(mid, r, Attach(j)).value;
        ConsPair(db, r, submit, Attach(j), tail, mid, after);
        SubmissionsRaise(after, r, local, j + 1);
      }
    } else if j < |local| {
      SubmissionsRaise(db, r, local, j + 1);
    }
  }

  /** Submitting one ready step leaves the requests of the others as they were. */
  lemma SubmitAttach(db: Db, r: nat, local: seq<StepRow>, j: nat)
    requires Inv(db) && r in db.runs && db.runs[r].status == Active && j < |local|
    requires Tracks(db.runs[r].rows, local, j) && Ready(local, j)
    requires Apply(db, r, Submit(j, RequestOf(local, db.runs[r].input, j))).Some?
    ensures var mid := Apply(db, r, Submit(j, RequestOf(local, db.runs[r].input, j))).value;
            && Apply(mid, r, Attach(j)).Some?
            && var after := Apply(mid, r, Attach(j)).value;
               && Inv(after) && r in after.runs && after.runs[r].status == Active && Tracks(after.runs[r].rows, local, j + 1)
               && after.runs[r].input == db.runs[r].input
               && (AllAccepted(after, r, local, j + 1) <==> AllAccepted(db, r, local, j + 1))
  {
    hide Inv, AllAccepted, Enabled, Frozen, RequestOf, Refuses;
    SubmitStep(db, r, local, j);
    var mid := Apply(db, r, Submit(j, RequestOf(local, db.runs[r].input, j))).value;
    AttachStep(mid, r, local, j);
    var after := Apply(mid, r, Attach(j)).value;
    assert StepsOf(after.runs[r].rows) == StepsOf(db.runs[r].rows);
    AcceptedNext(db, after, r, local, j);
  }

  lemma AcceptedNext(db: Db, after: Db, r: nat, local: seq<StepRow>, j: nat)
    requires Inv(db) && r in db.runs && |db.runs[r].rows| == |local| && j < |local|
    requires r in after.runs && StepsOf(after.runs[r].rows) == StepsOf(db.runs[r].rows) && after.runs[r].input == db.runs[r].input
    requires after.gate == db.gate
    requires forall k :: k in db.keys ==> k in after.keys && after.keys[k] == db.keys[k]
    requires forall k :: k in after.keys ==> k in db.keys || k == KeyOf(db, r, j)
    ensures AllAccepted(after, r, local, j + 1) <==> AllAccepted(db, r, local, j + 1)
  {
    hide Refuses, RequestOf, Ready;
    assert RunInv(db, r);
    forall k | j + 1 <= k < |local|
      ensures KeyOf(after, r, k) == KeyOf(db, r, k) != KeyOf(db, r, j)
    {
      var steps := StepsOf(db.runs[r].rows);
      assert steps[j].id != steps[k].id;
      assert StepsOf(after.runs[r].rows)[k] == steps[k];
    }
  }

  lemma FinishExecutes(db: Db, r: nat, local: seq<StepRow>)
    requires Inv(db) && r in db.runs && db.runs[r].status == Active && Tracks(db.runs[r].rows, local, 0)
    requires SomeFailed(local) ==> SomeFailed(db.runs[r].rows)
    requires AllSucceeded(local) ==> AllSucceeded(db.runs[r].rows)
    ensures Executes(db, r, Decisions(local, db.runs[r].input)) <==> SomeFailed(local) || AllAccepted(db, r, local, 0)
  {
    hide Inv, Apply, AllAccepted, Refuses, RequestOf;
    if SomeFailed(local) {
      FinishRuns(db, r, Aborted);
    } else {
      var subs := Submissions(local, db.runs[r].input, 0);
      SubmissionsRaise(db, r, local, 0);
      if Executes(db, r, subs) && local != [] && AllSucceeded(local) {
        NothingReady(local, db.runs[r].input, 0);
        FinishRuns(db, r, Completed);
      }
      assert subs + [] == subs;
      if local != [] && AllSucceeded(local) {
        NothingReady(local, db.runs[r].input, 0);
        assert [] + [Finish(Completed)] == [Finish(Completed)];
      }
    }
  }

  lemma FinishRuns(db: Db, r: nat, outcome: RunStatus)
    requires r in db.runs
    ensures Executes(db, r, [Finish(outcome)])
  {
    assert [Finish(outcome)][1..] == [];
  }

  /**
   * Whatever the templates, the settings and the task states: a tick raises exactly when no step has
   * failed and some ready step is refused (blank or oversized prompt, agent, budget, router,
   * criteria) or conflicts with what its key was used for.
   */
  lemma TickRaisesIff(es: seq<Event>, r: nat, view: map<nat, Task>)
    requires r in History(es).runs && History(es).runs[r].status == Active
    ensures var db := History(es); var run := db.runs[r]; var local := ObserveAll(run.rows, view);
            Executes(db, r, Plan(run, view)) <==> SomeFailed(local) || (NoneRefused(db, r, local, 0) && RequestsRepeat(db, r, local, 0))
  {
    var db := History(es);
    var run := db.runs[r];
    var local := ObserveAll(run.rows, view);
    HistoryInv(es);
    hide Inv, Tracks, Apply, Observe, PromptInv, NoneRefused, RequestsRepeat;
    MarksPhase(db, r, view);
    var after := AfterMarks(db, r, view);
    FinishExecutes(after, r, local);
    ExecConcat(db, r, Marks(run.rows, view, 0), Decisions(local, run.input));
    MarksKeepRequests(db, r, view, local);
  }

  lemma MarksKeepRequests(db: Db, r: nat, view: map<nat, Task>, local: seq<StepRow>)
    requires r in db.runs && |local| == |db.runs[r].rows|
    ensures RequestsRepeat(AfterMarks(db, r, view), r, local, 0) <==> RequestsRepeat(db, r, local, 0)
    ensures NoneRefused(AfterMarks(db, r, view), r, local, 0) <==> NoneRefused(db, r, local, 0)
  {
    hide Refuses, RequestOf, Ready;
    var after := AfterMarks(db, r, view);
    assert forall j :: 0 <= j < |local| ==> KeyOf(after, r, j) == KeyOf(db, r, j);
  }

  /** A ready step whose key a client took would be submitted with the client's own request. */
  ghost predicate ClientsRepeat(db: Db, r: nat, local: seq<StepRow>)
    requires r in db.runs && |db.runs[r].rows| == |local|
  {
    forall j :: 0 <= j < |local| && Ready(local, j) && KeyOf(db, r, j) in db.keys && db.keys[KeyOf(db, r, j)].client ==>
                  db.keys[KeyOf(db, r, j)].request == RequestOf(local, db.runs[r].input, j)
  }

  /**
   * When templates read only the input and ancestor steps, ticks never conflict with each other: one
   * raises, first or repeated after a crash, exactly when it goes on to submit and some ready step is
   * refused, or a client has taken its key for another request.
   */
  lemma AncestorTickRaisesIff(es: seq<Event>, r: nat, view: map<nat, Task>)
    requires r in History(es).runs && History(es).runs[r].status == Active
    requires TemplatesReadAncestors(History(es).runs[r].rows)
    ensures var db := History(es); var run := db.runs[r]; var local := ObserveAll(run.rows, view);
            Executes(db, r, Plan(run, view)) <==> SomeFailed(local) || (NoneRefused(db, r, local, 0) && ClientsRepeat(db, r, local))
  {
    var db := History(es);
    var local := ObserveAll(db.runs[r].rows, view);
    HistoryInv(es);
    TickRaisesIff(es, r, view);
    hide Inv, PromptInv, Executes, NoneRefused;
    AncestorsKeepRequests(db, r, view);
    MarksKeepRequests(db, r, view, local);
  }

  ghost predicate NoClientKeys(db: Db, r: nat) {
    forall k :: k in db.keys && k.run == r ==> !db.keys[k].client
  }

  /** With no client's key under the run: a tick raises exactly when it goes on to submit and some ready step is refused. */
  lemma TickRaisesOnlyWhenRefused(es: seq<Event>, r: nat, view: map<nat, Task>)
    requires r in History(es).runs && History(es).runs[r].status == Active
    requires TemplatesReadAncestors(History(es).runs[r].rows) && NoClientKeys(History(es), r)
    ensures var db := History(es); var run := db.runs[r]; var local := ObserveAll(run.rows, view);
            Executes(db, r, Plan(run, view)) <==> SomeFailed(local) || NoneRefused(db, r, local, 0)
  {
    hide Executes, Plan, NoneRefused, Observe, Ready, RequestOf;
    AncestorTickRaisesIff(es, r, view);
  }

  lemma AncestorsKeepRequests(db: Db, r: nat, view: map<nat, Task>)
    requires Inv(db) && PromptInv(db) && r in db.runs && db.runs[r].status == Active && TemplatesReadAncestors(db.runs[r].rows)
    ensures var local := ObserveAll(db.runs[r].rows, view);
            RequestsRepeat(AfterMarks(db, r, view), r, local, 0) <==> ClientsRepeat(db, r, local)
  {
    hide Inv, PromptInv, Exec, EnabledAll, Executes, RequestOf, Ready, TemplatesReadAncestors;
    var local, after := ObserveAll(db.runs[r].rows, view), AfterMarks(db, r, view);
    MarksPhase(db, r, view);
    ExecKeepsPrompts(db, r, Marks(db.runs[r].rows, view, 0));
    MarkedTemplates(db, r, view);
    RepeatsFromPrompts(after, r, local);
    MarksKeepClients(db, r, view, local);
  }

  lemma MarksKeepClients(db: Db, r: nat, view: map<nat, Task>, local: seq<StepRow>)
    requires r in db.runs && |local| == |db.runs[r].rows|
    ensures ClientsRepeat(AfterMarks(db, r, view), r, local) <==> ClientsRepeat(db, r, local)
  {
    hide RequestOf, Ready;
    var after := AfterMarks(db, r, view);
    assert forall j :: 0 <= j < |local| ==> KeyOf(after, r, j) == KeyOf(db, r, j);
  }

  lemma MarkedTemplates(db: Db, r: nat, view: map<nat, Task>)
    requires r in db.runs && TemplatesReadAncestors(db.runs[r].rows)
    ensures TemplatesReadAncestors(AfterMarks(db, r, view).runs[r].rows)
  {
    hide Observe;
    var rows, marked := db.runs[r].rows, AfterMarks(db, r, view).runs[r].rows;
    forall j | 0 <= j < |rows|
      ensures marked[j].step == rows[j].step
    {
      ObserveKeepsStep(rows[j], view);
    }
    assert StepsOf(marked) == StepsOf(rows);
    forall j | 0 <= j < |marked|
      ensures ReadsAncestors(marked, j)
    {
      assert ReadsAncestors(rows, j);
      assert Ancestors(marked, j) == Ancestors(rows, j);
    }
  }

  lemma ObserveKeepsStep(row: StepRow, view: map<nat, Task>)
    ensures Observe(row, view).step == row.step
  {
  }

  lemma RepeatsFromPrompts(db: Db, r: nat, local: seq<StepRow>)
    requires PromptInv(db) && r in db.runs && TemplatesReadAncestors(db.runs[r].rows) && Tracks(db.runs[r].rows, local, 0)
    ensures |db.runs[r].rows| == |local| && (RequestsRepeat(db, r, local, 0) <==> ClientsRepeat(db, r, local))
  {
    var rows := db.runs[r].rows;
    TracksResults(rows, local, 0);
    hide PromptInv, TemplatesReadAncestors, ReadsAncestors, Ready;
    forall j | 0 <= j < |local| && TickKey(db, r, j)
      ensures db.keys[KeyOf(db, r, j)].request == RequestOf(local, db.runs[r].input, j)
    {
      StableRequest(db, r, j);
    }
  }

  lemma StableRequest(db: Db, r: nat, j: nat)
    requires PromptInv(db) && r in db.runs && TemplatesReadAncestors(db.runs[r].rows) && j < |db.runs[r].rows| && TickKey(db, r, j)
    ensures db.keys[KeyOf(db, r, j)].request == RequestOf(db.runs[r].rows, db.runs[r].input, j)
  {
    assert PromptStable(db, r, j) && ReadsAncestors(db.runs[r].rows, j);
  }

  // ----- A template that reads a step it does not depend on -----

  const FIRST_STEP := Step("a", "agent", "go", [])
  const READER_STEP := Step("b", "agent", "{{steps}}", [])
  const NO_INPUT := Obj(map[])

  /** A template that is one token with an undotted path. */
  lemma ParseToken(t: string, name: string)
    requires name != [] && '{' !in name && '}' !in name && '.' !in name && !IsSpace(name[0]) && !IsSpace(name[|name| - 1])
    requires t == "{{" + name + "}}"
    ensures Parse(t) == [Token([name])]
  {
    hide Parse;
    var parts := [Token([name])];
    assert parts[1..] == [] && Write(parts[1..]) == [];
    assert Write(parts) == t;
    WrittenTemplateParses(parts);
  }

  lemma ReaderTemplate()
    ensures Parse(READER_STEP.prompt) == [Token(["steps"])]
  {
    hide Parse, Strip, Split;
    assert "{{steps}}" == "{{" + "steps" + "}}";
    ParseToken(READER_STEP.prompt, "steps");
  }

  lemma ExampleListing()
    ensures ValidListing([FIRST_STEP, READER_STEP])
  {
    var steps := [FIRST_STEP, READER_STEP];
    var g := GraphOf(steps);
    assert g == map["a" := [], "b" := []] by {
      assert steps[..1] == [FIRST_STEP] && steps[..1][..0] == [];
      assert GraphOf([FIRST_STEP]) == map["a" := []];
    }
    assert Orders(g, ["a", "b"]);
  }

  /** Stopping a tick between creating a task and recording it, with a prompt that reads a non-ancestor. */
  function CrashedTick(gate: Gate, result: string): seq<Event> {
    [SetGate(gate), Start(0, NO_INPUT, [FIRST_STEP, READER_STEP]), Tick(0, map[], 3), TaskChange(0, TaskSucceeded, result)]
  }

  const FRESH_RUN := NewRun(NO_INPUT, [FIRST_STEP, READER_STEP])

  lemma ExampleReady()
    ensures |FRESH_RUN.rows| == 2 && Ready(FRESH_RUN.rows, 0) && Ready(FRESH_RUN.rows, 1)
  {
    hide Parse;
    assert FRESH_RUN.rows[0].step == FIRST_STEP && FRESH_RUN.rows[1].step == READER_STEP;
  }

  lemma ExampleSubmissions()
    ensures Submissions(FRESH_RUN.rows, NO_INPUT, 0) == [Submit(0, RequestOf(FRESH_RUN.rows, NO_INPUT, 0)), Attach(0),
                                                    Submit(1, RequestOf(FRESH_RUN.rows, NO_INPUT, 1)), Attach(1)]
  {
    hide RequestOf, Ready, Parse;
    var rows := FRESH_RUN.rows;
    ExampleReady();
    var a, b := RequestOf(rows, NO_INPUT, 0), RequestOf(rows, NO_INPUT, 1);
    assert Submissions(rows, NO_INPUT, 2) == [];
    assert Submissions(rows, NO_INPUT, 1) == [Submit(1, b), Attach(1)] + [];
    assert Submissions(rows, NO_INPUT, 0) == [Submit(0, a), Attach(0)] + [Submit(1, b), Attach(1)];
  }

  lemma ExamplePlan()
    ensures Plan(FRESH_RUN, map[]) == [Submit(0, RequestOf(FRESH_RUN.rows, NO_INPUT, 0)), Attach(0),
                                   Submit(1, RequestOf(FRESH_RUN.rows, NO_INPUT, 1)), Attach(1)]
  {
    var rows := FRESH_RUN.rows;
    assert rows[0].status == Pending && rows[1].status == Pending && |rows| == 2;
    assert ObserveAll(rows, map[]) == rows;
    assert !SomeFailed(rows) && !AllSucceeded(rows);
    ExampleSubmissions();
    hide RequestOf, Submissions;
    assert Marks(rows, map[], 2) == [];
    assert Marks(rows, map[], 1) == [];
    assert Marks(rows, map[], 0) == [];
  }

  function StartedExample(gate: Gate): Db {
    Db(map[0 := FRESH_RUN], map[], map[], 0, gate)
  }

  /** The two submissions of the first tick are not refused. */
  ghost predicate Passes(gate: Gate) {
    && !Refuses(gate, Key(0, "a"), RequestOf(FRESH_RUN.rows, NO_INPUT, 0))
    && !Refuses(gate, Key(0, "b"), RequestOf(FRESH_RUN.rows, NO_INPUT, 1))
  }

  lemma ExampleExec(gate: Gate, a: Request, b: Request) returns (db: Db)
    requires !Refuses(gate, Key(0, "a"), a) && !Refuses(gate, Key(0, "b"), b)
    ensures db == Exec(StartedExample(gate), 0, [Submit(0, a), Attach(0), Submit(1, b)])
    ensures db.runs == map[0 := Run(Active, NO_INPUT, [StepRow(FIRST_STEP, Submitted, Some(0), ""), StepRow(READER_STEP, Pending, None, "")])]
    ensures Key(0, "b") in db.keys && db.keys[Key(0, "b")].request == b && 0 in db.tasks
  {
    hide Refuses;
    var s0 := StartedExample(gate);
    assert KeyOf(s0, 0, 0) == Key(0, "a") && KeyOf(s0, 0, 1) == Key(0, "b");
    var s1 := Apply(s0, 0, Submit(0, a)).value;
    var s2 := Apply(s1, 0, Attach(0)).value;
    assert KeyOf(s2, 0, 1) == Key(0, "b");
    db := Apply(s2, 0, Submit(1, b)).value;
    assert s2.runs[0].rows == [StepRow(FIRST_STEP, Submitted, Some(0), ""), StepRow(READER_STEP, Pending, None, "")];
    var all := [Submit(0, a), Attach(0), Submit(1, b)];
    assert Exec(s2, 0, [Submit(1, b)]) == db;
    assert [Attach(0), Submit(1, b)][1..] == [Submit(1, b)];
    assert Exec(s1, 0, [Attach(0), Submit(1, b)]) == db;
    assert all[1..] == [Attach(0), Submit(1, b)];
  }

  lemma ExampleStarted(gate: Gate, result: string)
    ensures var es := CrashedTick(gate, result); History(es[..2]) == StartedExample(gate)
  {
    hide NewRun, ValidListing;
    var es := CrashedTick(gate, result);
    ExampleListing();
    assert es[..2][..1] == es[..1] && es[..1][..0] == [] && es[..2][1] == es[1] && es[..1][0] == es[0];
    assert History(es[..1]) == EMPTY.(gate := gate);
    assert History(es[..2]) == Next(History(es[..1]), es[1]);
  }

  lemma AfterCrash(gate: Gate, result: string)
    requires Passes(gate)
    ensures var db := History(CrashedTick(gate, result));
            && db.runs == map[0 := Run(Active, NO_INPUT, [StepRow(FIRST_STEP, Submitted, Some(0), ""), StepRow(READER_STEP, Pending, None, "")])]
            && Key(0, "b") in db.keys && db.keys[Key(0, "b")].request == RequestOf(FRESH_RUN.rows, NO_INPUT, 1)
            && 0 in db.tasks && db.tasks[0].status == TaskSucceeded && db.tasks[0].result == result
  {
    hide RequestOf, Plan, Exec, ValidListing, Parse, Ready, StepResults, Render, Refuses, StartedExample;
    var es := CrashedTick(gate, result);
    ExampleStarted(gate, result);
    StartedExampleIs(gate);
    hide NewRun;
    var a, b := RequestOf(FRESH_RUN.rows, NO_INPUT, 0), RequestOf(FRESH_RUN.rows, NO_INPUT, 1);
    ExamplePlan();
    var db := ExampleExec(gate, a, b);
    assert Plan(FRESH_RUN, map[])[..3] == [Submit(0, a), Attach(0), Submit(1, b)];
    assert es[..3][..2] == es[..2] && es[..3][2] == es[2];
    assert CutAt(Plan(FRESH_RUN, map[]), 3) == Plan(FRESH_RUN, map[])[..3];
    assert History(es[..3]) == Next(History(es[..2]), es[2]) == db;
    assert es[..|es| - 1] == es[..3];
  }

  lemma StartedExampleIs(gate: Gate)
    ensures 0 in StartedExample(gate).runs && StartedExample(gate).runs[0] == FRESH_RUN && FRESH_RUN.status == Active && |FRESH_RUN.rows| == 2
  {
  }

  /** The hypothesis on templates is needed: here the repeated tick raises, whatever the first result was and nothing being refused. */
  lemma RepeatedTickCanRaise(gate: Gate, result: string)
    requires Passes(gate)
    ensures var db := History(CrashedTick(gate, result));
            && 0 in db.runs && db.runs[0].status == Active
            && !Executes(db, 0, Plan(db.runs[0], db.tasks))
  {
    hide History, CrashedTick, Plan, Executes, RequestOf, NoneRefused;
    var es := CrashedTick(gate, result);
    var db := History(es);
    AfterCrash(gate, result);
    TickRaisesIff(es, 0, db.tasks);
    var local := ObserveAll(db.runs[0].rows, db.tasks);
    assert local == [StepRow(FIRST_STEP, Succeeded, Some(0), result), StepRow(READER_STEP, Pending, None, "")];
    ExampleRequests(result, local);
    assert Ready(local, 1);
    assert KeyOf(db, 0, 1) == Key(0, "b");
  }

  lemma ExampleRequests(result: string, local: seq<StepRow>)
    requires local == [StepRow(FIRST_STEP, Succeeded, Some(0), result), StepRow(READER_STEP, Pending, None, "")]
    ensures RequestOf(local, NO_INPUT, 1) != RequestOf(FRESH_RUN.rows, NO_INPUT, 1)
  {
    ReaderTemplate();
    hide Parse;
    var head := [local[0]];
    assert head[..0] == [] && local[..1] == head;
    assert StepResults(head) == map["a" := Obj(map["result" := Str(result)])];
    var pending := [FRESH_RUN.rows[0]];
    assert pending[..0] == [] && FRESH_RUN.rows[..1] == pending;
    assert StepResults(pending) == map[];
    assert StepResults(local) == map["a" := Obj(map["result" := Str(result)])];
    assert StepResults(FRESH_RUN.rows) == map[];
    RenderSteps(StepResults(local));
    RenderSteps(StepResults(FRESH_RUN.rows));
    assert "a" in StepResults(local);
    assert RequestOf(local, NO_INPUT, 1).prompt[0] != RequestOf(FRESH_RUN.rows, NO_INPUT, 1).prompt[0];
  }

  lemma RenderSteps(results: map<string, Value>)
    ensures Render([Token(["steps"])], TickContext(NO_INPUT, results)) == [Dump(Obj(results))]
  {
    var context := TickContext(NO_INPUT, results);
    assert ["steps"][1..] == [];
    assert Lookup(context, ["steps"]) == Obj(results);
    assert Render([Token(["steps"])][1..], context) == [];
  }

  // ----- A prompt that renders blank -----

  const BLANK_STEP := Step("a", "agent", "{{input.x}}", [])

  lemma BlankListing()
    ensures ValidListing([BLANK_STEP])
  {
    var steps := [BLANK_STEP];
    assert steps[..0] == [];
    assert GraphOf(steps) == map["a" := []];
    assert Orders(GraphOf(steps), ["a"]);
  }

  lemma BlankTemplate()
    ensures Parse(BLANK_STEP.prompt) == [Token(["input", "x"])]
  {
    hide Parse;
    var path := ["input", "x"];
    var parts := [Token(path)];
    assert parts[1..] == [] && path[1..] == ["x"];
    assert Join(path, '.') == "input" + "." + "x" == "input.x";
    assert Write(parts[1..]) == [];
    assert Write(parts) == BLANK_STEP.prompt;
    WrittenTemplateParses(parts);
  }

  lemma BlankRender(results: map<string, Value>)
    ensures Render([Token(["input", "x"])], TickContext(NO_INPUT, results)) == []
  {
    var path := ["input", "x"];
    var context := TickContext(NO_INPUT, results);
    assert path[1..] == ["x"];
    assert Lookup(context, path) == Lookup(NO_INPUT, path[1..]) == Str("");
    assert [Token(path)][1..] == [] && Render([], context) == [];
  }

  lemma BlankPrompt(rows: seq<StepRow>, dump: Value -> string)
    requires |rows| == 1 && rows[0].step == BLANK_STEP
    ensures TextOf(RequestOf(rows, NO_INPUT, 0).prompt, dump) == []
  {
    hide Parse, Render, StepResults;
    BlankTemplate();
    BlankRender(StepResults(rows));
  }

  /** An accepted definition that reads only its input can still never run: its prompt renders blank, so every tick raises. */
  lemma BlankPromptRaises(gate: Gate, view: map<nat, Task>)
    ensures var db := History([SetGate(gate), Start(0, NO_INPUT, [BLANK_STEP])]);
            0 in db.runs && db.runs[0].status == Active && !Executes(db, 0, Plan(db.runs[0], view))
  {
    var es := [SetGate(gate), Start(0, NO_INPUT, [BLANK_STEP])];
    BlankStarted(gate);
    hide History, Plan, Executes, Parse, RequestsRepeat, NewRun;
    var db := History(es);
    var rows := db.runs[0].rows;
    BlankPrompt(rows, gate.dump);
    TickRaisesIff(es, 0, view);
    assert ObserveAll(rows, view) == rows;
    BlankIsRefused(db, rows);
  }

  lemma BlankStarted(gate: Gate)
    ensures History([SetGate(gate), Start(0, NO_INPUT, [BLANK_STEP])]).gate == gate
    ensures History([SetGate(gate), Start(0, NO_INPUT, [BLANK_STEP])]).runs == map[0 := Run(Active, NO_INPUT, [StepRow(BLANK_STEP, Pending, None, "")])]
  {
    var es := [SetGate(gate), Start(0, NO_INPUT, [BLANK_STEP])];
    BlankListing();
    hide ValidListing;
    assert es[..|es| - 1] == [SetGate(gate)] && [SetGate(gate)][..0] == [];
    assert History([SetGate(gate)]) == EMPTY.(gate := gate);
    assert NewRun(NO_INPUT, [BLANK_STEP]).rows == [StepRow(BLANK_STEP, Pending, None, "")];
  }

  lemma BlankIsRefused(db: Db, rows: seq<StepRow>)
    requires rows == [StepRow(BLANK_STEP, Pending, None, "")] && 0 in db.runs && db.runs[0] == Run(Active, NO_INPUT, rows)
    requires TextOf(RequestOf(rows, NO_INPUT, 0).prompt, db.gate.dump) == []
    ensures !NoneRefused(db, 0, rows, 0) && !SomeFailed(rows)
  {
    hide RequestOf, Bytes;
    assert Ready(rows, 0) && Strip("") == "";
  }

  // ----- A key a client took -----

  /** A client submits another task under the key of a step before the first tick. */
  function TakenKey(gate: Gate, other: Request): seq<Event> {
    [SetGate(gate), Start(0, NO_INPUT, [FIRST_STEP]), ClientSubmit(Key(0, "a"), other)]
  }

  const PLAIN_ROWS := [StepRow(FIRST_STEP, Pending, None, "")]

  lemma PlainListing()
    ensures ValidListing([FIRST_STEP])
  {
    var steps := [FIRST_STEP];
    assert steps[..0] == [];
    assert GraphOf(steps) == map["a" := []];
    assert Orders(GraphOf(steps), ["a"]);
  }

  lemma AfterTakenKey(gate: Gate, other: Request)
    requires !Refuses(gate, Key(0, "a"), other)
    ensures var db := History(TakenKey(gate, other));
            && db.gate == gate && db.runs == map[0 := Run(Active, NO_INPUT, PLAIN_ROWS)]
            && db.keys == map[Key(0, "a") := KeyRow(0, other, true)]
  {
    PlainListing();
    hide ValidListing, Refuses;
    var es := TakenKey(gate, other);
    assert NewRun(NO_INPUT, [FIRST_STEP]).rows == PLAIN_ROWS;
    assert es[..1] == [es[0]] && es[..1][..0] == [] && es[..2][..1] == es[..1] && es[..|es| - 1] == es[..2] && es[..2][1] == es[1];
    assert History(es[..1]) == EMPTY.(gate := gate);
    assert History(es[..2]) == Next(History(es[..1]), es[1]);
    assert History(es) == Next(History(es[..2]), es[2]);
  }

  /** The hypothesis on clients is needed: nothing is refused and the template reads nothing, yet every tick of the run raises. */
  lemma TakenKeyRaises(gate: Gate, other: Request, view: map<nat, Task>)
    requires !Refuses(gate, Key(0, "a"), other) && !Refuses(gate, Key(0, "a"), RequestOf(PLAIN_ROWS, NO_INPUT, 0))
    requires other != RequestOf(PLAIN_ROWS, NO_INPUT, 0)
    ensures var db := History(TakenKey(gate, other));
            && 0 in db.runs && db.runs[0].status == Active && ObserveAll(db.runs[0].rows, view) == db.runs[0].rows
            && NoneRefused(db, 0, db.runs[0].rows, 0) && !Executes(db, 0, Plan(db.runs[0], view))
  {
    hide History, TakenKey, Plan, Executes, RequestOf, Refuses;
    var es := TakenKey(gate, other);
    AfterTakenKey(gate, other);
    var db := History(es);
    TickRaisesIff(es, 0, view);
    assert ObserveAll(PLAIN_ROWS, view) == PLAIN_ROWS;
    assert Ready(PLAIN_ROWS, 0) && KeyOf(db, 0, 0) == Key(0, "a");
  }
}
