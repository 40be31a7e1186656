/** The orchestrator in the form the code has: tables updated in place, loops over step dictionaries. */
module WorkflowOrchestrator {
  import opened Wrappers
  import opened Text
  import opened WorkflowDefinition
  import opened Template
  import opened WorkflowRun
  import opened WorkflowSafety
  import opened WorkflowHistory

  /** One more statement after a list that raised nothing. */
  lemma SendOne(db: Db, r: nat, sent: seq<Statement>, s: Statement)
    requires Executes(db, r, sent)
    ensures var now := Exec(db, r, sent);
            if Apply(now, r, s).Some? then Executes(db, r, sent + [s]) && Exec(db, r, sent + [s]) == Apply(now, r, s).value
            else !Executes(db, r, sent + [s]) && Exec(db, r, sent + [s]) == now
  {
    ExecConcat(db, r, sent, [s]);
    assert [s][1..] == [];
  }

  /** The database while the first loop is at row `i` and has sent the marks in `sent`. */
  ghost predicate MarksSent(before: Db, r: nat, now: Db, sent: seq<Statement>, i: nat) {
    && r in before.runs && before.runs[r].status == Active && i <= |before.runs[r].rows|
    && var stored := before.runs[r].rows;
       && Marks(stored, before.tasks, 0) == sent + Marks(stored, before.tasks, i)
       && Executes(before, r, sent) && now == Exec(before, r, sent)
       && now == WithRows(before, r, Marked(stored, before.tasks, i))
  }

  lemma MarksBegin(before: Db, r: nat)
    requires r in before.runs && before.runs[r].status == Active
    ensures MarksSent(before, r, before, [], 0)
  {
    var stored := before.runs[r].rows;
    assert Marked(stored, before.tasks, 0) == stored && before == WithRows(before, r, stored);
  }

  lemma MarksNext(before: Db, r: nat, now: Db, sent: seq<Statement>, i: nat)
    requires MarksSent(before, r, now, sent, i) && i < |before.runs[r].rows|
    requires before.runs[r].rows[i].taskId.Some? && before.runs[r].rows[i].status !in {Succeeded, Failed} ==>
               before.runs[r].rows[i].status == Submitted
    ensures var mark := MarkOf(before.runs[r].rows[i], before.tasks, i);
            && (mark == [] ==> MarksSent(before, r, now, sent, i + 1))
            && (mark != [] ==> |mark| == 1 && Apply(now, r, mark[0]).Some? && r in now.runs && i < |now.runs[r].rows|
                               && now.tasks == before.tasks
                               && Apply(now, r, mark[0]).value == SetRow(now, r, i, Observe(before.runs[r].rows[i], before.tasks))
                               && MarksSent(before, r, Apply(now, r, mark[0]).value, sent + mark, i + 1))
  {
    var stored := before.runs[r].rows;
    MarkedStep(stored, before.tasks, i);
    var mark := MarkOf(stored[i], before.tasks, i);
    assert sent + (mark + Marks(stored, before.tasks, i + 1)) == sent + mark + Marks(stored, before.tasks, i + 1);
    if mark == [] {
      assert sent + mark == sent;
    } else {
      assert mark == [mark[0]];
      MarkStep(now, r, stored, before.tasks, i);
      SendOne(before, r, sent, mark[0]);
    }
  }

  /** The dictionaries `tick` holds: the step rows, `context["steps"]` and `terminal_failure`. */
  datatype Memory = Memory(steps: seq<StepRow>, results: map<string, Value>, failed: bool)

  /** What the first loop makes of them when it has looked at row `i`. */
  function Remember(m: Memory, i: nat, seen: StepRow): Memory
    requires i < |m.steps|
  {
    Memory(m.steps[i := seen],
           if seen.status == Succeeded then m.results[seen.step.id := Obj(map["result" := Str(seen.result)])] else m.results,
           m.failed || seen.status == Failed)
  }

  /** They agree with the rows while the first loop is at row `i`. */
  ghost predicate Observed(stored: seq<StepRow>, view: map<nat, Task>, m: Memory, i: nat) {
    && |m.steps| == |stored| && i <= |stored|
    && (forall k :: 0 <= k < |stored| ==> m.steps[k] == if k < i then Observe(stored[k], view) else stored[k])
    && m.results == StepResults(m.steps[..i])
    && (m.failed <==> SomeFailed(m.steps[..i]))
  }

  lemma ObservedBegin(stored: seq<StepRow>, view: map<nat, Task>)
    ensures Observed(stored, view, Memory(stored, map[], false), 0)
  {
  }

  lemma ObservedNext(stored: seq<StepRow>, view: map<nat, Task>, m: Memory, i: nat)
    requires Observed(stored, view, m, i) && i < |stored|
    ensures |m.steps| == |stored| && m.steps[i] == stored[i]
    ensures Observed(stored, view, Remember(m, i, Observe(stored[i], view)), i + 1)
  {
    var seen := Observe(stored[i], view);
    var later := m.steps[i := seen][..i + 1];
    assert later[..i] == m.steps[..i] && later[i] == seen;
    assert forall j :: 0 <= j < i ==> later[j] == m.steps[..i][j];
  }

  lemma ObservedAll(stored: seq<StepRow>, view: map<nat, Task>, m: Memory)
    requires Observed(stored, view, m, |stored|)
    ensures m.steps == ObserveAll(stored, view) && m.results == StepResults(m.steps) && (m.failed <==> SomeFailed(m.steps))
  {
    assert m.steps[..|stored|] == m.steps;
  }

  /** A row whose task is still to be looked at is `submitted`. */
  ghost predicate WaitingAreSubmitted(rows: seq<StepRow>) {
    forall j :: 0 <= j < |rows| && rows[j].taskId.Some? && rows[j].status !in {Succeeded, Failed} ==> rows[j].status == Submitted
  }

  /** The first loop at row `i`: what it has sent and what it holds. */
  ghost predicate Marking(before: Db, r: nat, now: Db, sent: seq<Statement>, m: Memory, i: nat, left: nat, cut: nat) {
    && MarksSent(before, r, now, sent, i) && |sent| + left == cut
    && Observed(before.runs[r].rows, before.tasks, m, i) && WaitingAreSubmitted(before.runs[r].rows)
  }

  lemma MarkingBegin(before: Db, r: nat, cut: nat)
    requires Inv(before) && r in before.runs && before.runs[r].status == Active
    ensures Marking(before, r, before, [], Memory(before.runs[r].rows, map[], false), 0, cut, cut)
  {
    RunRowsForm(before, r);
    MarksBegin(before, r);
    ObservedBegin(before.runs[r].rows, before.tasks);
  }

  lemma MarkingRow(before: Db, r: nat, now: Db, sent: seq<Statement>, m: Memory, i: nat, left: nat, cut: nat)
    requires r in before.runs && i < |before.runs[r].rows| && Marking(before, r, now, sent, m, i, left, cut)
    ensures MarksSent(before, r, now, sent, i) && |sent| + left == cut
    ensures i < |m.steps| && m.steps[i] == before.runs[r].rows[i]
    ensures m.steps[i].taskId.Some? && m.steps[i].status !in {Succeeded, Failed} ==> m.steps[i].status == Submitted
  {
    hide MarksSent;
    ObservedNext(before.runs[r].rows, before.tasks, m, i);
  }

  lemma MarkingNext(before: Db, r: nat, sent: seq<Statement>, now: Db, later: seq<Statement>, m: Memory, i: nat,
                    left: nat, rest: nat, cut: nat)
    requires r in before.runs && i < |before.runs[r].rows| && Observed(before.runs[r].rows, before.tasks, m, i)
    requires WaitingAreSubmitted(before.runs[r].rows)
    requires |sent| + left == cut && MarksSent(before, r, now, later, i + 1) && |later| + rest == |sent| + left
    ensures |m.steps| == |before.runs[r].rows|
    ensures Marking(before, r, now, later, Remember(m, i, Observe(before.runs[r].rows[i], before.tasks)), i + 1, rest, cut)
  {
    hide MarksSent, Observed, Remember, Observe;
    ObservedNext(before.runs[r].rows, before.tasks, m, i);
  }

  /** The first loop has sent the marks, up to the cut; if that did not stop it, it holds all that was seen. */
  ghost predicate MarksRecorded(before: Db, r: nat, now: Db, cut: nat, m: Memory, left: nat, stopped: bool) {
    && r in before.runs
    && var rows, marks := before.runs[r].rows, Marks(before.runs[r].rows, before.tasks, 0);
       && now == Exec(before, r, CutAt(marks, cut)) && (stopped <==> |marks| > cut)
       && (!stopped ==> left == cut - |marks| && m.steps == ObserveAll(rows, before.tasks)
                        && m.results == StepResults(m.steps) && (m.failed <==> SomeFailed(m.steps)))
  }

  lemma StoppedInMarks(before: Db, r: nat, now: Db, cut: nat, m: Memory, left: nat)
    requires r in before.runs
    requires var marks := Marks(before.runs[r].rows, before.tasks, 0); |marks| > cut && now == Exec(before, r, CutAt(marks, cut))
    ensures MarksRecorded(before, r, now, cut, m, left, true)
  {
  }

  lemma MarkingEnd(before: Db, r: nat, now: Db, sent: seq<Statement>, m: Memory, left: nat, cut: nat)
    requires r in before.runs && Marking(before, r, now, sent, m, |before.runs[r].rows|, left, cut)
    ensures MarksRecorded(before, r, now, cut, m, left, false)
  {
    hide MarksSent, Observed, Marks, Exec, ObserveAll, StepResults, SomeFailed, CutAt;
    ObservedAll(before.runs[r].rows, before.tasks, m);
    MarksEnd(before, r, now, sent);
    CutAppend(sent, [], cut);
    assert sent + [] == sent;
  }

  /** The database while the second loop is at row `j` and has sent the statements in `sent`. */
  ghost predicate SubmissionsSent(before: Db, r: nat, now: Db, local: seq<StepRow>, sent: seq<Statement>, j: nat) {
    && r in before.runs && r in now.runs && now.runs[r].status == Active && now.runs[r].input == before.runs[r].input
    && j <= |local| && Inv(now) && Tracks(now.runs[r].rows, local, j)
    && Submissions(local, before.runs[r].input, 0) == sent + Submissions(local, before.runs[r].input, j)
    && Executes(before, r, sent) && now == Exec(before, r, sent)
  }

  lemma SubmissionsSkip(before: Db, r: nat, now: Db, local: seq<StepRow>, sent: seq<Statement>, j: nat)
    requires SubmissionsSent(before, r, now, local, sent, j) && j < |local| && !Ready(local, j)
    ensures SubmissionsSent(before, r, now, local, sent, j + 1)
  {
  }

  /** The `submit` of a ready step, and the update that follows it when it does not raise. */
  lemma SubmissionsNext(before: Db, r: nat, now: Db, local: seq<StepRow>, sent: seq<Statement>, j: nat)
    requires SubmissionsSent(before, r, now, local, sent, j) && j < |local| && Ready(local, j)
    ensures r in before.runs && r in now.runs
    ensures Submissions(local, before.runs[r].input, 0) == sent + Submissions(local, before.runs[r].input, j)
    ensures var submit := Submit(j, RequestOf(local, before.runs[r].input, j));
            && Submissions(local, before.runs[r].input, j) == [submit, Attach(j)] + Submissions(local, before.runs[r].input, j + 1)
            && now.runs[r].input == before.runs[r].input && now == Exec(before, r, sent)
            && j < |now.runs[r].rows| && now.runs[r].rows[j].step == local[j].step && now.runs[r].rows[j].status == Pending
            && (Apply(now, r, submit).None? ==>
                  !Executes(before, r, sent + [submit]) && now == Exec(before, r, sent + [submit]))
            && (Apply(now, r, submit).Some? ==>
                  var mid := Apply(now, r, submit).value;
                  && mid.runs == now.runs && Executes(before, r, sent + [submit]) && mid == Exec(before, r, sent + [submit])
                  && Apply(mid, r, Attach(j)).Some?
                  && SubmissionsSent(before, r, Apply(mid, r, Attach(j)).value, local, sent + [submit, Attach(j)], j + 1))
  {
    hide Inv, Tracks, Executes, Exec, Enabled, Frozen, RequestOf, Ready, Apply;
    var submit := Submit(j, RequestOf(local, before.runs[r].input, j));
    TracksRow(now.runs[r].rows, local, j);
    SubmitStep(now, r, local, j);
    SendOne(before, r, sent, submit);
    if Apply(now, r, submit).Some? {
      var mid := Apply(now, r, submit).value;
      AttachStep(mid, r, local, j);
      SendOne(before, r, sent + [submit], Attach(j));
      assert sent + [submit] + [Attach(j)] == sent + [submit, Attach(j)];
      var rest := Submissions(local, before.runs[r].input, j + 1);
      assert sent + ([submit, Attach(j)] + rest) == sent + [submit, Attach(j)] + rest;
    }
  }

  lemma TracksRow(rows: seq<StepRow>, local: seq<StepRow>, j: nat)
    requires Tracks(rows, local, j) && j < |local| && Ready(local, j)
    ensures j < |rows| && rows[j].step == local[j].step && rows[j].status == Pending && local[j].status == Pending
  {
  }

  /** The second loop ended early, at the cut or at a submission that raised. */
  ghost predicate StoppedAt(before: Db, r: nat, now: Db, subs: seq<Statement>, cut: nat) {
    now == Exec(before, r, CutAt(subs, cut)) && (|subs| > cut || !Executes(before, r, subs))
  }

  lemma StopAtCut(before: Db, r: nat, now: Db, sent: seq<Statement>, rest: seq<Statement>)
    requires now == Exec(before, r, sent) && rest != []
    ensures StoppedAt(before, r, now, sent + rest, |sent|)
  {
    assert (sent + rest)[..|sent|] == sent;
  }

  lemma StopAtRaise(before: Db, r: nat, now: Db, sent: seq<Statement>, next: Statement, rest: seq<Statement>, cut: nat)
    requires !Executes(before, r, sent + [next]) && cut > |sent| && now == Exec(before, r, sent + [next])
    ensures StoppedAt(before, r, now, sent + ([next] + rest), cut)
  {
    var all := sent + ([next] + rest);
    assert all == sent + [next] + rest;
    ExecStops(before, r, sent + [next], rest);
    var tail := CutAt(all, cut)[|sent| + 1..];
    assert CutAt(all, cut) == sent + [next] + tail;
    ExecStops(before, r, sent + [next], tail);
  }

  lemma SubmissionsBegin(before: Db, r: nat, local: seq<StepRow>)
    requires Inv(before) && r in before.runs && before.runs[r].status == Active && Tracks(before.runs[r].rows, local, 0)
    ensures SubmissionsSent(before, r, before, local, [], 0)
  {
    assert [] + Submissions(local, before.runs[r].input, 0) == Submissions(local, before.runs[r].input, 0);
  }

  lemma SubmissionsEnd(before: Db, r: nat, now: Db, local: seq<StepRow>, sent: seq<Statement>)
    requires SubmissionsSent(before, r, now, local, sent, |local|)
    ensures r in before.runs && sent == Submissions(local, before.runs[r].input, 0)
  {
  }

  lemma MemoryReady(steps: seq<StepRow>, local: seq<StepRow>, j: nat)
    requires Tracks(steps, local, j) && j < |local| && steps[j..] == local[j..]
    ensures j < |steps| && (Ready(steps, j) <==> Ready(local, j)) && steps[j] == local[j]
    ensures Tracks(steps, local, j + 1) && steps[j + 1..] == local[j + 1..]
  {
    TracksIds(steps, local, j);
    assert steps[j] == steps[j..][0] == local[j..][0];
    assert steps[j + 1..] == steps[j..][1..];
  }

  lemma MemorySubmitted(steps: seq<StepRow>, local: seq<StepRow>, j: nat, row: StepRow)
    requires Tracks(steps, local, j) && j < |local| && steps[j..] == local[j..]
    requires row.step == local[j].step && row.status == Submitted && local[j].status == Pending
    ensures Tracks(steps[j := row], local, j + 1) && steps[j := row][j + 1..] == local[j + 1..]
  {
    MemoryReady(steps, local, j);
  }

  /** `submit` is what the statement `Submit` does. */
  lemma SubmitIsCreate(db: Db, r: nat, j: nat, request: Request, after: Db, task: Option<nat>)
    requires r in db.runs && j < |db.runs[r].rows| && after.runs == db.runs && after.gate == db.gate
    requires var key := KeyOf(db, r, j);
             if Refuses(db.gate, key, request) then after == db && task.None?
             else if key in db.keys then
               after == db && task == (if db.keys[key].request == request then Some(db.keys[key].task) else None)
             else
               && task == Some(db.next) && after.next == db.next + 1
               && after.keys == db.keys[key := KeyRow(db.next, request, false)]
               && after.tasks == db.tasks[db.next := Task(Queued, "", Some(key))]
    ensures Apply(db, r, Submit(j, request)) == (if task.Some? then Some(after) else None)
    ensures task.None? ==> after == db
    ensures task.Some? ==> KeyOf(db, r, j) in after.keys && after.keys[KeyOf(db, r, j)].task == task.value
  {
    hide Refuses;
  }

  lemma AttachIsUpdate(db: Db, r: nat, j: nat, row: StepRow)
    requires r in db.runs && j < |db.runs[r].rows| && KeyOf(db, r, j) in db.keys
    requires row == db.runs[r].rows[j].(status := Submitted, taskId := Some(db.keys[KeyOf(db, r, j)].task))
    ensures Apply(db, r, Attach(j)) == Some(SetRow(db, r, j, row))
  {
  }

  // ----- Starting runs -----

  /** A stored workflow; `steps` is absent when the definition has no list of steps. */
  datatype Workflow = Workflow(id: string, version: nat, enabled: bool, steps: Option<seq<RawStep>>)

  datatype StartError = Unavailable | InputNotObject | Invalid(error: StepError) | RunKeyReused

  /** What the request hash of a run covers. */
  datatype RunRequest = RunRequest(workflow: string, version: nat, actor: string, input: Value)

  datatype RunKeyRow = RunKeyRow(run: nat, request: RunRequest)

  function RunKey(raw: Option<string>): string {
    if raw.Some? then Strip(raw.value) else ""
  }

  /** A run of these steps, in their order, with nothing done yet. */
  ghost predicate IsNewRun(run: Run, input: Value, steps: seq<Step>) {
    && run.status == Active && run.input == input && |run.rows| == |steps|
    && forall j :: 0 <= j < |steps| ==> run.rows[j] == StepRow(steps[j], Pending, None, "")
  }

  ghost predicate MayStart(workflow: Option<Workflow>, input: Value) {
    workflow.Some? && workflow.value.enabled && input.Obj? && workflow.value.steps.Some? && Acceptable(workflow.value.steps.value)
  }

  class Orchestrator {
    var runs: map<nat, Run>
    var tasks: map<nat, Task>
    var keys: map<Key, KeyRow>
    var next: nat
    /** What submissions meet; nothing here changes it. */
    var gate: Gate
    /** The idempotency keys of runs. */
    var runKeys: map<string, RunKeyRow>

    constructor (platform: Gate)
      ensures Tables() == EMPTY.(gate := platform) && runKeys == map[]
    {
      runs, tasks, keys, next := map[], map[], map[], 0;
      gate, runKeys := platform, map[];
    }

    function Tables(): Db
      reads this
    {
      Db(runs, tasks, keys, next, gate)
    }

    ghost predicate Valid()
      reads this
    {
      Inv(Tables())
    }

    /** `create_task` with an idempotency key: the task of an equal earlier request, a new task, or an error. */
    method CreateTask(key: Key, request: Request, client: bool) returns (task: Option<nat>)
      modifies this`tasks, this`keys, this`next
      ensures runs == old(runs)
      ensures key in old(keys) ==> tasks == old(tasks) && keys == old(keys) && next == old(next)
      ensures key in old(keys) ==> task == (if old(keys)[key].request == request then Some(old(keys)[key].task) else None)
      ensures key !in old(keys) ==>
                && task == Some(old(next)) && next == old(next) + 1
                && keys == old(keys)[key := KeyRow(old(next), request, client)]
                && tasks == old(tasks)[old(next) := Task(Queued, "", Some(key))]
    {
      if key in keys {
        return if keys[key].request == request then Some(keys[key].task) else None;
      }
      tasks := tasks[next := Task(Queued, "", Some(key))];
      keys := keys[key := KeyRow(next, request, client)];
      task := Some(next);
      next := next + 1;
    }

    /** `submit`, from a tick or a client: refused before any key is looked at, or what `create_task` answers. */
    method SubmitTask(key: Key, request: Request, client: bool) returns (task: Option<nat>)
      modifies this`tasks, this`keys, this`next
      ensures if Refuses(gate, key, request) then Tables() == old(Tables()) && task.None?
              else if key in old(keys) then
                && Tables() == old(Tables())
                && task == (if old(keys)[key].request == request then Some(old(keys)[key].task) else None)
              else
                && task == Some(old(next)) && next == old(next) + 1
                && keys == old(keys)[key := KeyRow(old(next), request, client)]
                && tasks == old(tasks)[old(next) := Task(Queued, "", Some(key))]
      ensures client ==> Tables() == Next(old(Tables()), ClientSubmit(key, request))
    {
      hide Text.Strip, Bytes;
      var text := TextOf(request.prompt, gate.dump);
      if key in gate.refused || Strip(text) == [] || Bytes(text) > gate.maxBytes {
        return None;
      }
      task := CreateTask(key, request, client);
    }

    /** `update_workflow_step`. */
    method UpdateWorkflowStep(r: nat, j: nat, row: StepRow)
      requires r in runs && j < |runs[r].rows|
      modifies this`runs
      ensures Tables() == SetRow(old(Tables()), r, j, row)
    {
      runs := runs[r := runs[r].(rows := runs[r].rows[j := row])];
    }

    /** `finish_workflow_run`. */
    method FinishWorkflowRun(r: nat, status: RunStatus)
      requires r in runs
      modifies this`runs
      ensures Apply(old(Tables()), r, Finish(status)) == Some(Tables())
    {
      runs := runs[r := runs[r].(status := status)];
    }

    /**
     * `start`: the checks in order, then the run an equal earlier call made, or a new run with all
     * its steps pending. The rows keep the order of the definition; a tick lists them by step id,
     * and everything proved of histories holds for any order.
     */
    method Start(r: nat, workflow: Option<Workflow>, input: Value, actor: string, rawKey: Option<string>) returns (e: Result<nat, StartError>)
      requires r !in runs
      modifies this`runs, this`runKeys
      ensures workflow.None? || !workflow.value.enabled ==> e == Failure(Unavailable)
      ensures workflow.Some? && workflow.value.enabled && !input.Obj? ==> e == Failure(InputNotObject)
      ensures workflow.Some? && workflow.value.enabled && input.Obj? ==>
                (e.Failure? && e.error.Invalid? <==> workflow.value.steps.None? || !Acceptable(workflow.value.steps.value))
      ensures MayStart(workflow, input) ==>
                var w, key := workflow.value, match rawKey { case Some(k) => Strip(k) case None => "" };
                var request := RunRequest(w.id, w.version, actor, input);
                if key != "" && key in old(runKeys) then
                  && e == (if old(runKeys)[key].request == request then Success(old(runKeys)[key].run) else Failure(RunKeyReused))
                  && runs == old(runs) && runKeys == old(runKeys)
                else
                  && e == Success(r) && Tables() == Next(old(Tables()), Event.Start(r, input, NormalizeAll(w.steps.value)))
                  && r in runs && IsNewRun(runs[r], input, NormalizeAll(w.steps.value))
                  && runKeys == if key != "" then old(runKeys)[key := RunKeyRow(r, request)] else old(runKeys)
      ensures e.Failure? ==> runs == old(runs) && runKeys == old(runKeys)
    {
      if workflow.None? || !workflow.value.enabled {
        return Failure(Unavailable);
      }
      if !input.Obj? {
        return Failure(InputNotObject);
      }
      var parsed := Steps(workflow.value.steps);
      if parsed.Failure? {
        return Failure(Invalid(parsed.error));
      }
      assert ValidListing(parsed.value);
      var key := RunKey(rawKey);
      var request := RunRequest(workflow.value.id, workflow.value.version, actor, input);
      if key != "" && key in runKeys {
        return if runKeys[key].request == request then Success(runKeys[key].run) else Failure(RunKeyReused);
      }
      runs := runs[r := NewRun(input, parsed.value)];
      if key != "" {
        runKeys := runKeys[key := RunKeyRow(r, request)];
      }
      e := Success(r);
    }

    /** What the first loop makes of one step. */
    method ObserveStep(row: StepRow) returns (seen: StepRow, ended: bool)
      ensures seen == Observe(row, tasks)
      ensures ended <==> forall i :: MarkOf(row, tasks, i) != []
      ensures !ended <==> forall i :: MarkOf(row, tasks, i) == []
    {
      seen := row;
      if seen.taskId.Some? && seen.status in {Submitted, Running, Pending} && seen.taskId.value in tasks {
        var task := tasks[seen.taskId.value];
        match task.status {
          case TaskSucceeded => seen := seen.(status := Succeeded, result := task.result);
          case TaskFailed | DeadLetter | Canceled => seen := seen.(status := Failed);
          case Queued | WaitingApproval | Executing => seen := seen.(status := Running);
        }
      }
      ended := seen.status in {Succeeded, Failed} && seen.status != row.status;
      assert ended <==> MarkOf(row, tasks, 0) != [];
    }

    /** Record what was seen of row `i` if its task ended and the cut allows it. */
    method MarkRow(r: nat, i: nat, row: StepRow, seen: StepRow, ended: bool, left: nat, ghost before: Db, ghost sent: seq<Statement>)
      returns (left': nat, stopped: bool, ghost sent': seq<Statement>)
      requires MarksSent(before, r, Tables(), sent, i) && i < |before.runs[r].rows| && row == before.runs[r].rows[i]
      requires row.taskId.Some? && row.status !in {Succeeded, Failed} ==> row.status == Submitted
      requires seen == Observe(row, before.tasks) && (ended <==> MarkOf(row, before.tasks, i) != [])
      modifies this`runs
      ensures var marks := Marks(before.runs[r].rows, before.tasks, 0);
              stopped ==> |marks| > |sent| + left && Tables() == Exec(before, r, CutAt(marks, |sent| + left))
      ensures !stopped ==> MarksSent(before, r, Tables(), sent', i + 1) && |sent'| + left' == |sent| + left
    {
      hide Observe, Apply, Marks, MarkOf, Exec, SetRow, CutAt, Executes;
      MarksNext(before, r, Tables(), sent, i);
      left', stopped, sent' := left, false, sent;
      if ended {
        if left == 0 {
          stopped := true;
          MarksCut(before, r, Tables(), sent, i);
          return;
        }
        UpdateWorkflowStep(r, i, seen);
        sent', left' := sent + MarkOf(row, before.tasks, i), left - 1;
      }
    }

    /** One pass of the first loop: look at the task of row `i`, remember what it is, and record it. */
    method ObserveRow(r: nat, i: nat, m: Memory, left: nat, ghost before: Db, ghost sent: seq<Statement>, ghost cut: nat)
      returns (m': Memory, left': nat, stopped: bool, ghost sent': seq<Statement>)
      requires r in before.runs && i < |before.runs[r].rows| && Marking(before, r, Tables(), sent, m, i, left, cut)
      modifies this`runs
      ensures stopped ==> MarksRecorded(before, r, Tables(), cut, m', left', true)
      ensures !stopped ==> Marking(before, r, Tables(), sent', m', i + 1, left', cut) && |m'.steps| == |before.runs[r].rows|
    {
      assert Tables().tasks == tasks;
      hide WaitingAreSubmitted, Marking, MarksSent, Marks, MarkOf, Exec, CutAt, Observe, Observed, Remember, MarksRecorded, Tables;
      MarkingRow(before, r, Tables(), sent, m, i, left, cut);
      MarksKeepTasks(before, r, Tables(), sent, i);
      var row := m.steps[i];
      var seen, ended := ObserveStep(row);
      m' := m;
      left', stopped, sent' := MarkRow(r, i, row, seen, ended, left, before, sent);
      if stopped {
        StoppedInMarks(before, r, Tables(), cut, m, left');
      } else {
        MarkingNext(before, r, sent, Tables(), sent', m, i, left, left', cut);
        m' := Remember(m, i, seen);
      }
    }

    /** The first loop of `tick`: record the tasks that ended; `stopped` after `cut` statements if there are more. */
    method MarkSteps(r: nat, cut: nat) returns (m: Memory, left: nat, stopped: bool)
      requires Valid() && r in runs && runs[r].status == Active
      modifies this`runs
      ensures MarksRecorded(old(Tables()), r, Tables(), cut, m, left, stopped)
    {
      ghost var before := Tables();
      assert before.runs == runs;
      hide *;
      m, left, stopped := Memory(runs[r].rows, map[], false), cut, false;
      ghost var sent: seq<Statement> := [];
      MarkingBegin(before, r, cut);
      for i := 0 to |m.steps|
        invariant Marking(before, r, Tables(), sent, m, i, left, cut)
      {
        m, left, stopped, sent := ObserveRow(r, i, m, left, before, sent, cut);
        if stopped {
          return;
        }
      }
      MarkingEnd(before, r, Tables(), sent, m, left, cut);
    }

    /** `engine.submit` for one ready step and the update that records its task. */
    method SubmitOne(r: nat, j: nat, step: StepRow, results: map<string, Value>, left: nat,
                     ghost before: Db, ghost local: seq<StepRow>, ghost sent: seq<Statement>)
      returns (task: Option<nat>, stopped: bool)
      requires SubmissionsSent(before, r, Tables(), local, sent, j) && j < |local| && Ready(local, j)
      requires step == local[j] && results == StepResults(local)
      modifies this`runs, this`tasks, this`keys, this`next
      ensures !stopped ==> left >= 2 && SubmissionsSent(before, r, Tables(), local, sent + [Submit(j, RequestOf(local, before.runs[r].input, j)), Attach(j)], j + 1)
      ensures stopped ==> r in before.runs && StoppedAt(before, r, Tables(), Submissions(local, before.runs[r].input, 0), |sent| + left)
    {
      hide Inv, Apply, Executes, Exec, Tracks, Submissions, Ready, SubmissionsSent, StoppedAt, StepResults;
      ghost var now := Tables();
      SubmissionsNext(before, r, now, local, sent, j);
      ghost var rest := Submissions(local, before.runs[r].input, j + 1);
      var request := Request(step.step.agent, Render(Parse(step.step.prompt), TickContext(runs[r].input, results)), true);
      ghost var submit, attach := Submit(j, request), Attach(j);
      assert request == RequestOf(local, before.runs[r].input, j);
      hide RequestOf;
      assert [submit, attach] + rest == [submit] + ([attach] + rest);
      assert sent + ([submit, attach] + rest) == sent + [submit] + ([attach] + rest);
      task, stopped := None, true;
      if left == 0 {
        StopAtCut(before, r, now, sent, [submit] + ([attach] + rest));
        return;
      }
      task := SubmitTask(Key(r, step.step.id), request, false);
      SubmitIsCreate(now, r, j, request, Tables(), task);
      if task.None? {
        StopAtRaise(before, r, now, sent, submit, [attach] + rest, |sent| + left);
        return;
      }
      if left == 1 {
        StopAtCut(before, r, Tables(), sent + [submit], [attach] + rest);
        return;
      }
      var row := runs[r].rows[j].(status := Submitted, taskId := task);
      AttachIsUpdate(Tables(), r, j, row);
      UpdateWorkflowStep(r, j, row);
      stopped := false;
    }

    /** The second loop of `tick`: submit the ready steps. `stopped` is a raised error or the cut. */
    method SubmitReady(r: nat, local: seq<StepRow>, results: map<string, Value>, cut: nat) returns (left: nat, stopped: bool)
      requires Valid() && r in runs && runs[r].status == Active
      requires Tracks(runs[r].rows, local, 0) && results == StepResults(local)
      modifies this`runs, this`tasks, this`keys, this`next
      ensures var subs := Submissions(local, old(runs)[r].input, 0);
              && (stopped ==> StoppedAt(old(Tables()), r, Tables(), subs, cut))
              && (!stopped ==> |subs| + left == cut && SubmissionsSent(old(Tables()), r, Tables(), local, subs, |local|))
    {
      hide Inv, StepResults, StoppedAt, RequestOf, Submissions, SubmissionsSent, Tracks;
      ghost var before := Tables();
      ghost var sent: seq<Statement> := [];
      ghost var input := runs[r].input;
      var steps := local;
      left, stopped := cut, false;
      SubmissionsBegin(before, r, local);
      TracksSelf(local);
      for j := 0 to |local|
        invariant SubmissionsSent(before, r, Tables(), local, sent, j) && |sent| + left == cut
        invariant Tracks(steps, local, j) && |steps| == |local| && steps[j..] == local[j..]
      {
        MemoryReady(steps, local, j);
        if Ready(steps, j) {
          var task;
          task, stopped := SubmitOne(r, j, steps[j], results, left, before, local, sent);
          if stopped {
            return;
          }
          var row := steps[j].(status := Submitted, taskId := task);
          MemorySubmitted(steps, local, j, row);
          steps := steps[j := row];
          sent, left := sent + [Submit(j, RequestOf(local, input, j)), Attach(j)], left - 2;
        } else {
          SubmissionsSkip(before, r, Tables(), local, sent, j);
        }
      }
      SubmissionsEnd(before, r, Tables(), local, sent);
    }

    /**
     * The body of `tick` for one run, stopped after `cut` statements if it has more. It does what
     * the event `Tick` says, reading the tasks as they are.
     */
    method TickRun(r: nat, cut: nat)
      requires Valid() && r in runs && runs[r].status == Active
      modifies this`runs, this`tasks, this`keys, this`next
      ensures Tables() == Next(old(Tables()), Tick(r, old(tasks), cut))
    {
      hide Inv, Exec, Executes, Marks, Submissions, SubmissionsSent, StoppedAt, AfterMarks, ObserveAll, Tracks, AllSucceeded, Apply, SomeFailed, StepResults, CutAt;
      ghost var before := Tables();
      ghost var run := runs[r];
      ghost var marks := Marks(run.rows, tasks, 0);
      MarksPhase(before, r, tasks);
      MarkedRun(before, r, tasks);
      var m, left, stopped := MarkSteps(r, cut);
      ghost var decisions := Decisions(ObserveAll(run.rows, before.tasks), run.input);
      assert Plan(run, before.tasks) == marks + decisions;
      CutAppend(marks, decisions, cut);
      if stopped {
        return;
      }
      ghost var marked := Tables();
      assert marked == AfterMarks(before, r, before.tasks);
      ExecConcat(before, r, marks, CutAt(decisions, left));
      assert Next(before, Tick(r, before.tasks, cut)) == Exec(marked, r, CutAt(decisions, left));
      if m.failed {
        assert decisions == [Finish(Aborted)];
        FinishApplies(marked, r, Aborted);
        CutLast(marked, r, Finish(Aborted), left);
        if left > 0 {
          FinishWorkflowRun(r, Aborted);
        }
        return;
      }
      ghost var subs, end := Submissions(m.steps, run.input, 0), Ending(m.steps);
      assert decisions == subs + end;
      left, stopped := SubmitReady(r, m.steps, m.results, left);
      if stopped {
        StoppedEarly(marked, r, Tables(), subs, end, cut - |marks|);
        return;
      }
      SubmissionsResult(marked, r, Tables(), m.steps, subs);
      CutAppend(subs, end, cut - |marks|);
      ExecConcat(marked, r, subs, CutAt(end, left));
      ghost var submitted := Tables();
      var refreshed := runs[r].rows;
      if refreshed != [] && AllSucceeded(refreshed) {
        FinishApplies(submitted, r, Completed);
        CutLast(submitted, r, Finish(Completed), left);
        if left > 0 {
          FinishWorkflowRun(r, Completed);
        }
      } else {
        NothingToSend(submitted, r, left);
      }
    }
  }

  lemma CutAppend(a: seq<Statement>, b: seq<Statement>, n: nat)
    ensures CutAt(a + b, n) == (if n < |a| then CutAt(a, n) else a + CutAt(b, n - |a|))
    ensures n >= |a| ==> CutAt(a, n) == a
  {
  }

  lemma FinishApplies(db: Db, r: nat, outcome: RunStatus)
    requires r in db.runs
    ensures Apply(db, r, Finish(outcome)).Some?
  {
  }

  /** A last statement is sent unless the cut comes first. */
  lemma CutLast(db: Db, r: nat, s: Statement, left: nat)
    requires Apply(db, r, s).Some?
    ensures Exec(db, r, CutAt([s], left)) == (if left > 0 then Apply(db, r, s).value else db)
  {
    assert [s][1..] == [];
  }

  lemma NothingToSend(db: Db, r: nat, left: nat)
    ensures Exec(db, r, CutAt([], left)) == db
  {
  }

  lemma StoppedEarly(db: Db, r: nat, now: Db, subs: seq<Statement>, end: seq<Statement>, cut: nat)
    requires StoppedAt(db, r, now, subs, cut)
    ensures now == Exec(db, r, CutAt(subs + end, cut))
  {
    CutAppend(subs, end, cut);
    if |subs| <= cut {
      ExecStops(db, r, subs, CutAt(end, cut - |subs|));
    }
  }

  lemma SubmissionsResult(before: Db, r: nat, now: Db, local: seq<StepRow>, subs: seq<Statement>)
    requires SubmissionsSent(before, r, now, local, subs, |local|)
    ensures r in now.runs && Executes(before, r, subs) && now == Exec(before, r, subs)
    ensures |now.runs[r].rows| == |local| && (AllSucceeded(now.runs[r].rows) <==> AllSucceeded(local))
  {
    var rows := now.runs[r].rows;
    assert forall k :: 0 <= k < |rows| ==> (rows[k].status == Succeeded <==> local[k].status == Succeeded);
  }

  lemma TracksSelf(local: seq<StepRow>)
    ensures Tracks(local, local, 0)
  {
  }

  lemma MarksKeepTasks(before: Db, r: nat, now: Db, sent: seq<Statement>, i: nat)
    requires MarksSent(before, r, now, sent, i)
    ensures now.tasks == before.tasks
  {
  }

  lemma MarksCut(before: Db, r: nat, now: Db, sent: seq<Statement>, i: nat)
    requires MarksSent(before, r, now, sent, i) && i < |before.runs[r].rows| && MarkOf(before.runs[r].rows[i], before.tasks, i) != []
    ensures var marks := Marks(before.runs[r].rows, before.tasks, 0); |marks| > |sent| && now == Exec(before, r, CutAt(marks, |sent|))
  {
    assert Marks(before.runs[r].rows, before.tasks, 0)[..|sent|] == sent;
  }

  lemma MarksEnd(before: Db, r: nat, now: Db, sent: seq<Statement>)
    requires r in before.runs && MarksSent(before, r, now, sent, |before.runs[r].rows|)
    ensures sent == Marks(before.runs[r].rows, before.tasks, 0) && now == Exec(before, r, sent)
  {
  }
}
