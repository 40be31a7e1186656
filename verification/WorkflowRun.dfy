/** Workflow runs: the statements `tick` sends to the database, one run at a time. */
module WorkflowRun {
  import opened Wrappers
  import opened Text
  import opened WorkflowDefinition
  import opened Template

  /** `Running` exists only in the dictionaries `tick` holds; it is never stored. */
  datatype StepStatus = Pending | Submitted | Running | Succeeded | Failed

  /** A row of `workflow_steps3`. */
  datatype StepRow = StepRow(step: Step, status: StepStatus, taskId: Option<nat>, result: string)

  /** `running`, `succeeded` and `failed` of `workflow_runs3`. */
  datatype RunStatus = Active | Completed | Aborted

  datatype Run = Run(status: RunStatus, input: Value, rows: seq<StepRow>)

  datatype TaskStatus = Queued | WaitingApproval | Executing | TaskSucceeded | TaskFailed | DeadLetter | Canceled

  /** The idempotency key `workflow:{run}:{step}`. */
  datatype Key = Key(run: nat, step: string)

  /** What the request hash covers; `ownOptions` says that all but agent and prompt is as the step has it. */
  datatype Request = Request(agent: string, prompt: seq<Piece>, ownOptions: bool)

  /** A used key; `client` marks one a client of the API used first, for a task of its own. */
  datatype KeyRow = KeyRow(task: nat, request: Request, client: bool)

  /** A task; `origin` is the key it was created under, if any. */
  datatype Task = Task(status: TaskStatus, result: string, origin: Option<Key>)

  /**
   * What `submit` refuses before it looks at any key: the submissions its agent, the budgets, the
   * router or the success criteria stop at present, and prompts over the size limit. `dump` is the
   * JSON text of objects and lists.
   */
  datatype Gate = Gate(refused: set<Key>, maxBytes: nat, dump: Value -> string)

  function TextOf(prompt: seq<Piece>, dump: Value -> string): string {
    if prompt == [] then []
    else
      var text := match prompt[0]
        case Char(c) => [c]
        case Dump(v) => dump(v);
      text + TextOf(prompt[1..], dump)
  }

  /** The length of the UTF-8 form. */
  function Bytes(s: string): nat {
    if s == [] then 0
    else Bytes(s[1..]) + if s[0] < '\U{80}' then 1 else if s[0] < '\U{800}' then 2 else if s[0] < '\U{10000}' then 3 else 4
  }

  /** Blank prompts are always refused. */
  predicate Refuses(gate: Gate, key: Key, request: Request) {
    var text := TextOf(request.prompt, gate.dump);
    key in gate.refused || Strip(text) == [] || Bytes(text) > gate.maxBytes
  }

  /** Between one and four bytes a character, and one for each when all are ASCII. */
  lemma {:induction false} BytesBounds(s: string)
    ensures |s| <= Bytes(s) <= 4 * |s|
    ensures (forall i :: 0 <= i < |s| ==> s[i] < '\U{80}') ==> Bytes(s) == |s|
    ensures (forall i :: 0 <= i < |s| ==> s[i] >= '\U{10000}') ==> Bytes(s) == 4 * |s|
  {
    if s != [] {
      BytesBounds(s[1..]);
    }
  }

  lemma {:induction false} TextOfChars(s: string, dump: Value -> string)
    ensures TextOf(Chars(s), dump) == s
  {
    if s != [] {
      assert Chars(s)[1..] == Chars(s[1..]);
      TextOfChars(s[1..], dump);
    }
  }

  /** Refused are stopped submissions, prompts without any text, and prompts of too many bytes; no others. */
  lemma RefusedWhen(gate: Gate, key: Key, request: Request)
    ensures var text := TextOf(request.prompt, gate.dump);
            && (key in gate.refused || !HasText(text) || |text| > gate.maxBytes ==> Refuses(gate, key, request))
            && (key !in gate.refused && HasText(text) && 4 * |text| <= gate.maxBytes ==> !Refuses(gate, key, request))
            && (key !in gate.refused && HasText(text) && |text| <= gate.maxBytes && (forall i :: 0 <= i < |text| ==> text[i] < '\U{80}') ==>
                  !Refuses(gate, key, request))
  {
    var text := TextOf(request.prompt, gate.dump);
    BlankIff(text);
    hide TextOf, Bytes, HasText, Strip;
    BytesBounds(text);
  }

  /** The tables, and what submissions meet at present. */
  datatype Db = Db(runs: map<nat, Run>, tasks: map<nat, Task>, keys: map<Key, KeyRow>, next: nat, gate: Gate)

  const OPEN_GATE := Gate({}, 0x10_0000, v => "{}")
  const EMPTY := Db(map[], map[], map[], 0, OPEN_GATE)

  // ----- Statements -----

  /** One atomic write of a tick; rows are named by their place in the listing. */
  datatype Statement =
    | Mark(row: nat, status: StepStatus, result: string)
    | Submit(row: nat, request: Request)
    | Attach(row: nat)
    | Finish(outcome: RunStatus)

  function KeyOf(db: Db, r: nat, j: nat): Key
    requires r in db.runs && j < |db.runs[r].rows|
  {
    Key(r, db.runs[r].rows[j].step.id)
  }

  function SetRow(db: Db, r: nat, j: nat, row: StepRow): Db
    requires r in db.runs && j < |db.runs[r].rows|
  {
    db.(runs := db.runs[r := db.runs[r].(rows := db.runs[r].rows[j := row])])
  }

  /** The effect of one statement on run `r`; `None` is a raised error that wrote nothing. */
  function Apply(db: Db, r: nat, s: Statement): Option<Db> {
    if r !in db.runs then None
    else
      var run := db.runs[r];
      match s
      case Finish(status) => Some(db.(runs := db.runs[r := run.(status := status)]))
      case Mark(j, status, result) =>
        if j >= |run.rows| then None
        else Some(SetRow(db, r, j, run.rows[j].(status := status, result := result)))
      case Submit(j, request) =>
        if j >= |run.rows| || Refuses(db.gate, KeyOf(db, r, j), request) then None
        else if KeyOf(db, r, j) in db.keys then
          if db.keys[KeyOf(db, r, j)].request == request then Some(db) else None
        else
          Some(db.(tasks := db.tasks[db.next := Task(Queued, "", Some(KeyOf(db, r, j)))],
                   keys := db.keys[KeyOf(db, r, j) := KeyRow(db.next, request, false)],
                   next := db.next + 1))
      case Attach(j) =>
        if j >= |run.rows| || KeyOf(db, r, j) !in db.keys then None
        else Some(SetRow(db, r, j, run.rows[j].(status := Submitted, taskId := Some(db.keys[KeyOf(db, r, j)].task))))
  }

  /** Run a list of statements, stopping at the first that raises. */
  function Exec(db: Db, r: nat, ss: seq<Statement>): Db
    decreases |ss|
  {
    if ss == [] then db
    else
      match Apply(db, r, ss[0])
      case None => db
      case Some(after) => Exec(after, r, ss[1..])
  }

  /** No statement of the list raises. */
  predicate Executes(db: Db, r: nat, ss: seq<Statement>)
    decreases |ss|
  {
    ss == [] || (Apply(db, r, ss[0]).Some? && Executes(Apply(db, r, ss[0]).value, r, ss[1..]))
  }

  // ----- One tick -----

  /** What the first loop of `tick` makes of a step, given the tasks it reads. */
  function Observe(row: StepRow, view: map<nat, Task>): StepRow {
    if row.taskId.Some? && row.status in {Submitted, Running, Pending} && row.taskId.value in view then
      match view[row.taskId.value].status
      case TaskSucceeded => row.(status := Succeeded, result := view[row.taskId.value].result)
      case TaskFailed | DeadLetter | Canceled => row.(status := Failed)
      case Queued | WaitingApproval | Executing => row.(status := Running)
    else row
  }

  function ObserveAll(rows: seq<StepRow>, view: map<nat, Task>): (local: seq<StepRow>)
    ensures |local| == |rows|
  {
    seq(|rows|, i requires 0 <= i < |rows| => Observe(rows[i], view))
  }

  /** The statement the first loop sends for a step, if any. */
  function MarkOf(row: StepRow, view: map<nat, Task>, j: nat): seq<Statement> {
    var seen := Observe(row, view);
    if seen.status in {Succeeded, Failed} && seen.status != row.status then [Mark(j, seen.status, seen.result)] else []
  }

  function Marks(rows: seq<StepRow>, view: map<nat, Task>, j: nat): seq<Statement>
    decreases |rows| - j
  {
    if j >= |rows| then [] else MarkOf(rows[j], view, j) + Marks(rows, view, j + 1)
  }

  predicate SomeFailed(rows: seq<StepRow>) {
    exists j :: 0 <= j < |rows| && rows[j].status == Failed
  }

  predicate AllSucceeded(rows: seq<StepRow>) {
    forall j :: 0 <= j < |rows| ==> rows[j].status == Succeeded
  }

  function SucceededIds(rows: seq<StepRow>): set<string> {
    set j | 0 <= j < |rows| && rows[j].status == Succeeded :: rows[j].step.id
  }

  /** `context["steps"]`: the results of the succeeded steps. */
  function StepResults(rows: seq<StepRow>): map<string, Value> {
    if rows == [] then map[]
    else
      var last := rows[|rows| - 1];
      var before := StepResults(rows[..|rows| - 1]);
      if last.status == Succeeded then before[last.step.id := Obj(map["result" := Str(last.result)])] else before
  }

  /** A step the second loop submits. */
  predicate Ready(rows: seq<StepRow>, j: nat)
    requires j < |rows|
  {
    && rows[j].status == Pending && rows[j].taskId.None?
    && forall d :: d in rows[j].step.deps ==> d in SucceededIds(rows)
  }

  function RequestOf(rows: seq<StepRow>, input: Value, j: nat): Request
    requires j < |rows|
  {
    Request(rows[j].step.agent, Render(Parse(rows[j].step.prompt), TickContext(input, StepResults(rows))), true)
  }

  function Submissions(rows: seq<StepRow>, input: Value, j: nat): seq<Statement>
    decreases |rows| - j
  {
    if j >= |rows| then []
    else if Ready(rows, j) then [Submit(j, RequestOf(rows, input, j)), Attach(j)] + Submissions(rows, input, j + 1)
    else Submissions(rows, input, j + 1)
  }

  function Ending(local: seq<StepRow>): seq<Statement> {
    if local != [] && AllSucceeded(local) then [Finish(Completed)] else []
  }

  /** What follows the first loop: give up, or submit what is ready and look for the end of the run. */
  function Decisions(local: seq<StepRow>, input: Value): seq<Statement> {
    if SomeFailed(local) then [Finish(Aborted)]
    else Submissions(local, input, 0) + Ending(local)
  }

  /** Every statement a tick sends for a run when it reads the tasks in `view`. */
  function Plan(run: Run, view: map<nat, Task>): seq<Statement> {
    Marks(run.rows, view, 0) + Decisions(ObserveAll(run.rows, view), run.input)
  }

  // ----- Lists of statements -----

  lemma {:induction false} ExecConcat(db: Db, r: nat, a: seq<Statement>, b: seq<Statement>)
    requires Executes(db, r, a)
    ensures Exec(db, r, a + b) == Exec(Exec(db, r, a), r, b)
    ensures Executes(db, r, a + b) <==> Executes(Exec(db, r, a), r, b)
    decreases |a|
  {
    if a == [] {
      assert a + b == b;
    } else {
      assert (a + b)[1..] == a[1..] + b;
      ExecConcat(Apply(db, r, a[0]).value, r, a[1..], b);
    }
  }

  /** A list in which a statement raises hides whatever follows it. */
  lemma {:induction false} ExecStops(db: Db, r: nat, a: seq<Statement>, b: seq<Statement>)
    requires !Executes(db, r, a)
    ensures Exec(db, r, a + b) == Exec(db, r, a) && !Executes(db, r, a + b)
    decreases |a|
  {
    assert (a + b)[0] == a[0] && (a + b)[1..] == a[1..] + b;
    if Apply(db, r, a[0]).Some? {
      ExecStops(Apply(db, r, a[0]).value, r, a[1..], b);
    }
  }
}
