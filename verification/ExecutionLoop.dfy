/** The agent loop of one claimed task, against any provider, any tools and any other writers. */
module ExecutionLoop {
  import opened Wrappers
  import Tasks

  datatype Tier = Luna | Terra | Sol

  function Rank(t: Tier): nat {
    match t
    case Luna => 0
    case Terra => 1
    case Sol => 2
  }

  /** `ModelRouter.escalate`. */
  function NextTier(t: Tier): Option<Tier> {
    match t
    case Luna => Some(Terra)
    case Terra => Some(Sol)
    case Sol => None
  }

  datatype Rate = Rate(input: real, cached: real, output: real)

  /** The task as it was claimed, its agent and the settings. */
  datatype Params = Params(
    agentId: string, allowed: set<string>, approvalTools: set<string>, mutatingTools: set<string>,
    maxIterations: int, maxCost: real, maxSubagents: int, rates: Tier -> Rate,
    startTier: Tier, mutating: bool, required: int, depth: int,
    maxDepth: int, maxIdentical: int, maxFailures: int)

  /** A tool call; `args` is the canonical text of the arguments not named here. Equal calls have one signature. */
  datatype Call = Call(name: string, target: string, childMutating: bool, args: string)

  /** What a read of the task row shows, or the claimed copy when the row is gone. */
  datatype View = View(cancelRequested: bool, approved: bool)

  datatype Tokens = Tokens(input: int, cached: int, output: int)

  datatype Reply = Reply(tokens: Tokens, blank: bool, calls: seq<Call>)

  datatype ProviderOutcome = Answered(reply: Reply) | ProviderFailed(retryable: bool)

  /** The n-th answer of everything outside: row reads, budget checks, provider, tools, handoff contracts, submits, evaluation. */
  datatype World = World(
    agentExists: bool, views: nat -> View, overBudget: nat -> bool, provider: nat -> ProviderOutcome,
    toolFails: nat -> bool, handoffRejects: nat -> bool, submitRaises: nat -> bool, evaluationRaises: bool)

  // ----- The log of what the loop did -----

  datatype Handling =
    | NotGranted
    | TooManySubagents
    | TooDeep
    | HandoffRejected
    | Delegated
    | NotDeclaredMutating
    | ApprovalsPending
    | PolicyWantsApproval
    | Executed(failed: bool)

  datatype Reason =
    | Done
    | AgentMissing
    | CancelSeen
    | BudgetExhausted
    | CostExceeded
    | EmptyAtTop
    | DoomLoop(call: Call)
    | FailureStreak
    | IterationsUsedUp
    | SubmitRaised
    | EvaluationRaised
    | ProviderError(retryable: bool)

  datatype Action =
    | Usage(tier: Tier, reply: Reply, cost: real)
    | Stored(tier: Tier, tokens: Tokens, cost: real, iterations: int)
    | Escalated(from: Tier, to: Tier)
    | Handled(call: Call, view: View, how: Handling)
    | Ended(reason: Reason)

  type Log = seq<Action>

  function Clip(x: int): int {
    if x < 0 then 0 else x
  }

  /** `_cost`. */
  function Cost(rates: Tier -> Rate, tier: Tier, t: Tokens): real {
    var r := rates(tier);
    (Clip(t.input - t.cached) as real * r.input + Clip(t.cached) as real * r.cached + Clip(t.output) as real * r.output) / 1000000.0
  }

  function Turns(log: Log): nat {
    if log == [] then 0 else Turns(log[..|log| - 1]) + if log[|log| - 1].Usage? then 1 else 0
  }

  /** The sum of the usage rows. */
  function Spent(log: Log): real {
    if log == [] then 0.0 else Spent(log[..|log| - 1]) + if log[|log| - 1].Usage? then log[|log| - 1].cost else 0.0
  }

  function Add(a: Tokens, b: Tokens): Tokens {
    Tokens(a.input + b.input, a.cached + b.cached, a.output + b.output)
  }

  function Used(log: Log): Tokens {
    if log == [] then Tokens(0, 0, 0)
    else if log[|log| - 1].Usage? then Add(Used(log[..|log| - 1]), log[|log| - 1].reply.tokens)
    else Used(log[..|log| - 1])
  }

  function Children(log: Log): nat {
    if log == [] then 0
    else Children(log[..|log| - 1]) + if log[|log| - 1].Handled? && log[|log| - 1].how.Delegated? then 1 else 0
  }

  function Dispatches(log: Log, call: Call): nat {
    if log == [] then 0
    else Dispatches(log[..|log| - 1], call) + if log[|log| - 1].Handled? && log[|log| - 1].call == call then 1 else 0
  }

  /** How many calls were handled in all. */
  function Calls(log: Log): nat {
    if log == [] then 0 else Calls(log[..|log| - 1]) + if log[|log| - 1].Handled? then 1 else 0
  }

  /** The calls of the latest reply that are still to be handled. */
  function Pending(log: Log): seq<Call> {
    if log == [] then []
    else
      var before := Pending(log[..|log| - 1]);
      match log[|log| - 1]
      case Usage(_, reply, _) => reply.calls
      case Handled(_, _, _) => if before == [] then [] else before[1..]
      case _ => before
  }

  predicate IsError(how: Handling) {
    how != Delegated && how != Executed(false)
  }

  /** Consecutive tool failures at the end, across turns. */
  function Streak(log: Log): nat {
    if log == [] then 0
    else if !log[|log| - 1].Handled? then Streak(log[..|log| - 1])
    else if IsError(log[|log| - 1].how) then Streak(log[..|log| - 1]) + 1
    else 0
  }

  function CurrentTier(start: Tier, log: Log): Tier {
    if log == [] then start
    else if log[|log| - 1].Escalated? then log[|log| - 1].to
    else CurrentTier(start, log[..|log| - 1])
  }

  // ----- The next action, as a function of the log -----

  function IdenticalLimit(p: Params): nat {
    if p.maxIdentical < 1 then 1 else p.maxIdentical
  }

  function FailureLimit(p: Params): nat {
    if p.maxFailures < 1 then 1 else p.maxFailures
  }

  /** The approvals a task needs are complete. */
  predicate Cleared(p: Params, view: View) {
    p.required <= 0 || view.approved
  }

  /**
   * What the loop answers to one call that passed the signature check. The world decides whether a
   * tool that runs fails, and whether a contract registered for the two agents rejects a handoff.
   */
  function Answer(p: Params, children: int, call: Call, view: View, toolFails: bool, handoffRejects: bool): Handling {
    if call.name !in p.allowed then NotGranted
    else if call.name == "agent_delegate" then
      if children >= p.maxSubagents then TooManySubagents
      else if p.depth >= p.maxDepth then TooDeep
      else if call.target == p.agentId || call.target == "" || handoffRejects then HandoffRejected
      else Delegated
    else if call.name in p.mutatingTools && !p.mutating then NotDeclaredMutating
    else if call.name in p.mutatingTools && !Cleared(p, view) then ApprovalsPending
    else if call.name in p.approvalTools && !Cleared(p, view) then PolicyWantsApproval
    else Executed(toolFails)
  }

  function Last(log: Log): Action
    requires log != []
  {
    log[|log| - 1]
  }

  /** What follows the row of one turn: too dear, a final answer, or the calls. */
  predicate JustStored(log: Log) {
    |log| >= 2 && log[|log| - 1].Stored? && log[|log| - 2].Usage?
  }

  /** After the stored totals of a reply without calls. */
  function AfterAnswer(p: Params, w: World, log: Log, blank: bool): Action {
    var tier := CurrentTier(p.startTier, log);
    if !blank then Ended(if w.evaluationRaises then EvaluationRaised else Done)
    else if NextTier(tier).None? then Ended(EmptyAtTop)
    else Escalated(tier, NextTier(tier).value)
  }

  function NextCall(p: Params, w: World, log: Log): Action
    requires Pending(log) != []
  {
    var call, view := Pending(log)[0], w.views(Turns(log) + Calls(log));
    if view.cancelRequested then Ended(CancelSeen)
    else if Dispatches(log, call) >= IdenticalLimit(p) then Ended(DoomLoop(call))
    else Handled(call, view, Answer(p, Children(log), call, view, w.toolFails(Calls(log)), w.handoffRejects(Calls(log))))
  }

  function NextTurn(p: Params, w: World, log: Log): Action {
    var turn, tier := Turns(log) + 1, CurrentTier(p.startTier, log);
    if log == [] && !w.agentExists then Ended(AgentMissing)
    else if log == [] && w.overBudget(0) then Ended(BudgetExhausted)
    else if turn > p.maxIterations then Ended(IterationsUsedUp)
    else if w.views(Turns(log) + Calls(log)).cancelRequested then Ended(CancelSeen)
    else if w.overBudget(turn) then Ended(BudgetExhausted)
    else match w.provider(turn)
      case ProviderFailed(retryable) => Ended(ProviderError(retryable))
      case Answered(reply) => Usage(tier, reply, Cost(p.rates, tier, reply.tokens))
  }

  /** One flat step; every counter of the loop is read off the log. */
  function Next(p: Params, w: World, log: Log): Action {
    if log != [] && Last(log).Usage? then Stored(CurrentTier(p.startTier, log), Used(log), Spent(log), Turns(log))
    else if JustStored(log) && Spent(log) > p.maxCost then Ended(CostExceeded)
    else if JustStored(log) && log[|log| - 2].reply.calls == [] then AfterAnswer(p, w, log, log[|log| - 2].reply.blank)
    else if log != [] && Last(log).Handled? && Last(log).how == Delegated && Calls(log) > 0 && w.submitRaises(Calls(log) - 1) then Ended(SubmitRaised)
    else if Streak(log) >= FailureLimit(p) then Ended(FailureStreak)
    else if Pending(log) != [] then NextCall(p, w, log)
    else NextTurn(p, w, log)
  }

  /** Every action is the next one after those before it, and nothing follows the end. */
  ghost predicate Legal(p: Params, w: World, log: Log) {
    forall i :: 0 <= i < |log| ==> log[i] == Next(p, w, log[..i]) && (log[i].Ended? ==> i == |log| - 1)
  }

  ghost predicate Open(log: Log) {
    forall i :: 0 <= i < |log| ==> !log[i].Ended?
  }

  lemma Front(log: Log, a: Action)
    ensures (log + [a])[..|log + [a]| - 1] == log && (log + [a])[|log + [a]| - 1] == a
  {
  }

  lemma LegalStep(p: Params, w: World, log: Log, a: Action)
    requires Legal(p, w, log) && Open(log) && a == Next(p, w, log)
    ensures Legal(p, w, log + [a]) && (!a.Ended? ==> Open(log + [a]))
  {
    hide Next;
    forall i | 0 <= i < |log + [a]|
      ensures (log + [a])[i] == Next(p, w, (log + [a])[..i]) && ((log + [a])[i].Ended? ==> i == |log|)
    {
      if i < |log| {
        assert (log + [a])[..i] == log[..i];
      } else {
        assert (log + [a])[..i] == log;
      }
    }
  }

  // ----- The loop -----

  /** The loop's variables. */
  datatype Vars = Vars(tier: Tier, tokens: Tokens, cost: real, delegated: int, streak: int, counts: map<Call, nat>, looks: nat, calls: nat)

  function Count(counts: map<Call, nat>, call: Call): nat {
    if call in counts then counts[call] else 0
  }

  /** They say what the log says. */
  ghost predicate Tracks(p: Params, w: World, log: Log, v: Vars) {
    && Legal(p, w, log) && Open(log)
    && v.tier == CurrentTier(p.startTier, log) && v.tokens == Used(log) && v.cost == Spent(log)
    && v.delegated == Children(log) && v.streak == Streak(log)
    && v.calls == Calls(log) && v.looks == Turns(log) + Calls(log)
    && (forall call :: Dispatches(log, call) == Count(v.counts, call))
  }

  /** Between two turns or two calls: no check of the last one is open. */
  ghost predicate Settled(p: Params, w: World, log: Log) {
    && Streak(log) < FailureLimit(p)
    && (log != [] ==> !Last(log).Usage?)
    && (JustStored(log) ==> Spent(log) <= p.maxCost && log[|log| - 2].reply.calls != [])
    && (log != [] && Last(log).Handled? && Last(log).how == Delegated ==> Calls(log) > 0 && !w.submitRaises(Calls(log) - 1))
  }

  lemma Starts(p: Params, w: World)
    ensures Tracks(p, w, [], Vars(p.startTier, Tokens(0, 0, 0), 0.0, 0, 0, map[], 0, 0)) && Settled(p, w, []) && Turns([]) == 0 && Pending([]) == []
  {
  }

  /** At the top of a turn or between calls, the next action is that of the turn or of the next call. */
  lemma NextWhenSettled(p: Params, w: World, log: Log)
    requires Settled(p, w, log)
    ensures Next(p, w, log) == if Pending(log) != [] then NextCall(p, w, log) else NextTurn(p, w, log)
  {
    hide NextCall, NextTurn;
  }

  lemma Ends(p: Params, w: World, log: Log, v: Vars, reason: Reason)
    requires Tracks(p, w, log, v) && Next(p, w, log) == Ended(reason)
    ensures Legal(p, w, log + [Ended(reason)])
  {
    LegalStep(p, w, log, Ended(reason));
  }

  function AddTurn(p: Params, v: Vars, reply: Reply): Vars {
    v.(tokens := Add(v.tokens, reply.tokens), cost := v.cost + Cost(p.rates, v.tier, reply.tokens), looks := v.looks + 1)
  }

  /** The usage row and the stored totals of one turn. */
  function LogTurn(p: Params, log: Log, v: Vars, reply: Reply, iteration: int): Log {
    var v' := AddTurn(p, v, reply);
    log + [Usage(v.tier, reply, Cost(p.rates, v.tier, reply.tokens))] + [Stored(v.tier, v'.tokens, v'.cost, iteration)]
  }

  lemma TurnKeeps(p: Params, w: World, log: Log, v: Vars, reply: Reply, iteration: int)
    requires Tracks(p, w, log, v) && Next(p, w, log) == Usage(v.tier, reply, Cost(p.rates, v.tier, reply.tokens)) && Turns(log) == iteration - 1
    ensures var log' := LogTurn(p, log, v, reply, iteration);
            && Tracks(p, w, log', AddTurn(p, v, reply)) && Turns(log') == iteration && Pending(log') == reply.calls
            && JustStored(log') && log'[|log'| - 2].reply == reply && Streak(log') == Streak(log)
  {
    hide Legal, Cost;
    var usage := Usage(v.tier, reply, Cost(p.rates, v.tier, reply.tokens));
    var v' := AddTurn(p, v, reply);
    var stored := Stored(v.tier, v'.tokens, v'.cost, iteration);
    OneUsage(p, w, log, v, usage);
    Front(log + [usage], stored);
    LegalStep(p, w, log + [usage], stored);
    NoCall(log + [usage], stored);
  }

  lemma OneUsage(p: Params, w: World, log: Log, v: Vars, usage: Action)
    requires Tracks(p, w, log, v) && usage.Usage? && usage == Next(p, w, log) && usage.tier == v.tier
    ensures Tracks(p, w, log + [usage], v.(tokens := Add(v.tokens, usage.reply.tokens), cost := v.cost + usage.cost, looks := v.looks + 1))
    ensures Turns(log + [usage]) == Turns(log) + 1 && Pending(log + [usage]) == usage.reply.calls
    ensures Streak(log + [usage]) == Streak(log)
    ensures Last(log + [usage]) == usage
    ensures Next(p, w, log + [usage]) == Stored(v.tier, Add(v.tokens, usage.reply.tokens), v.cost + usage.cost, Turns(log) + 1)
  {
    hide Legal, Cost, NextTurn, NextCall, AfterAnswer;
    Front(log, usage);
    LegalStep(p, w, log, usage);
    NoCall(log, usage);
  }

  lemma NoCall(log: Log, a: Action)
    requires !a.Handled?
    ensures forall call :: Dispatches(log + [a], call) == Dispatches(log, call)
    ensures Children(log + [a]) == Children(log) && Streak(log + [a]) == Streak(log) && Calls(log + [a]) == Calls(log)
  {
    Front(log, a);
  }

  lemma EscalationKeeps(p: Params, w: World, log: Log, v: Vars, to: Tier)
    requires Tracks(p, w, log, v) && Next(p, w, log) == Escalated(v.tier, to) && Streak(log) < FailureLimit(p) && Pending(log) == []
    ensures var log' := log + [Escalated(v.tier, to)];
            Tracks(p, w, log', v.(tier := to)) && Settled(p, w, log') && Turns(log') == Turns(log) && Pending(log') == []
  {
    hide Legal, Next;
    Front(log, Escalated(v.tier, to));
    LegalStep(p, w, log, Escalated(v.tier, to));
    NoCall(log, Escalated(v.tier, to));
  }

  function AddCall(v: Vars, call: Call, how: Handling): Vars {
    v.(delegated := if how.Delegated? then v.delegated + 1 else v.delegated,
       streak := if IsError(how) then v.streak + 1 else 0,
       counts := v.counts[call := Count(v.counts, call) + 1], looks := v.looks + 1, calls := v.calls + 1)
  }

  lemma CallKeeps(p: Params, w: World, log: Log, v: Vars, call: Call, view: View, how: Handling)
    requires Tracks(p, w, log, v) && Next(p, w, log) == Handled(call, view, how) && Pending(log) != []
    ensures var log' := log + [Handled(call, view, how)];
            && Tracks(p, w, log', AddCall(v, call, how)) && Turns(log') == Turns(log) && Pending(log') == Pending(log)[1..]
            && Last(log') == Handled(call, view, how) && Calls(log') == Calls(log) + 1
            && Streak(log') == if IsError(how) then Streak(log) + 1 else 0
  {
    hide Legal, Next;
    Front(log, Handled(call, view, how));
    LegalStep(p, w, log, Handled(call, view, how));
    var log' := log + [Handled(call, view, how)];
    forall other
      ensures Dispatches(log', other) == Count(AddCall(v, call, how).counts, other)
    {
    }
    assert Used(log') == Used(log) && Spent(log') == Spent(log) && CurrentTier(p.startTier, log') == CurrentTier(p.startTier, log);
    assert Streak(log') == AddCall(v, call, how).streak;
    assert Children(log') == AddCall(v, call, how).delegated;
    assert Calls(log') == v.calls + 1 && Turns(log') == Turns(log);
  }

  lemma CallSettles(p: Params, w: World, log: Log)
    requires log != [] && Last(log).Handled? && Calls(log) > 0
    ensures Settled(p, w, log) <==> Streak(log) < FailureLimit(p) && !(Last(log).how == Delegated && w.submitRaises(Calls(log) - 1))
    ensures Last(log).how == Delegated && w.submitRaises(Calls(log) - 1) ==> Next(p, w, log) == Ended(SubmitRaised)
    ensures !(Last(log).how == Delegated && w.submitRaises(Calls(log) - 1)) && Streak(log) >= FailureLimit(p) ==> Next(p, w, log) == Ended(FailureStreak)
  {
    hide NextCall, NextTurn, AfterAnswer;
  }

  lemma TurnSettles(p: Params, w: World, log: Log)
    requires JustStored(log) && Streak(log) < FailureLimit(p)
    ensures Spent(log) > p.maxCost ==> Next(p, w, log) == Ended(CostExceeded)
    ensures Spent(log) <= p.maxCost && log[|log| - 2].reply.calls == [] ==> Next(p, w, log) == AfterAnswer(p, w, log, log[|log| - 2].reply.blank)
    ensures Spent(log) <= p.maxCost && log[|log| - 2].reply.calls != [] ==> Settled(p, w, log)
  {
    hide NextCall, NextTurn, AfterAnswer;
  }

  /** What the next call or turn is, from the loop's own variables. */
  lemma NextFromVars(p: Params, w: World, log: Log, v: Vars)
    requires Tracks(p, w, log, v) && Settled(p, w, log)
    ensures Pending(log) != [] ==>
              var call, view := Pending(log)[0], w.views(v.looks);
              Next(p, w, log) ==
                if view.cancelRequested then Ended(CancelSeen)
                else if Count(v.counts, call) + 1 > IdenticalLimit(p) then Ended(DoomLoop(call))
                else Handled(call, view, Answer(p, v.delegated, call, view, w.toolFails(v.calls), w.handoffRejects(v.calls)))
    ensures Pending(log) == [] ==> Next(p, w, log) == NextTurn(p, w, log)
  {
    hide Next, Legal;
    NextWhenSettled(p, w, log);
  }

  /** `_execute_claimed`: its nested loops and counters leave the very log the flat steps describe, up to the end. */
  method Execute(p: Params, w: World) returns (log: Log)
    ensures Legal(p, w, log) && log != [] && log[|log| - 1].Ended?
  {
    hide Tracks, Settled, Legal, Next, Turns, Spent, Used, Children, Dispatches, Streak, CurrentTier, Calls, Pending, Answer, Cost, LogTurn;
    log := [];
    var v := Vars(p.startTier, Tokens(0, 0, 0), 0.0, 0, 0, map[], 0, 0);
    Starts(p, w);
    NextFromVars(p, w, log, v);
    if !w.agentExists {
      Ends(p, w, log, v, AgentMissing);
      return log + [Ended(AgentMissing)];
    }
    if w.overBudget(0) {
      Ends(p, w, log, v, BudgetExhausted);
      return log + [Ended(BudgetExhausted)];
    }
    var iteration := 1;
    while iteration <= p.maxIterations
      invariant Tracks(p, w, log, v) && Settled(p, w, log) && Pending(log) == []
      invariant Turns(log) == iteration - 1 && (log == [] ==> w.agentExists && !w.overBudget(0))
    {
      NextFromVars(p, w, log, v);
      VarsSay(p, w, log, v);
      if w.views(v.looks).cancelRequested {
        Ends(p, w, log, v, CancelSeen);
        return log + [Ended(CancelSeen)];
      }
      if w.overBudget(iteration) {
        Ends(p, w, log, v, BudgetExhausted);
        return log + [Ended(BudgetExhausted)];
      }
      var outcome := w.provider(iteration);
      if outcome.ProviderFailed? {
        Ends(p, w, log, v, ProviderError(outcome.retryable));
        return log + [Ended(ProviderError(outcome.retryable))];
      }
      var reply := outcome.reply;
      TurnKeeps(p, w, log, v, reply, iteration);
      log := LogTurn(p, log, v, reply, iteration);
      v := AddTurn(p, v, reply);
      VarsSay(p, w, log, v);
      TurnSettles(p, w, log);
      if v.cost > p.maxCost {
        Ends(p, w, log, v, CostExceeded);
        return log + [Ended(CostExceeded)];
      }
      if reply.calls == [] {
        if reply.blank {
          var next := NextTier(v.tier);
          if next.None? {
            Ends(p, w, log, v, EmptyAtTop);
            return log + [Ended(EmptyAtTop)];
          }
          EscalationKeeps(p, w, log, v, next.value);
          log := log + [Escalated(v.tier, next.value)];
          v := v.(tier := next.value);
          iteration := iteration + 1;
          continue;
        }
        var reason := if w.evaluationRaises then EvaluationRaised else Done;
        Ends(p, w, log, v, reason);
        return log + [Ended(reason)];
      }
      var i := 0;
      while i < |reply.calls|
        invariant 0 <= i <= |reply.calls| && Pending(log) == reply.calls[i..]
        invariant Tracks(p, w, log, v) && Settled(p, w, log)
        invariant Turns(log) == iteration && log != []
      {
        NextFromVars(p, w, log, v);
        var call, view := reply.calls[i], w.views(v.looks);
        if view.cancelRequested {
          Ends(p, w, log, v, CancelSeen);
          return log + [Ended(CancelSeen)];
        }
        if Count(v.counts, call) + 1 > IdenticalLimit(p) {
          Ends(p, w, log, v, DoomLoop(call));
          return log + [Ended(DoomLoop(call))];
        }
        var how := Answer(p, v.delegated, call, view, w.toolFails(v.calls), w.handoffRejects(v.calls));
        CallKeeps(p, w, log, v, call, view, how);
        log := log + [Handled(call, view, how)];
        v := AddCall(v, call, how);
        VarsSay(p, w, log, v);
        CallSettles(p, w, log);
        if how.Delegated? && w.submitRaises(v.calls - 1) {
          Ends(p, w, log, v, SubmitRaised);
          return log + [Ended(SubmitRaised)];
        }
        if v.streak >= FailureLimit(p) {
          Ends(p, w, log, v, FailureStreak);
          return log + [Ended(FailureStreak)];
        }
        i := i + 1;
      }
      iteration := iteration + 1;
    }
    NextFromVars(p, w, log, v);
    VarsSay(p, w, log, v);
    Ends(p, w, log, v, IterationsUsedUp);
    log := log + [Ended(IterationsUsedUp)];
  }

  lemma VarsSay(p: Params, w: World, log: Log, v: Vars)
    requires Tracks(p, w, log, v)
    ensures v.tier == CurrentTier(p.startTier, log) && v.cost == Spent(log) && v.streak == Streak(log)
    ensures v.calls == Calls(log) && v.looks == Turns(log) + Calls(log)
    ensures Settled(p, w, log) ==> Streak(log) < FailureLimit(p)
  {
    hide Legal;
  }

  // ----- What every legal log keeps -----

  lemma LegalPrefix(p: Params, w: World, log: Log, k: nat)
    requires Legal(p, w, log) && k <= |log|
    ensures Legal(p, w, log[..k])
  {
    hide Next;
    forall i | 0 <= i < k
      ensures log[..k][i] == Next(p, w, log[..k][..i]) && (log[..k][i].Ended? ==> i == k - 1)
    {
      assert log[..k][..i] == log[..i];
    }
  }

  lemma LegalFront(p: Params, w: World, log: Log)
    requires Legal(p, w, log) && log != []
    ensures Legal(p, w, log[..|log| - 1]) && log[|log| - 1] == Next(p, w, log[..|log| - 1])
    ensures |log| > 1 ==> !log[|log| - 2].Ended?
  {
    hide Next;
    LegalPrefix(p, w, log, |log| - 1);
  }

  /** The log of a claim is determined by the task and the world: a complete one is the only one. */
  lemma {:induction false} LogIsDetermined(p: Params, w: World, a: Log, b: Log)
    requires Legal(p, w, a) && Legal(p, w, b) && a != [] && b != [] && Last(a).Ended? && Last(b).Ended?
    ensures a == b
  {
    hide Next;
    var n := if |a| < |b| then |a| else |b|;
    SamePrefix(p, w, a, b, n);
    assert a[..n] == b[..n] && a[n - 1] == b[n - 1];
    assert a[..|a|] == a && b[..|b|] == b;
  }

  lemma {:induction false} SamePrefix(p: Params, w: World, a: Log, b: Log, n: nat)
    requires Legal(p, w, a) && Legal(p, w, b) && n <= |a| && n <= |b|
    ensures a[..n] == b[..n]
    decreases n
  {
    hide Next;
    if n > 0 {
      SamePrefix(p, w, a, b, n - 1);
      assert a[..n] == a[..n - 1] + [a[n - 1]] && b[..n] == b[..n - 1] + [b[n - 1]];
    }
  }

  /** No signature is dispatched more often than the doom-loop limit. */
  lemma {:induction false} DispatchesWithin(p: Params, w: World, log: Log, call: Call)
    requires Legal(p, w, log)
    ensures Dispatches(log, call) <= if p.maxIdentical < 1 then 1 else p.maxIdentical
  {
    hide Legal, Turns, Spent, Used, Children, Streak, CurrentTier, Calls, Pending, Answer, Cost;
    if log != [] {
      LegalFront(p, w, log);
      DispatchesWithin(p, w, log[..|log| - 1], call);
    }
  }

  /** At most `max_iterations` turns. */
  lemma {:induction false} TurnsWithin(p: Params, w: World, log: Log)
    requires Legal(p, w, log)
    ensures Turns(log) > 0 ==> Turns(log) <= p.maxIterations
  {
    hide Legal, Spent, Used, Children, Streak, CurrentTier, Calls, Pending, Answer, Cost, Dispatches;
    if log != [] {
      LegalFront(p, w, log);
      TurnsWithin(p, w, log[..|log| - 1]);
    }
  }

  /** At most `max_subagents` children. */
  lemma {:induction false} ChildrenWithin(p: Params, w: World, log: Log)
    requires Legal(p, w, log)
    ensures Children(log) > 0 ==> Children(log) <= p.maxSubagents
  {
    hide Legal, Turns, Spent, Used, Streak, CurrentTier, Calls, Pending, Cost, Dispatches;
    if log != [] {
      LegalFront(p, w, log);
      ChildrenWithin(p, w, log[..|log| - 1]);
    }
  }

  /** The limit of consecutive failures is never passed, and once it is reached nothing runs any more. */
  lemma {:induction false} StreakWithin(p: Params, w: World, log: Log)
    requires Legal(p, w, log)
    ensures Streak(log) <= if p.maxFailures < 1 then 1 else p.maxFailures
    ensures Streak(log) == (if p.maxFailures < 1 then 1 else p.maxFailures) ==> log != [] && (Last(log).Handled? || Last(log).Ended?)
  {
    hide Legal, Turns, Spent, Used, Children, CurrentTier, Calls, Pending, Cost, Dispatches, Answer, NextCall, NextTurn, AfterAnswer;
    if log != [] {
      LegalFront(p, w, log);
      StreakWithin(p, w, log[..|log| - 1]);
    }
  }

  lemma {:induction false} SpentWithin(p: Params, w: World, log: Log)
    requires Legal(p, w, log) && Turns(log) > 0 && !(Last(log).Usage? || Last(log).Stored? || Last(log).Ended?)
    ensures Spent(log) <= p.maxCost
  {
    hide Legal, Used, Children, CurrentTier, Calls, Cost, Dispatches, Answer, NextCall, NextTurn, AfterAnswer, Streak;
    LegalFront(p, w, log);
    var front := log[..|log| - 1];
    if Last(front).Stored? {
      StoredFollowsUsage(p, w, front);
    } else {
      SpentWithin(p, w, front);
    }
  }

  lemma StoredFollowsUsage(p: Params, w: World, log: Log)
    requires Legal(p, w, log) && log != [] && Last(log).Stored?
    ensures JustStored(log) && Last(log).cost == Spent(log) && Last(log).tokens == Used(log) && Last(log).iterations == Turns(log)
  {
    hide Legal, Children, Calls, Cost, Dispatches, Answer, Streak, Pending;
    LegalFront(p, w, log);
    assert log[..|log| - 1] != [] && Last(log[..|log| - 1]) == log[|log| - 2];
  }

  /** The cost before each turn, the last included, is within `max_cost_credits`. */
  lemma CostBeforeTurn(p: Params, w: World, log: Log, i: nat)
    requires Legal(p, w, log) && i < |log| && log[i].Usage? && Turns(log[..i]) > 0
    ensures Spent(log[..i]) <= p.maxCost
  {
    hide Used, Children, CurrentTier, Calls, Cost, Dispatches, Answer, NextCall, AfterAnswer, Streak;
    var before := log[..i];
    LegalPrefix(p, w, log, i);
    assert log[i] == Next(p, w, before);
    assert before != [] && Last(before) == log[i - 1];
    if Last(before).Stored? {
      StoredFollowsUsage(p, w, before);
    } else {
      SpentWithin(p, w, before);
    }
  }

  lemma {:induction false} TierAt(p: Params, w: World, log: Log, i: nat, j: nat)
    requires Legal(p, w, log) && i <= j <= |log|
    ensures Rank(CurrentTier(p.startTier, log[..i])) <= Rank(CurrentTier(p.startTier, log[..j]))
    decreases j
  {
    hide Legal, Turns, Spent, Used, Children, Calls, Pending, Cost, Dispatches, Answer, Streak;
    if i < j {
      TierAt(p, w, log, i, j - 1);
      LegalPrefix(p, w, log, j);
      LegalFront(p, w, log[..j]);
      assert log[..j][..j - 1] == log[..j - 1];
    }
  }

  lemma UsageTier(p: Params, w: World, log: Log, i: nat)
    requires Legal(p, w, log) && i < |log| && log[i].Usage?
    ensures log[i].tier == CurrentTier(p.startTier, log[..i])
    ensures log[i].cost == Cost(p.rates, log[i].tier, log[i].reply.tokens)
  {
    hide Turns, Spent, Used, Children, Calls, Pending, Dispatches, Answer, Streak, CurrentTier, Cost;
    assert log[i] == Next(p, w, log[..i]);
  }

  // ----- What turns cost -----

  /** Counts as providers send them: cached tokens are some of the input tokens. */
  predicate Counted(t: Tokens) {
    0 <= t.cached <= t.input && 0 <= t.output
  }

  /** A million tokens of one kind, and no others, cost the rate of that kind. */
  lemma CostOfUnits(rates: Tier -> Rate, tier: Tier)
    ensures Cost(rates, tier, Tokens(1000000, 0, 0)) == rates(tier).input
    ensures Cost(rates, tier, Tokens(1000000, 1000000, 0)) == rates(tier).cached
    ensures Cost(rates, tier, Tokens(0, 0, 1000000)) == rates(tier).output
    ensures Cost(rates, tier, Tokens(0, 0, 0)) == 0.0
  {
  }

  /** Costs add up over tokens. */
  lemma CostAdds(rates: Tier -> Rate, tier: Tier, a: Tokens, b: Tokens)
    requires Counted(a) && Counted(b)
    ensures Cost(rates, tier, Add(a, b)) == Cost(rates, tier, a) + Cost(rates, tier, b)
  {
    var r := rates(tier);
    Distribute(a.input - a.cached, b.input - b.cached, r.input);
    Distribute(a.cached, b.cached, r.cached);
    Distribute(a.output, b.output, r.output);
  }

  lemma Distribute(a: int, b: int, r: real)
    ensures (a + b) as real * r == a as real * r + b as real * r
  {
  }

  lemma CostNotNegative(rates: Tier -> Rate, tier: Tier, t: Tokens)
    requires rates(tier).input >= 0.0 && rates(tier).cached >= 0.0 && rates(tier).output >= 0.0
    ensures Cost(rates, tier, t) >= 0.0
  {
    Product(Clip(t.input - t.cached) as real, rates(tier).input);
    Product(Clip(t.cached) as real, rates(tier).cached);
    Product(Clip(t.output) as real, rates(tier).output);
  }

  lemma Product(a: real, b: real)
    requires a >= 0.0 && b >= 0.0
    ensures a * b >= 0.0
  {
  }

  lemma SameCost(rates: Tier -> Rate, tier: Tier, a: Tokens, b: Tokens)
    requires Clip(a.input - a.cached) == Clip(b.input - b.cached) && Clip(a.cached) == Clip(b.cached) && Clip(a.output) == Clip(b.output)
    ensures Cost(rates, tier, a) == Cost(rates, tier, b)
  {
  }

  /**
   * Counts out of order: outputs or cached tokens below zero cost nothing, a negative cached count adds
   * to the fresh input, and input below the cached count costs nothing beside it.
   */
  lemma CostOfOddCounts(rates: Tier -> Rate, tier: Tier, t: Tokens)
    ensures t.output <= 0 ==> Cost(rates, tier, t) == Cost(rates, tier, t.(output := 0))
    ensures t.cached <= 0 ==> Cost(rates, tier, t) == Cost(rates, tier, Tokens(t.input - t.cached, 0, t.output))
    ensures 0 <= t.cached && t.input <= t.cached ==> Cost(rates, tier, t) == Cost(rates, tier, t.(input := t.cached))
    ensures t.cached <= 0 && t.input <= t.cached ==> Cost(rates, tier, t) == Cost(rates, tier, t.(input := 0, cached := 0))
  {
    hide Cost;
    if t.output <= 0 {
      SameCost(rates, tier, t, t.(output := 0));
    }
    if t.cached <= 0 {
      SameCost(rates, tier, t, Tokens(t.input - t.cached, 0, t.output));
    }
    if 0 <= t.cached && t.input <= t.cached {
      SameCost(rates, tier, t, t.(input := t.cached));
    }
    if t.cached <= 0 && t.input <= t.cached {
      SameCost(rates, tier, t, t.(input := 0, cached := 0));
    }
  }

  /** Cached tokens are never charged at the input rate: it does not matter when there are no others. */
  lemma CachedTokensHaveTheirRate(rates: Tier -> Rate, other: Tier -> Rate, tier: Tier, t: Tokens)
    requires t.input <= t.cached && rates(tier).cached == other(tier).cached && rates(tier).output == other(tier).output
    ensures Cost(rates, tier, t) == Cost(other, tier, t)
  {
  }

  /** The tokens of the turns on one tier. */
  function UsedOn(log: Log, tier: Tier): Tokens {
    if log == [] then Tokens(0, 0, 0)
    else if log[|log| - 1].Usage? && log[|log| - 1].tier == tier then Add(UsedOn(log[..|log| - 1], tier), log[|log| - 1].reply.tokens)
    else UsedOn(log[..|log| - 1], tier)
  }

  ghost predicate AllCounted(log: Log) {
    forall i :: 0 <= i < |log| && log[i].Usage? ==> Counted(log[i].reply.tokens)
  }

  lemma {:induction false} UsedOnCounted(log: Log, tier: Tier)
    requires AllCounted(log)
    ensures Counted(UsedOn(log, tier))
  {
    if log != [] {
      UsedOnCounted(log[..|log| - 1], tier);
    }
  }

  /** The usage rows of a claim add up to the price of its token totals, each tier at its own rates. */
  lemma {:induction false} SpentIsBill(p: Params, w: World, log: Log)
    requires Legal(p, w, log) && AllCounted(log)
    ensures Spent(log) == Cost(p.rates, Luna, UsedOn(log, Luna)) + Cost(p.rates, Terra, UsedOn(log, Terra)) + Cost(p.rates, Sol, UsedOn(log, Sol))
    ensures Used(log) == Add(Add(UsedOn(log, Luna), UsedOn(log, Terra)), UsedOn(log, Sol))
  {
    hide *;
    if log == [] {
      NothingUsed();
      CostOfUnits(p.rates, Luna);
      CostOfUnits(p.rates, Terra);
      CostOfUnits(p.rates, Sol);
      AddTokens();
    } else {
      var front, last := log[..|log| - 1], log[|log| - 1];
      LegalFront(p, w, log);
      FrontCounted(log);
      SpentIsBill(p, w, front);
      UsedNext(log);
      if last.Usage? {
        UsageTier(p, w, log, |log| - 1);
        UsedOnCounted(front, last.tier);
        CostAdds(p.rates, last.tier, UsedOn(front, last.tier), last.reply.tokens);
        AddTokens();
      }
    }
  }

  lemma NothingUsed()
    ensures Spent([]) == 0.0 && Used([]) == Tokens(0, 0, 0) && forall tier :: UsedOn([], tier) == Tokens(0, 0, 0)
  {
  }

  lemma FrontCounted(log: Log)
    requires log != [] && AllCounted(log)
    ensures AllCounted(log[..|log| - 1]) && (Last(log).Usage? ==> Counted(Last(log).reply.tokens))
    ensures Last(log) == log[|log| - 1]
  {
  }

  lemma AddTokens()
    ensures forall a, b :: Add(a, b) == Add(b, a)
    ensures forall a, b, c :: Add(Add(a, b), c) == Add(a, Add(b, c))
    ensures Add(Tokens(0, 0, 0), Tokens(0, 0, 0)) == Tokens(0, 0, 0)
  {
  }

  /** What the last action adds to the sums. */
  lemma UsedNext(log: Log)
    requires log != []
    ensures var front, last := log[..|log| - 1], log[|log| - 1];
            && Spent(log) == Spent(front) + (if last.Usage? then last.cost else 0.0)
            && Used(log) == (if last.Usage? then Add(Used(front), last.reply.tokens) else Used(front))
            && forall tier :: UsedOn(log, tier) ==
                 if last.Usage? && last.tier == tier then Add(UsedOn(front, tier), last.reply.tokens) else UsedOn(front, tier)
  {
  }

  // ----- Why each action was taken -----

  /** A turn was asked for: an agent, a turn left, nobody cancelled, budget left, and the reply is the provider's. */
  lemma TurnsAreAsked(p: Params, w: World, log: Log, i: nat)
    requires Legal(p, w, log) && i < |log| && log[i].Usage?
    ensures var before := log[..i]; var turn := Turns(before) + 1;
            && w.agentExists && !w.overBudget(0) && turn <= p.maxIterations
            && !w.views(Turns(before) + Calls(before)).cancelRequested && !w.overBudget(turn)
            && w.provider(turn) == Answered(log[i].reply)
  {
    hide Legal, Next;
    AtIndex(p, w, log, i);
    AtIndex(p, w, log, 0);
    assert log[..0] == [];
    TurnAsked(p, w, log[..i], log[i]);
    FirstAction(p, w);
  }

  lemma AtIndex(p: Params, w: World, log: Log, i: nat)
    requires Legal(p, w, log) && i < |log|
    ensures log[i] == Next(p, w, log[..i]) && (log[i].Ended? ==> i == |log| - 1)
  {
    hide Next;
  }

  lemma FirstAction(p: Params, w: World)
    ensures Next(p, w, []) == NextTurn(p, w, [])
    ensures !Next(p, w, []).Ended? ==> w.agentExists && !w.overBudget(0)
    ensures Next(p, w, []).Usage? ==> w.agentExists && !w.overBudget(0)
  {
    hide Next;
    Starts(p, w);
    NextWhenSettled(p, w, []);
  }

  lemma TurnAsked(p: Params, w: World, before: Log, a: Action)
    requires a == Next(p, w, before) && a.Usage?
    ensures var turn := Turns(before) + 1;
            && turn <= p.maxIterations
            && !w.views(Turns(before) + Calls(before)).cancelRequested && !w.overBudget(turn)
            && w.provider(turn) == Answered(a.reply)
  {
    hide Spent, Used, Children, Dispatches, Answer, Streak, CurrentTier, Cost, Pending, Turns, Calls;
  }

  /** The calls of a reply are answered one by one, in its order. */
  lemma {:induction false} CallsInOrder(p: Params, w: World, log: Log) returns (u: nat)
    requires Legal(p, w, log) && Pending(log) != []
    ensures u < |log| && log[u].Usage? && Calls(log[..u]) <= Calls(log)
    ensures forall i :: u < i < |log| ==> !log[i].Usage?
    ensures Calls(log) - Calls(log[..u]) <= |log[u].reply.calls| && Pending(log) == log[u].reply.calls[Calls(log) - Calls(log[..u])..]
  {
    hide Legal, Spent, Used, Children, Dispatches, Answer, Streak, CurrentTier, Cost, Turns, Next;
    var last := |log| - 1;
    if log[last].Usage? {
      u := last;
    } else {
      LegalFront(p, w, log);
      u := CallsInOrder(p, w, log[..last]);
      assert log[..last][..u] == log[..u];
    }
  }

  /** The call answered is the next one of the latest reply, and how it is answered has one condition for each answer. */
  lemma CallIsAnswered(p: Params, w: World, log: Log, i: nat) returns (u: nat)
    requires Legal(p, w, log) && i < |log| && log[i].Handled?
    ensures u < i && log[u].Usage? && 0 <= Calls(log[..i]) - Calls(log[..u]) < |log[u].reply.calls|
    ensures log[i].call == log[u].reply.calls[Calls(log[..i]) - Calls(log[..u])] && !log[i].view.cancelRequested
    ensures AnswerFits(p, Children(log[..i]), log[i].call, log[i].view, w.toolFails(Calls(log[..i])), w.handoffRejects(Calls(log[..i])), log[i].how)
  {
    hide Legal, Spent, Used, Children, Dispatches, Answer, Streak, CurrentTier, Cost, Turns, Calls, Pending, AnswerFits;
    LegalPrefix(p, w, log, i);
    assert log[i] == Next(p, w, log[..i]) by {
      LegalPrefix(p, w, log, i + 1);
      LegalFront(p, w, log[..i + 1]);
      assert log[..i + 1][..i] == log[..i];
    }
    u := CallsInOrder(p, w, log[..i]);
    assert log[..i][..u] == log[..u];
    AnswerIs(p, Children(log[..i]), log[i].call, log[i].view, w.toolFails(Calls(log[..i])), w.handoffRejects(Calls(log[..i])));
  }

  /** Approvals are wanted: the task needs them and the row does not carry their mark. */
  predicate Wanting(p: Params, view: View) {
    p.required > 0 && !view.approved
  }

  /** When each answer is given. */
  ghost predicate AnswerFits(p: Params, children: int, call: Call, view: View, toolFails: bool, handoffRejects: bool, how: Handling) {
    var granted, delegate := call.name in p.allowed, call.name == "agent_delegate";
    && (how == NotGranted <==> !granted)
    && (how == Delegated <==> granted && delegate && children < p.maxSubagents && p.depth < p.maxDepth
                              && call.target != p.agentId && call.target != "" && !handoffRejects)
    && (how.Executed? <==> granted && !delegate
                           && (call.name in p.mutatingTools ==> p.mutating)
                           && (call.name in p.mutatingTools + p.approvalTools ==> !Wanting(p, view)))
    && (how.Executed? ==> how.failed == toolFails)
    && (how == TooManySubagents <==> granted && delegate && children >= p.maxSubagents)
    && (how == NotDeclaredMutating <==> granted && !delegate && call.name in p.mutatingTools && !p.mutating)
  }

  lemma AnswerIs(p: Params, children: int, call: Call, view: View, toolFails: bool, handoffRejects: bool)
    ensures AnswerFits(p, children, call, view, toolFails, handoffRejects, Answer(p, children, call, view, toolFails, handoffRejects))
  {
  }

  /** How the calls so far were answered, in order. */
  function AnswersTo(log: Log): seq<Handling> {
    if log == [] then []
    else if log[|log| - 1].Handled? then AnswersTo(log[..|log| - 1]) + [log[|log| - 1].how]
    else AnswersTo(log[..|log| - 1])
  }

  /** The failure streak counts the last answers back to the latest delegation or tool that worked. */
  lemma {:induction false} StreakIs(log: Log)
    ensures var hows, n := AnswersTo(log), Streak(log);
            && n <= |hows| == Calls(log)
            && (forall i :: |hows| - n <= i < |hows| ==> hows[i] != Delegated && hows[i] != Executed(false))
            && (n < |hows| ==> hows[|hows| - n - 1] in {Delegated, Executed(false)})
  {
    if log != [] {
      StreakIs(log[..|log| - 1]);
    }
  }

  /** What was the case when the loop ended. */
  ghost predicate Cause(p: Params, w: World, before: Log, reason: Reason) {
    var looks, turn := Turns(before) + Calls(before), Turns(before) + 1;
    match reason
    case Done => Answers(p, w, before)
    case AgentMissing => before == [] && !w.agentExists
    case CancelSeen => w.views(looks).cancelRequested
    case BudgetExhausted => w.overBudget(turn) || (before == [] && w.overBudget(0))
    case CostExceeded => JustStored(before) && Spent(before) > p.maxCost
    case EmptyAtTop => JustStored(before) && before[|before| - 2].reply.blank && before[|before| - 2].reply.calls == [] && CurrentTier(p.startTier, before) == Sol
    case DoomLoop(call) => Pending(before) != [] && Pending(before)[0] == call && Dispatches(before, call) >= 1 && Dispatches(before, call) >= p.maxIdentical
    case FailureStreak => Streak(before) >= 1 && Streak(before) >= p.maxFailures
    case IterationsUsedUp => Turns(before) >= p.maxIterations
    case SubmitRaised => before != [] && Last(before).Handled? && Last(before).how == Delegated && Calls(before) > 0 && w.submitRaises(Calls(before) - 1)
    case EvaluationRaised => JustStored(before) && !before[|before| - 2].reply.blank && w.evaluationRaises
    case ProviderError(retryable) => w.provider(turn) == ProviderFailed(retryable)
  }

  /** Every end has its cause, and every escalation goes one tier up after a blank answer. */
  lemma EndsHaveCauses(p: Params, w: World, log: Log)
    requires Legal(p, w, log) && log != []
    ensures Last(log).Ended? ==> Cause(p, w, log[..|log| - 1], Last(log).reason)
    ensures Last(log).Escalated? ==>
              && |log| >= 3 && log[|log| - 3].Usage? && log[|log| - 3].reply.blank && log[|log| - 3].reply.calls == []
              && Rank(Last(log).to) == Rank(Last(log).from) + 1
  {
    hide Legal, Turns, Spent, Used, Children, Calls, Dispatches, Answer, Streak, CurrentTier, Cost, Pending;
    LegalFront(p, w, log);
  }

  /** The tier never drops from one turn to a later one. */
  lemma TierNeverDrops(p: Params, w: World, log: Log, i: nat, j: nat)
    requires Legal(p, w, log) && i <= j < |log| && log[i].Usage? && log[j].Usage?
    ensures Rank(p.startTier) <= Rank(log[i].tier) <= Rank(log[j].tier)
  {
    hide Legal;
    TierAt(p, w, log, i, j);
    TierAt(p, w, log, 0, i);
    UsageTier(p, w, log, i);
    UsageTier(p, w, log, j);
  }

  /**
   * What a tool call that ran tells: the tool was granted; a mutating one means the task was
   * declared mutating; and for a mutating or policy-bound one the required approvals were complete
   * when the row was read.
   */
  lemma ToolsRunOnlyWhenCleared(p: Params, w: World, log: Log, i: nat)
    requires Legal(p, w, log) && i < |log| && log[i].Handled? && log[i].how.Executed?
    ensures log[i].call.name in p.allowed && log[i].call.name != "agent_delegate"
    ensures log[i].call.name in p.mutatingTools ==> p.mutating
    ensures log[i].call.name in p.mutatingTools + p.approvalTools ==> p.required <= 0 || log[i].view.approved
  {
    hide Turns, Spent, Used, Children, Calls, Dispatches, Streak, CurrentTier, Cost, Pending;
    assert log[i] == Next(p, w, log[..i]);
  }

  ghost predicate StoresTotals(log: Log, i: nat) {
    && i < |log| && log[i].Stored? && log[i].cost == Spent(log) && log[i].tokens == Used(log) && log[i].iterations == Turns(log)
    && forall j :: i < j < |log| ==> !log[j].Stored?
  }

  /** When the loop has ended, the totals last stored are the sums over this claim's usage rows. */
  lemma {:induction false} StoredIsSumOfUsage(p: Params, w: World, log: Log) returns (i: nat)
    requires Legal(p, w, log) && Turns(log) > 0 && !Last(log).Usage?
    ensures StoresTotals(log, i)
  {
    hide Legal, Children, Calls, Cost, Dispatches, Answer, Streak, Pending, CurrentTier, NextTurn, NextCall, AfterAnswer;
    LegalFront(p, w, log);
    if Last(log).Stored? {
      StoredFollowsUsage(p, w, log);
      i := |log| - 1;
    } else {
      i := StoredIsSumOfUsage(p, w, log[..|log| - 1]);
    }
  }

  /** A claim succeeds only on an answer with content and without calls, within the cost limit. */
  lemma SucceedsOnlyOnAnswer(p: Params, w: World, log: Log)
    requires Legal(p, w, log) && log != [] && Last(log) == Ended(Done)
    ensures |log| >= 3 && log[|log| - 3].Usage? && log[|log| - 3].reply.calls == [] && !log[|log| - 3].reply.blank
    ensures Spent(log) <= p.maxCost && !w.evaluationRaises
  {
    hide Legal, Turns, Used, Children, Calls, Dispatches, Answer, Streak, CurrentTier, Cost, Pending;
    LegalFront(p, w, log);
  }

  // ----- The write that ends a claim -----

  /** What the loop and its handlers write to the row, given the row as last read. */
  function FinalWrite(reason: Reason, latest: Tasks.Task, retryAt: nat): Tasks.Write {
    match reason
    case Done => Tasks.MarkSucceeded
    case CancelSeen => Tasks.MarkCanceled
    case ProviderError(retryable) =>
      if latest.cancelRequested then Tasks.MarkCanceled
      else if retryable then Tasks.ReleaseWrite(latest, retryAt)
      else Tasks.MarkFailed
    case _ => if latest.cancelRequested then Tasks.MarkCanceled else Tasks.MarkFailed
  }

  lemma FinalStatus(reason: Reason, latest: Tasks.Task, retryAt: nat, row: Tasks.Task)
    ensures var after := Tasks.Written(row, FinalWrite(reason, latest, retryAt));
            && after.leaseOwner.None? && after.leaseExpires.None?
            && after.status !in {Tasks.Running, Tasks.WaitingApproval}
            && (after.status == Tasks.Succeeded <==> reason == Done)
            && (after.status == Tasks.Canceled <==> reason == CancelSeen || (reason != Done && latest.cancelRequested))
            && (after.status == Tasks.Queued <==> reason == ProviderError(true) && !latest.cancelRequested && latest.attempt < latest.maxAttempts)
            && (after.status == Tasks.DeadLetter <==> reason == ProviderError(true) && !latest.cancelRequested && latest.attempt >= latest.maxAttempts)
            && (after.status == Tasks.Queued ==> after.runAfter == retryAt)
  {
  }

  lemma EndIsNoTurn(log: Log)
    requires log != [] && !Last(log).Usage?
    ensures Turns(log) == Turns(log[..|log| - 1])
  {
  }

  /** The latest reply is a final answer: it has content and no calls, its cost is within the limit, and it was evaluated. */
  predicate Answers(p: Params, w: World, log: Log) {
    && JustStored(log) && log[|log| - 2].reply.calls == [] && !log[|log| - 2].reply.blank
    && Spent(log) <= p.maxCost && !w.evaluationRaises
  }

  /** The loop goes on to ask the provider for another turn. */
  ghost predicate AsksProvider(p: Params, w: World, log: Log) {
    && Settled(p, w, log) && Pending(log) == [] && (log == [] ==> w.agentExists && !w.overBudget(0))
    && Turns(log) < p.maxIterations && !w.views(Turns(log) + Calls(log)).cancelRequested && !w.overBudget(Turns(log) + 1)
  }

  lemma DoneIff(p: Params, w: World, log: Log)
    ensures Next(p, w, log) == Ended(Done) <==> Answers(p, w, log)
  {
    hide Turns, Used, Children, Calls, Dispatches, Answer, Streak, Cost, Pending, Spent, CurrentTier;
  }

  lemma ProviderErrorIff(p: Params, w: World, log: Log, retryable: bool)
    requires Legal(p, w, log)
    ensures Next(p, w, log) == Ended(ProviderError(retryable)) <==>
              AsksProvider(p, w, log) && w.provider(Turns(log) + 1) == ProviderFailed(retryable)
  {
    hide Legal, Turns, Used, Children, Dispatches, Answer, Streak, Cost, Spent, CurrentTier;
    if log != [] && Last(log).Handled? {
      assert Calls(log) > 0;
    }
  }

  /**
   * The write that ends any claim gives the lease back. The task succeeds exactly when the loop ended
   * on a final answer, and is queued again, or given up when no attempts are left, exactly when the
   * provider failed retryably at the next turn and nobody had asked to cancel. Otherwise it is canceled
   * if that was asked for, and failed if not.
   */
  lemma EndGivesLeaseBack(p: Params, w: World, log: Log, latest: Tasks.Task, retryAt: nat, row: Tasks.Task)
    requires Legal(p, w, log) && log != [] && Last(log).Ended?
    ensures var after, before := Tasks.Written(row, FinalWrite(Last(log).reason, latest, retryAt)), log[..|log| - 1];
            && after.leaseOwner.None? && after.leaseExpires.None?
            && after.status !in {Tasks.Running, Tasks.WaitingApproval}
            && (after.status == Tasks.Succeeded <==> Answers(p, w, before))
            && (after.status == Tasks.Canceled <==> !Answers(p, w, before) && (Last(log).reason == CancelSeen || latest.cancelRequested))
            && (after.status == Tasks.Queued <==>
                  && AsksProvider(p, w, before) && w.provider(Turns(log) + 1) == ProviderFailed(true)
                  && !latest.cancelRequested && latest.attempt < latest.maxAttempts)
            && (after.status == Tasks.DeadLetter <==>
                  && AsksProvider(p, w, before) && w.provider(Turns(log) + 1) == ProviderFailed(true)
                  && !latest.cancelRequested && latest.attempt >= latest.maxAttempts)
            && (after.status == Tasks.Queued ==> after.runAfter == retryAt)
  {
    hide Legal, Next, Answers, AsksProvider, Turns, FinalWrite, Tasks.Written;
    FinalStatus(Last(log).reason, latest, retryAt, row);
    EndIsNoTurn(log);
    LegalFront(p, w, log);
    DoneIff(p, w, log[..|log| - 1]);
    ProviderErrorIff(p, w, log[..|log| - 1], true);
  }
}
