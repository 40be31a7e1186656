/** The validator of workflow definitions: `_steps` and its nested depth-first `visit`. */
module WorkflowDefinition {
  import opened Wrappers
  import opened Text

  /** `depends_on` as parsed from JSON: a list of strings, or something else. */
  datatype RawDeps = NotStringList | Deps(ids: seq<string>)

  /** One entry of `definition["steps"]` as parsed from JSON. */
  datatype RawStep = NotAnObject | RawStep(id: string, agent: string, prompt: string, deps: RawDeps)

  datatype Step = Step(id: string, agent: string, prompt: string, deps: seq<string>)

  datatype StepError =
    | NoSteps
    | StepNotAnObject
    | BadId
    | MissingAgentOrPrompt(id: string)
    | BadDependsOn(id: string)
    | UnknownDependency(id: string)
    | DependencyCycle

  // ----- Dependency graphs -----

  /** Every step id with the ids it depends on. */
  type Graph = map<string, seq<string>>

  ghost predicate Closed(g: Graph) {
    forall s, d :: s in g && d in g[s] ==> d in g
  }

  /** A path that follows dependencies: each step depends on the next. */
  ghost predicate Walk(g: Graph, p: seq<string>) {
    && p != []
    && (forall i :: 0 <= i < |p| ==> p[i] in g)
    && (forall i :: 0 <= i < |p| - 1 ==> p[i + 1] in g[p[i]])
  }

  ghost predicate Cycle(g: Graph, p: seq<string>) {
    Walk(g, p) && |p| >= 2 && p[0] == p[|p| - 1]
  }

  ghost predicate Acyclic(g: Graph) {
    !exists p :: Cycle(g, p)
  }

  ghost predicate Distinct<T(!new)>(s: seq<T>) {
    forall i, j :: 0 <= i < j < |s| ==> s[i] != s[j]
  }

  /** Dependencies come before the steps that need them. */
  ghost predicate Topological(g: Graph, order: seq<string>) {
    && Distinct(order)
    && (forall i :: 0 <= i < |order| ==> order[i] in g)
    && (forall i, d :: 0 <= i < |order| && d in g[order[i]] ==> d in order[..i])
  }

  lemma ExtendTopological(g: Graph, order: seq<string>, s: string)
    requires Topological(g, order) && s in g && s !in order
    requires forall d :: d in g[s] ==> d in order
    ensures Topological(g, order + [s])
  {
    forall i, d | 0 <= i < |order| + 1 && d in g[(order + [s])[i]]
      ensures d in (order + [s])[..i]
    {
      assert (order + [s])[..i] == order[..i];
      if i == |order| {
        assert order[..i] == order;
      }
    }
  }

  /** A walk that starts inside a topological order descends in it. */
  lemma {:induction false} WalkDescends(g: Graph, order: seq<string>, p: seq<string>, i: nat) returns (j: nat)
    requires Topological(g, order) && Walk(g, p) && i < |order| && order[i] == p[0]
    ensures j <= i && order[j] == p[|p| - 1]
    ensures |p| >= 2 ==> j < i
  {
    if |p| == 1 {
      j := i;
    } else {
      assert p[1] in g[p[0]];
      assert p[1] in order[..i];
      var k :| 0 <= k < i && order[k] == p[1];
      var q := p[1..];
      assert Walk(g, q);
      j := WalkDescends(g, order, q, k);
    }
  }

  /** A topological order of all steps rules out every dependency cycle. */
  lemma TopologicalImpliesAcyclic(g: Graph, order: seq<string>)
    requires Topological(g, order) && forall s :: s in g ==> s in order
    ensures Acyclic(g)
  {
    forall p | Cycle(g, p)
      ensures false
    {
      var i :| 0 <= i < |order| && order[i] == p[0];
      var j := WalkDescends(g, order, p, i);
    }
  }

  // ----- Depth-first search -----

  /** The two sets `visit` shares with its recursive calls. */
  class DepthFirstCheck {
    var visiting: set<string>
    var visited: set<string>
    /** The order in which steps entered `visited`. */
    ghost var order: seq<string>

    ghost predicate Valid(g: Graph)
      reads this
    {
      && Topological(g, order)
      && (forall s :: s in visited <==> s in order)
      && visiting !! visited
      && visiting <= g.Keys
    }

    constructor ()
      ensures visiting == {} && visited == {} && order == []
    {
      visiting, visited, order := {}, {}, [];
    }

    /** `visit(sid)`: false stands for the raised cycle error. `stack` is the chain of calls in progress. */
    method Visit(g: Graph, sid: string, ghost stack: seq<string>) returns (ok: bool)
      requires Closed(g) && sid in g && Valid(g)
      requires Walk(g, stack + [sid]) && forall s :: s in visiting <==> s in stack
      modifies this
      ensures ok ==> Valid(g) && visiting == old(visiting) && old(order) <= order && sid in visited
      ensures !ok ==> exists p :: Cycle(g, p)
      decreases g.Keys - visiting - visited
    {
      if sid in visiting {
        ghost var i :| 0 <= i < |stack| && stack[i] == sid;
        ghost var p := (stack + [sid])[i..];
        assert Cycle(g, p) by {
          forall k | 0 <= k < |p| - 1
            ensures p[k + 1] in g[p[k]]
          {
            assert (stack + [sid])[i + k + 1] in g[(stack + [sid])[i + k]];
          }
        }
        return false;
      }
      if sid in visited {
        return true;
      }
      visiting := visiting + {sid};
      var deps := g[sid];
      for k := 0 to |deps|
        invariant Valid(g) && visiting == old(visiting) + {sid} && old(order) <= order
        invariant sid !in visited && old(visited) <= visited
        invariant forall m :: 0 <= m < k ==> deps[m] in visited
      {
        assert deps[k] in g[sid];
        assert Walk(g, (stack + [sid]) + [deps[k]]) by {
          forall m | 0 <= m < |stack| + 1
            ensures (stack + [sid] + [deps[k]])[m + 1] in g[(stack + [sid] + [deps[k]])[m]]
          {
            if m < |stack| {
              assert (stack + [sid])[m + 1] in g[(stack + [sid])[m]];
            }
          }
        }
        assert sid in g.Keys - old(visiting) - old(visited);
        ok := Visit(g, deps[k], stack + [sid]);
        if !ok {
          return;
        }
      }
      visiting := visiting - {sid};
      visited := visited + {sid};
      ExtendTopological(g, order, sid);
      order := order + [sid];
      assert visiting == old(visiting);
      ok := true;
    }
  }

  // ----- The validator -----

  predicate Blank(s: string) {
    Strip(s) == []
  }

  predicate WellFormed(raw: RawStep) {
    raw.RawStep? && !Blank(raw.id) && !Blank(raw.agent) && !Blank(raw.prompt) && raw.deps.Deps?
  }

  function Normalize(raw: RawStep): Step
    requires WellFormed(raw)
  {
    Step(Strip(raw.id), Strip(raw.agent), raw.prompt, raw.deps.ids)
  }

  function NormalizeAll(raws: seq<RawStep>): (steps: seq<Step>)
    requires forall i :: 0 <= i < |raws| ==> WellFormed(raws[i])
  {
    seq(|raws|, i requires 0 <= i < |raws| => Normalize(raws[i]))
  }

  predicate HasText(s: string) {
    exists i :: 0 <= i < |s| && !IsSpace(s[i])
  }

  lemma BlankIff(s: string)
    ensures Blank(s) <==> !HasText(s)
  {
    hide IsSpace;
    var a, b := StripPads(s);
    if Blank(s) {
      assert s == a + b;
    } else {
      assert s[|a|] == Strip(s)[0];
    }
  }

  /** An entry is in order exactly when it is an object with a text for each of id, agent and prompt, and a list of dependencies. */
  lemma EntryInOrder(raw: RawStep)
    ensures WellFormed(raw) <==> raw.RawStep? && HasText(raw.id) && HasText(raw.agent) && HasText(raw.prompt) && raw.deps.Deps?
  {
    hide HasText, Blank;
    if raw.RawStep? {
      BlankIff(raw.id);
      BlankIff(raw.agent);
      BlankIff(raw.prompt);
    }
  }

  /** Its step has the id and the agent without the white space around them, and the prompt as it is. */
  lemma EntryNormalized(raw: RawStep, a: string, id: string, b: string, c: string, agent: string, d: string)
    requires WellFormed(raw) && raw.id == a + id + b && raw.agent == c + agent + d
    requires AllSpace(a) && AllSpace(b) && AllSpace(c) && AllSpace(d) && Trimmed(id) && Trimmed(agent)
    ensures Normalize(raw) == Step(id, agent, raw.prompt, raw.deps.ids)
  {
    hide WellFormed, Strip;
    PaddedStrips(a, id, b);
    PaddedStrips(c, agent, d);
  }

  function IdSet(steps: seq<Step>): set<string> {
    set i | 0 <= i < |steps| :: steps[i].id
  }

  lemma IdSetAppend(steps: seq<Step>, last: Step)
    ensures IdSet(steps + [last]) == IdSet(steps) + {last.id}
  {
    var all := steps + [last];
    forall x | x in IdSet(steps) + {last.id}
      ensures x in IdSet(all)
    {
      if x == last.id {
        assert all[|steps|].id == x;
      } else {
        var i :| 0 <= i < |steps| && steps[i].id == x;
        assert all[i].id == x;
      }
    }
  }

  ghost predicate DistinctIds(steps: seq<Step>) {
    forall i, j :: 0 <= i < j < |steps| ==> steps[i].id != steps[j].id
  }

  ghost predicate DepsKnown(steps: seq<Step>) {
    forall i, d :: 0 <= i < |steps| && d in steps[i].deps ==> d in IdSet(steps)
  }

  /** `{x["id"]: x["depends_on"] for x in out}`. */
  function GraphOf(steps: seq<Step>): (g: Graph)
    ensures g.Keys == IdSet(steps)
  {
    if steps == [] then map[]
    else
      var last := steps[|steps| - 1];
      IdSetAppend(steps[..|steps| - 1], last);
      assert steps == steps[..|steps| - 1] + [last];
      GraphOf(steps[..|steps| - 1])[last.id := last.deps]
  }

  lemma {:induction false} GraphOfContents(steps: seq<Step>)
    requires DistinctIds(steps)
    ensures forall i :: 0 <= i < |steps| ==> steps[i].id in GraphOf(steps) && GraphOf(steps)[steps[i].id] == steps[i].deps
  {
    if steps != [] {
      GraphOfContents(steps[..|steps| - 1]);
    }
  }

  /** What a workflow definition must satisfy, stated without any search. */
  ghost predicate Parses(raws: seq<RawStep>) {
    (forall i :: 0 <= i < |raws| ==> WellFormed(raws[i])) && DistinctIds(NormalizeAll(raws))
  }

  ghost predicate Acceptable(raws: seq<RawStep>) {
    && raws != []
    && Parses(raws)
    && DepsKnown(NormalizeAll(raws))
    && Acyclic(GraphOf(NormalizeAll(raws)))
  }

  /** The checks on one entry, in the order the code makes them. */
  function EntryError(raw: RawStep, ids: set<string>): Option<StepError> {
    if raw.NotAnObject? then Some(StepNotAnObject)
    else if Blank(raw.id) || Strip(raw.id) in ids then Some(BadId)
    else if Blank(raw.agent) || Blank(raw.prompt) then Some(MissingAgentOrPrompt(Strip(raw.id)))
    else if raw.deps.NotStringList? then Some(BadDependsOn(Strip(raw.id)))
    else None
  }

  /** An entry of a definition that parses passes every check. */
  lemma AcceptedEntry(list: seq<RawStep>, i: nat)
    requires i < |list| && Parses(list)
    ensures Parses(list[..i]) && EntryError(list[i], IdSet(NormalizeAll(list[..i]))) == None
  {
    var all, prefix := NormalizeAll(list), NormalizeAll(list[..i]);
    assert WellFormed(list[i]);
    assert forall k :: 0 <= k < i ==> prefix[k] == all[k];
    assert all[i].id !in IdSet(prefix);
  }

  lemma ParsedEntry(list: seq<RawStep>, i: nat, out: seq<Step>, ids: set<string>)
    requires i < |list| && Parses(list[..i]) && out == NormalizeAll(list[..i]) && ids == IdSet(out)
    requires EntryError(list[i], ids) == None
    ensures WellFormed(list[i]) && Parses(list[..i + 1])
    ensures out + [Normalize(list[i])] == NormalizeAll(list[..i + 1])
    ensures ids + {Strip(list[i].id)} == IdSet(out + [Normalize(list[i])])
  {
    hide Strip;
    assert list[..i + 1] == list[..i] + [list[i]];
    var last := Normalize(list[i]);
    assert out + [last] == NormalizeAll(list[..i + 1]);
    IdSetAppend(out, last);
    hide WellFormed, NormalizeAll, EntryError;
    DistinctAppend(out, last);
  }

  lemma DistinctAppend(steps: seq<Step>, last: Step)
    requires DistinctIds(steps) && last.id !in IdSet(steps)
    ensures DistinctIds(steps + [last])
  {
    forall k | 0 <= k < |steps|
      ensures steps[k].id != last.id
    {
      assert steps[k].id in IdSet(steps);
    }
  }

  /** The first loop of `_steps`: read every entry, or stop at the first bad one. */
  method ParseSteps(list: seq<RawStep>) returns (r: Result<seq<Step>, StepError>)
    ensures r.Success? <==> Parses(list)
    ensures r.Success? ==> r.value == NormalizeAll(list)
    ensures r.Failure? ==> exists i :: && 0 <= i < |list| && Parses(list[..i])
                                       && EntryError(list[i], IdSet(NormalizeAll(list[..i]))) == Some(r.error)
  {
    var ids: set<string>, out: seq<Step> := {}, [];
    for i := 0 to |list|
      invariant Parses(list[..i]) && out == NormalizeAll(list[..i]) && ids == IdSet(out)
    {
      hide IdSet, Parses;
      var error := EntryError(list[i], ids);
      if error.Some? {
        if Parses(list) {
          AcceptedEntry(list, i);
        }
        return Failure(error.value);
      }
      ParsedEntry(list, i, out, ids);
      ids := ids + {Strip(list[i].id)};
      out := out + [Normalize(list[i])];
    }
    assert list[..|list|] == list;
    r := Success(out);
  }

  /** The second loop: the first step that depends on an id nobody declares. */
  method FindUnknownDependency(steps: seq<Step>) returns (r: Option<string>)
    ensures r.None? <==> DepsKnown(steps)
    ensures r.Some? ==> exists i, d :: 0 <= i < |steps| && steps[i].id == r.value && d in steps[i].deps && d !in IdSet(steps)
  {
    var ids := IdSet(steps);
    for i := 0 to |steps|
      invariant forall k, d :: 0 <= k < i && d in steps[k].deps ==> d in ids
    {
      var unknown := set d | d in steps[i].deps && d !in ids;
      if unknown != {} {
        ghost var d :| d in unknown;
        assert d in steps[i].deps;
        return Some(steps[i].id);
      }
      assert forall d :: d in steps[i].deps ==> d in ids || d in unknown;
    }
    r := None;
  }

  ghost predicate Orders(g: Graph, order: seq<string>) {
    Topological(g, order) && forall s :: s in g ==> s in order
  }

  lemma GraphOfClosed(steps: seq<Step>)
    requires DistinctIds(steps) && DepsKnown(steps)
    ensures Closed(GraphOf(steps))
  {
    GraphOfContents(steps);
    var g := GraphOf(steps);
    forall s, d | s in g && d in g[s]
      ensures d in g
    {
      var k :| 0 <= k < |steps| && steps[k].id == s;
    }
  }

  /** The last loop: visit every step, in declaration order. */
  method CheckAcyclic(steps: seq<Step>) returns (ok: bool)
    requires DistinctIds(steps) && DepsKnown(steps)
    ensures ok <==> Acyclic(GraphOf(steps))
    ensures ok ==> exists order :: Orders(GraphOf(steps), order)
  {
    var g := GraphOf(steps);
    GraphOfClosed(steps);
    var check := new DepthFirstCheck();
    for i := 0 to |steps|
      invariant check.Valid(g) && check.visiting == {}
      invariant forall k :: 0 <= k < i ==> steps[k].id in check.visited
    {
      assert steps[i].id in IdSet(steps);
      ok := check.Visit(g, steps[i].id, []);
      if !ok {
        return;
      }
    }
    assert Orders(g, check.order);
    TopologicalImpliesAcyclic(g, check.order);
    ok := true;
  }

  /** `_steps`: accepts exactly the acceptable definitions, and says which check failed. */
  method Steps(raws: Option<seq<RawStep>>) returns (r: Result<seq<Step>, StepError>)
    ensures r.Success? <==> raws.Some? && Acceptable(raws.value)
    ensures r.Success? ==> r.value == NormalizeAll(raws.value)
    ensures r.Success? ==> exists order :: Orders(GraphOf(r.value), order)
    ensures r == Failure(NoSteps) <==> raws.None? || raws.value == []
    ensures r == Failure(DependencyCycle) <==>
            && raws.Some? && raws.value != [] && Parses(raws.value) && DepsKnown(NormalizeAll(raws.value))
            && exists p :: Cycle(GraphOf(NormalizeAll(raws.value)), p)
    ensures r.Failure? && r.error.UnknownDependency? ==>
              && Parses(raws.value)
              && exists i, d :: && 0 <= i < |raws.value| && NormalizeAll(raws.value)[i].id == r.error.id
                                && d in NormalizeAll(raws.value)[i].deps && d !in IdSet(NormalizeAll(raws.value))
    ensures r.Failure? && !r.error.NoSteps? && !r.error.UnknownDependency? && !r.error.DependencyCycle? ==>
              exists i :: && 0 <= i < |raws.value| && Parses(raws.value[..i])
                          && EntryError(raws.value[i], IdSet(NormalizeAll(raws.value[..i]))) == Some(r.error)
  {
    if raws.None? || raws.value == [] {
      return Failure(NoSteps);
    }
    var out :- ParseSteps(raws.value);
    var unknown := FindUnknownDependency(out);
    if unknown.Some? {
      return Failure(UnknownDependency(unknown.value));
    }
    var ok := CheckAcyclic(out);
    r := if ok then Success(out) else Failure(DependencyCycle);
  }

  // ----- Stored definitions -----

  /** A validated step as it is stored and read back. */
  function Stored(steps: seq<Step>): seq<RawStep> {
    seq(|steps|, i requires 0 <= i < |steps| => RawStep(steps[i].id, steps[i].agent, steps[i].prompt, Deps(steps[i].deps)))
  }

  lemma StripTwice(s: string)
    ensures Strip(Strip(s)) == Strip(s)
  {
  }

  /** `start` validates the stored definition again: it is accepted and reads back as the same steps. */
  lemma StoredDefinitionIsAccepted(raws: seq<RawStep>)
    requires Acceptable(raws)
    ensures Acceptable(Stored(NormalizeAll(raws)))
    ensures NormalizeAll(Stored(NormalizeAll(raws))) == NormalizeAll(raws)
  {
    hide Acyclic, Strip;
    var steps := NormalizeAll(raws);
    forall i | 0 <= i < |steps|
      ensures WellFormed(Stored(steps)[i]) && Normalize(Stored(steps)[i]) == steps[i]
    {
      StripTwice(raws[i].id);
      StripTwice(raws[i].agent);
      assert steps[i] == Normalize(raws[i]);
    }
    assert NormalizeAll(Stored(steps)) == steps;
  }
}
