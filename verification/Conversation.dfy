/** Chat sessions: eviction one message at a time, and the context window of a token budget. */
module Conversation {
  import opened Wrappers

  datatype Role = User | Assistant | System

  datatype Message = Message(role: Role, content: string)

  type Messages = seq<Message>

  predicate Other(m: Message) {
    m.role != System
  }

  // ----- The offline formula -----

  function Systems(ms: Messages): nat {
    if ms == [] then 0 else Systems(ms[..|ms| - 1]) + if Other(ms[|ms| - 1]) then 0 else 1
  }

  /** In order, the last `s` system messages and the last `o` others. */
  function KeepLast(ms: Messages, s: int, o: int): Messages {
    if ms == [] then []
    else
      var front, last := ms[..|ms| - 1], ms[|ms| - 1];
      if Other(last) then
        if o > 0 then KeepLast(front, s, o - 1) + [last] else KeepLast(front, s, o)
      else
        if s > 0 then KeepLast(front, s - 1, o) + [last] else KeepLast(front, s, o)
  }

  /** What a session of limit `m` holds of all messages added: every system message if they fit, and the latest others in what room is left. */
  function Kept(all: Messages, m: nat): Messages {
    if Systems(all) <= m then KeepLast(all, Systems(all), m - Systems(all)) else KeepLast(all, m, 0)
  }

  // ----- Eviction -----

  /** The first message that is not a system message, or the length. */
  function FirstOther(ms: Messages): (i: nat)
    ensures i <= |ms| && (i < |ms| ==> Other(ms[i]))
    ensures forall k :: 0 <= k < i ==> !Other(ms[k])
  {
    if ms == [] || Other(ms[0]) then 0 else 1 + FirstOther(ms[1..])
  }

  lemma FirstOtherIs(ms: Messages, i: nat)
    requires i <= |ms| && (forall k :: 0 <= k < i ==> !Other(ms[k])) && (i < |ms| ==> Other(ms[i]))
    ensures FirstOther(ms) == i
  {
  }

  /** `pop(idx)` of the first message that is not a system message, or of the first message. */
  function EvictOne(ms: Messages): Messages
    requires ms != []
  {
    var i := FirstOther(ms);
    if i < |ms| then ms[..i] + ms[i + 1..] else ms[1..]
  }

  function Enforce(ms: Messages, m: nat): Messages
    decreases |ms|
  {
    if |ms| <= m then ms else Enforce(EvictOne(ms), m)
  }

  lemma NothingToEvict(ms: Messages, m: nat)
    requires |ms| <= m
    ensures Enforce(ms, m) == ms
  {
  }

  /** Popping the message found keeps what enforcing the limit ends in. */
  lemma EvictAt(ms: Messages, m: nat, i: nat)
    requires |ms| > m && i <= |ms| && (forall k :: 0 <= k < i ==> !Other(ms[k])) && (i < |ms| ==> Other(ms[i]))
    ensures var rest := if i < |ms| then ms[..i] + ms[i + 1..] else ms[1..];
            Enforce(ms, m) == Enforce(rest, m) && |rest| < |ms|
  {
    FirstOtherIs(ms, i);
    hide FirstOther;
    assert EvictOne(ms) == if i < |ms| then ms[..i] + ms[i + 1..] else ms[1..];
  }

  // ----- Eviction is the formula -----

  lemma Front(ms: Messages, x: Message)
    ensures (ms + [x])[..|ms + [x]| - 1] == ms && (ms + [x])[|ms + [x]| - 1] == x
  {
  }

  lemma {:induction false} SystemsWithin(ms: Messages)
    ensures Systems(ms) <= |ms|
  {
    if ms != [] {
      SystemsWithin(ms[..|ms| - 1]);
    }
  }

  lemma NothingKept(s: nat, o: nat)
    ensures KeepLast([], s, o) == [] && Systems([]) == 0
  {
  }

  /** What a last message adds to the formula. */
  lemma LastOther(front: Messages, last: Message, s: nat, o: nat)
    requires Other(last)
    ensures Systems(front + [last]) == Systems(front)
    ensures KeepLast(front + [last], s, o) == if o > 0 then KeepLast(front, s, o - 1) + [last] else KeepLast(front, s, 0)
  {
    Front(front, last);
  }

  lemma LastSystem(front: Messages, last: Message, s: nat, o: nat)
    requires !Other(last)
    ensures Systems(front + [last]) == Systems(front) + 1
    ensures KeepLast(front + [last], s, o) == if s > 0 then KeepLast(front, s - 1, o) + [last] else KeepLast(front, 0, o)
  {
    Front(front, last);
  }

  lemma {:induction false} KeepLastLength(ms: Messages, s: nat, o: nat)
    requires s <= Systems(ms) && o <= |ms| - Systems(ms)
    ensures |KeepLast(ms, s, o)| == s + o && Systems(KeepLast(ms, s, o)) == s
  {
    hide *;
    if ms == [] {
      NothingKept(s, o);
    } else {
      var front, last := ms[..|ms| - 1], ms[|ms| - 1];
      assert ms == front + [last];
      SystemsWithin(front);
      if Other(last) {
        LastOther(front, last, s, o);
        if o > 0 {
          KeepLastLength(front, s, o - 1);
          LastOther(KeepLast(front, s, o - 1), last, 0, 0);
        } else {
          KeepLastLength(front, s, 0);
        }
      } else {
        LastSystem(front, last, s, o);
        if s > 0 {
          KeepLastLength(front, s - 1, o);
          LastSystem(KeepLast(front, s - 1, o), last, 0, 0);
        } else {
          KeepLastLength(front, 0, o);
        }
      }
    }
  }

  lemma {:induction false} KeepAll(ms: Messages, s: nat, o: nat)
    requires Systems(ms) <= s && |ms| - Systems(ms) <= o
    ensures KeepLast(ms, s, o) == ms
  {
    hide *;
    if ms == [] {
      NothingKept(s, o);
    } else {
      var front, last := ms[..|ms| - 1], ms[|ms| - 1];
      assert ms == front + [last];
      SystemsWithin(front);
      if Other(last) {
        LastOther(front, last, s, o);
        KeepAll(front, s, o - 1);
      } else {
        LastSystem(front, last, s, o);
        KeepAll(front, s - 1, o);
      }
    }
  }

  lemma {:induction false} AllSystemNoOther(ms: Messages)
    requires Systems(ms) == |ms|
    ensures FirstOther(ms) == |ms|
  {
    if ms != [] {
      var front := ms[..|ms| - 1];
      SystemsWithin(front);
      AllSystemNoOther(front);
      forall k | 0 <= k < |ms|
        ensures !Other(ms[k])
      {
        assert k < |front| ==> ms[k] == front[k];
      }
    }
  }

  lemma {:induction false} SomeOther(ms: Messages)
    requires Systems(ms) < |ms|
    ensures FirstOther(ms) < |ms|
  {
    var front := ms[..|ms| - 1];
    if Systems(front) < |front| {
      SomeOther(front);
      assert ms[FirstOther(front)] == front[FirstOther(front)];
    } else {
      SystemsWithin(front);
    }
  }

  /** With an other message among the first ones, evicting ignores what comes last. */
  lemma EvictInFront(ms: Messages, x: Message)
    requires Systems(ms) < |ms|
    ensures EvictOne(ms + [x]) == EvictOne(ms) + [x]
  {
    hide FirstOther, Systems;
    SomeOther(ms);
    var i := FirstOther(ms);
    forall k | 0 <= k < i
      ensures !Other((ms + [x])[k])
    {
      assert (ms + [x])[k] == ms[k];
    }
    FirstOtherIs(ms + [x], i);
    assert (ms + [x])[..i] + (ms + [x])[i + 1..] == ms[..i] + ms[i + 1..] + [x];
  }

  /** The step from `front` to `front + [last]` in the proof of `EvictOther`. */
  lemma EvictOtherStep(front: Messages, last: Message, s: nat, o: nat)
    requires s == Systems(front) && 0 < o <= |front| - s && EvictOne(KeepLast(front, s, o)) == KeepLast(front, s, o - 1)
    ensures EvictOne(KeepLast(front, s, o) + [last]) == KeepLast(front, s, o - 1) + [last]
  {
    hide EvictOne, KeepLast;
    KeepLastLength(front, s, o);
    EvictInFront(KeepLast(front, s, o), last);
  }

  lemma EvictOnlyOther(front: Messages, last: Message, s: nat)
    requires s == Systems(front) && Other(last)
    ensures EvictOne(KeepLast(front, s, 0) + [last]) == KeepLast(front, s, 0)
  {
    hide EvictOne, KeepLast;
    SystemsWithin(front);
    KeepLastLength(front, s, 0);
    EvictLast(KeepLast(front, s, 0), last);
  }

  /** Evicting when others are held: the oldest other goes. */
  lemma {:induction false} EvictOther(ms: Messages, s: nat, o: nat)
    requires s == Systems(ms) && 0 < o <= |ms| - Systems(ms)
    ensures KeepLast(ms, s, o) != [] && EvictOne(KeepLast(ms, s, o)) == KeepLast(ms, s, o - 1)
  {
    hide *;
    SystemsWithin(ms);
    var front, last := ms[..|ms| - 1], ms[|ms| - 1];
    assert ms == front + [last];
    SystemsWithin(front);
    if Other(last) {
      LastOther(front, last, s, o);
      LastOther(front, last, s, o - 1);
      if o == 1 {
        EvictOnlyOther(front, last, s);
      } else {
        EvictOther(front, s, o - 1);
        EvictOtherStep(front, last, s, o - 1);
      }
    } else {
      LastSystem(front, last, s, o);
      LastSystem(front, last, s, o - 1);
      EvictOther(front, s - 1, o);
      EvictOtherStep(front, last, s - 1, o);
    }
  }

  lemma EvictLast(ms: Messages, x: Message)
    requires Systems(ms) == |ms| && Other(x)
    ensures EvictOne(ms + [x]) == ms
  {
    AllSystemNoOther(ms);
    forall k | 0 <= k < |ms|
      ensures !Other((ms + [x])[k])
    {
      assert (ms + [x])[k] == ms[k];
    }
    FirstOtherIs(ms + [x], |ms|);
  }

  /** Keeping one system message less, when only those are kept. */
  lemma {:induction false} OneSystemLess(ms: Messages, s: nat)
    requires 0 < s <= Systems(ms)
    ensures KeepLast(ms, s, 0) != [] && KeepLast(ms, s - 1, 0) == KeepLast(ms, s, 0)[1..]
  {
    var front, last := ms[..|ms| - 1], ms[|ms| - 1];
    SystemsWithin(ms);
    SystemsWithin(front);
    KeepLastLength(ms, s, 0);
    if Other(last) {
      OneSystemLess(front, s);
    } else if s > 1 {
      KeepLastLength(front, s - 1, 0);
      OneSystemLess(front, s - 1);
    } else {
      KeepLastLength(front, 0, 0);
    }
  }

  lemma EvictSystem(ms: Messages, x: Message)
    requires Systems(ms) == |ms| && !Other(x)
    ensures EvictOne(ms + [x]) == (ms + [x])[1..]
  {
    AllSystemNoOther(ms);
    Front(ms, x);
    AllSystemNoOther(ms + [x]);
  }

  lemma KeptLength(all: Messages, m: nat)
    ensures |Kept(all, m)| == if |all| <= m then |all| else m
    ensures |all| <= m ==> Kept(all, m) == all
    ensures |all| >= m ==> Systems(Kept(all, m)) == if Systems(all) <= m then Systems(all) else m
  {
    SystemsWithin(all);
    if |all| <= m {
      KeepAll(all, Systems(all), m - Systems(all));
    } else if Systems(all) <= m {
      KeepLastLength(all, Systems(all), m - Systems(all));
    } else {
      KeepLastLength(all, m, 0);
    }
  }

  /** One message more: appending it and evicting is what the formula says of the longer list. */
  lemma EvictionFollowsFormula(all: Messages, x: Message, m: nat)
    requires m >= 1
    ensures Enforce(Kept(all, m) + [x], m) == Kept(all + [x], m)
  {
    hide KeepLast, Systems, EvictOne;
    KeptLength(all, m);
    KeptLength(all + [x], m);
    if |all| >= m {
      EvictOnce(all, x, m);
      assert Enforce(Kept(all, m) + [x], m) == Enforce(EvictOne(Kept(all, m) + [x]), m);
    }
  }

  lemma EvictOnce(all: Messages, x: Message, m: nat)
    requires m >= 1 && |all| >= m
    ensures EvictOne(Kept(all, m) + [x]) == Kept(all + [x], m)
  {
    hide EvictOne, KeepLast, Kept;
    if Systems(all) < m {
      EvictOtherFirst(all, x, m);
    } else {
      EvictAmongSystems(all, x, m);
    }
  }

  lemma NextMessage(all: Messages, x: Message, s: int, o: int)
    ensures Systems(all + [x]) == Systems(all) + if Other(x) then 0 else 1
    ensures KeepLast(all + [x], s, o) ==
            if Other(x) then (if o > 0 then KeepLast(all, s, o - 1) + [x] else KeepLast(all, s, o))
            else (if s > 0 then KeepLast(all, s - 1, o) + [x] else KeepLast(all, s, o))
  {
    Front(all, x);
  }

  lemma KeptAmongSystems(all: Messages, m: nat)
    requires m <= Systems(all)
    ensures Kept(all, m) == KeepLast(all, m, 0)
  {
  }

  lemma EvictOtherFirst(all: Messages, x: Message, m: nat)
    requires Systems(all) < m <= |all|
    ensures EvictOne(Kept(all, m) + [x]) == Kept(all + [x], m)
  {
    hide EvictOne, KeepLast, Systems, FirstOther, Kept, Other;
    var s := Systems(all);
    var o := m - s;
    KeptWithOthers(all, m);
    EvictOther(all, s, o);
    KeepLastLength(all, s, o);
    EvictInFront(KeepLast(all, s, o), x);
    var after := KeepLast(all, s, o - 1) + [x];
    assert EvictOne(Kept(all, m) + [x]) == after;
    if Other(x) {
      NextMessage(all, x, s, o);
      KeptWithOthers(all + [x], m);
    } else {
      NextMessage(all, x, s + 1, o - 1);
      KeptWithOthers(all + [x], m);
    }
  }

  lemma KeptWithOthers(all: Messages, m: nat)
    requires Systems(all) <= m
    ensures Kept(all, m) == KeepLast(all, Systems(all), m - Systems(all))
  {
  }

  lemma EvictAmongSystems(all: Messages, x: Message, m: nat)
    requires 1 <= m <= Systems(all)
    ensures EvictOne(Kept(all, m) + [x]) == Kept(all + [x], m)
  {
    hide EvictOne, KeepLast, Systems;
    SystemsWithin(all);
    NextMessage(all, x, m, 0);
    KeepLastLength(all, m, 0);
    KeptAmongSystems(all, m);
    if Other(x) {
      EvictLast(Kept(all, m), x);
    } else {
      OneSystemLess(all, m);
      EvictSystem(Kept(all, m), x);
    }
  }

  // ----- The session -----

  class Session {
    const maxHistory: nat
    var messages: Messages
    /** Everything added since the last clear. */
    ghost var all: Messages

    ghost predicate Valid()
      reads this
    {
      maxHistory >= 1 && messages == Kept(all, maxHistory)
    }

    constructor (limit: nat)
      requires limit >= 1
      ensures Valid() && maxHistory == limit && all == []
    {
      maxHistory := limit;
      messages := [];
      all := [];
    }

    method Clear()
      requires Valid()
      modifies this
      ensures Valid() && all == []
    {
      messages := [];
      all := [];
    }

    /** `add_message`: after it the session is what the formula keeps of all messages since the last clear. */
    method AddMessage(x: Message)
      requires Valid()
      modifies this
      ensures Valid() && all == old(all) + [x]
    {
      EvictionFollowsFormula(all, x, maxHistory);
      all := all + [x];
      messages := messages + [x];
      EnforceLimit();
    }

    /** `_enforce_limit`. */
    method EnforceLimit()
      modifies this`messages
      ensures messages == Enforce(old(messages), maxHistory)
    {
      hide Enforce, EvictOne, FirstOther;
      while |messages| > maxHistory
        invariant Enforce(messages, maxHistory) == Enforce(old(messages), maxHistory)
        decreases |messages|
      {
        var i := 0;
        while i < |messages| && !Other(messages[i])
          invariant 0 <= i <= |messages|
          modifies {}
          invariant forall k :: 0 <= k < i ==> !Other(messages[k])
        {
          i := i + 1;
        }
        EvictAt(messages, maxHistory, i);
        messages := if i < |messages| then messages[..i] + messages[i + 1..] else messages[1..];
      }
      NothingToEvict(messages, maxHistory);
    }
  }

  // ----- The context window -----

  function Filter(ms: Messages, others: bool): Messages {
    if ms == [] then [] else Filter(ms[..|ms| - 1], others) + if Other(ms[|ms| - 1]) == others then [ms[|ms| - 1]] else []
  }

  function Sum(ms: Messages, cost: string -> nat): nat {
    if ms == [] then 0 else Sum(ms[..|ms| - 1], cost) + cost(ms[|ms| - 1].content)
  }

  /** System messages in order, each taken if what is left of the budget allows it. */
  function TakeSystems(ms: Messages, cost: string -> nat, budget: nat): Messages {
    if ms == [] then []
    else
      var front, last := TakeSystems(ms[..|ms| - 1], cost, budget), ms[|ms| - 1];
      if Sum(front, cost) + cost(last.content) <= budget then front + [last] else front
  }

  method Partition(messages: Messages) returns (system: Messages, other: Messages)
    ensures system == Filter(messages, false) && other == Filter(messages, true)
  {
    system, other := [], [];
    var i := 0;
    while i < |messages|
      invariant 0 <= i <= |messages|
      invariant system == Filter(messages[..i], false) && other == Filter(messages[..i], true)
    {
      assert messages[..i + 1][..i] == messages[..i];
      if Other(messages[i]) {
        other := other + [messages[i]];
      } else {
        system := system + [messages[i]];
      }
      i := i + 1;
    }
    assert messages[..i] == messages;
  }

  method SelectSystems(system: Messages, maxTokens: nat, cost: string -> nat) returns (selected: Messages, budget: nat)
    ensures selected == TakeSystems(system, cost, maxTokens) && budget == maxTokens - Sum(selected, cost)
  {
    selected, budget := [], maxTokens;
    var i := 0;
    while i < |system|
      invariant 0 <= i <= |system|
      invariant selected == TakeSystems(system[..i], cost, maxTokens) && budget == maxTokens - Sum(selected, cost)
    {
      assert system[..i + 1][..i] == system[..i];
      var c := cost(system[i].content);
      if c <= budget {
        Front(selected, system[i]);
        selected := selected + [system[i]];
        budget := budget - c;
      }
      i := i + 1;
    }
    assert system[..i] == system;
  }

  method SelectLatest(other: Messages, budget: nat, cost: string -> nat) returns (start: nat)
    ensures start <= |other| && Sum(other[start..], cost) <= budget
    ensures forall k :: 0 <= k < start ==> Sum(other[k..], cost) > budget
  {
    start := |other|;
    var left: nat := budget;
    assert other[start..] == [];
    while start > 0 && cost(other[start - 1].content) <= left
      invariant 0 <= start <= |other| && left == budget - Sum(other[start..], cost)
    {
      SumOneMore(other, start - 1, cost);
      start := start - 1;
      left := left - cost(other[start].content);
    }
    if start > 0 {
      NothingOlderFits(other, start, cost, budget);
    }
  }

  /** The system messages the budget allows and the longest run of latest other messages that fits in the rest. */
  ghost predicate FillsBudget(messages: Messages, maxTokens: nat, cost: string -> nat, window: Messages, start: nat) {
    var systems, others := TakeSystems(Filter(messages, false), cost, maxTokens), Filter(messages, true);
    && start <= |others| && window == systems + others[start..]
    && Sum(window, cost) <= maxTokens
    && forall k :: 0 <= k < start ==> Sum(systems, cost) + Sum(others[k..], cost) > maxTokens
  }

  /** `get_context_window`; it raises for a budget below one token. */
  method ContextWindow(messages: Messages, maxTokens: int, cost: string -> nat) returns (window: Option<Messages>)
    ensures window.None? <==> maxTokens < 1
    ensures window.Some? ==> exists start: nat :: FillsBudget(messages, maxTokens, cost, window.value, start)
  {
    hide Filter, TakeSystems, Sum;
    if maxTokens < 1 {
      return None;
    }
    var system, other := Partition(messages);
    var selected, budget := SelectSystems(system, maxTokens, cost);
    var from := SelectLatest(other, budget, cost);
    SumOfBoth(selected, other[from..], cost);
    assert FillsBudget(messages, maxTokens, cost, selected + other[from..], from);
    window := Some(selected + other[from..]);
  }

  /** A system message is left out only when those taken before it leave too little; what is taken always fits. */
  lemma {:induction false} SystemsTakenFit(ms: Messages, cost: string -> nat, budget: nat)
    ensures Sum(TakeSystems(ms, cost, budget), cost) <= budget
    ensures Sum(ms, cost) <= budget ==> TakeSystems(ms, cost, budget) == ms
  {
    if ms != [] {
      var front := ms[..|ms| - 1];
      assert ms == front + [ms[|ms| - 1]];
      SystemsTakenFit(front, cost, budget);
      Front(TakeSystems(front, cost, budget), ms[|ms| - 1]);
    }
  }

  lemma {:induction false} SumOfBoth(a: Messages, b: Messages, cost: string -> nat)
    ensures Sum(a + b, cost) == Sum(a, cost) + Sum(b, cost)
  {
    if b == [] {
      assert a + b == a;
    } else {
      SumOfBoth(a, b[..|b| - 1], cost);
      assert (a + b)[..|a + b| - 1] == a + b[..|b| - 1];
    }
  }

  lemma SumOneMore(ms: Messages, j: nat, cost: string -> nat)
    requires j < |ms|
    ensures Sum(ms[j..], cost) == cost(ms[j].content) + Sum(ms[j + 1..], cost)
  {
    assert ms[j..] == [ms[j]] + ms[j + 1..];
    SumOfBoth([ms[j]], ms[j + 1..], cost);
    assert [ms[j]][..0] == [];
  }

  lemma NothingOlderFits(ms: Messages, j: nat, cost: string -> nat, budget: nat)
    requires 0 < j <= |ms| && Sum(ms[j..], cost) <= budget < cost(ms[j - 1].content) + Sum(ms[j..], cost)
    ensures forall k :: 0 <= k < j ==> Sum(ms[k..], cost) > budget
  {
    forall k | 0 <= k < j
      ensures Sum(ms[k..], cost) > budget
    {
      assert ms[k..] == ms[k..j - 1] + ms[j - 1..];
      SumOfBoth(ms[k..j - 1], ms[j - 1..], cost);
      SumOneMore(ms, j - 1, cost);
    }
  }
}
