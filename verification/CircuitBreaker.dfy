/** The circuit breaker of one provider, and what it is as a function of its trace. */
module CircuitBreaker {
  import opened Wrappers

  datatype State = Closed | Open | HalfOpen

  datatype Config = Config(failureThreshold: nat, recoveryTimeout: real, successThreshold: nat)

  predicate ValidConfig(c: Config) {
    c.failureThreshold >= 1 && c.recoveryTimeout > 0.0 && c.successThreshold >= 1
  }

  /** The fields of `_ProviderCircuit` that decide anything or are reported. */
  datatype Circuit = Circuit(
    state: State, failures: nat, successes: nat, totalSuccesses: nat, totalFailures: nat,
    lastFailure: Option<real>, openedAt: Option<real>)

  const NEW := Circuit(Closed, 0, 0, 0, 0, None, None)

  /** `_maybe_transition_to_half_open`. */
  function Awake(c: Config, s: Circuit, now: real): Circuit {
    if s.state == Open && s.openedAt.Some? && now - s.openedAt.value >= c.recoveryTimeout then s.(state := HalfOpen, successes := 0) else s
  }

  function Opened(s: Circuit, now: real): Circuit {
    s.(state := Open, openedAt := Some(now), successes := 0)
  }

  datatype Event = Success(now: real) | Failure(now: real) | Query(now: real) | Reset(now: real)

  function Step(c: Config, s: Circuit, e: Event): Circuit {
    match e
    case Success(now) =>
      var a := Awake(c, s, now);
      var b := a.(totalSuccesses := a.totalSuccesses + 1, failures := 0, successes := a.successes + 1);
      if b.state == HalfOpen && b.successes >= c.successThreshold then b.(state := Closed, openedAt := None) else b
    case Failure(now) =>
      var a := Awake(c, s, now);
      var b := a.(totalFailures := a.totalFailures + 1, failures := a.failures + 1, successes := 0, lastFailure := Some(now));
      if b.state == HalfOpen || (b.state == Closed && b.failures >= c.failureThreshold) then Opened(b, now) else b
    case Query(now) => Awake(c, s, now)
    case Reset(_) => s.(state := Closed, failures := 0, successes := 0, openedAt := None)
  }

  function Run(c: Config, es: seq<Event>): Circuit {
    if es == [] then NEW else Step(c, Run(c, es[..|es| - 1]), es[|es| - 1])
  }

  /** What `get_state` answers at a time; `is_healthy` says whether it is not `Open`. */
  function StateAt(c: Config, es: seq<Event>, now: real): State {
    Awake(c, Run(c, es), now).state
  }

  ghost predicate Chronological(es: seq<Event>) {
    forall i, j :: 0 <= i < j < |es| ==> es[i].now <= es[j].now
  }

  ghost predicate Until(es: seq<Event>, now: real) {
    Chronological(es) && forall e :: e in es ==> e.now <= now
  }

  // ----- The object -----

  class Breaker {
    const config: Config
    var state: State
    var failures: nat
    var successes: nat
    var totalSuccesses: nat
    var totalFailures: nat
    var lastFailure: Option<real>
    var openedAt: Option<real>

    function Snapshot(): Circuit
      reads this
    {
      Circuit(state, failures, successes, totalSuccesses, totalFailures, lastFailure, openedAt)
    }

    constructor (c: Config)
      ensures Snapshot() == NEW && config == c
    {
      config := c;
      state, failures, successes, totalSuccesses, totalFailures := Closed, 0, 0, 0, 0;
      lastFailure, openedAt := None, None;
    }

    method MaybeTransitionToHalfOpen(now: real)
      modifies this`state, this`successes
      ensures Snapshot() == Awake(config, old(Snapshot()), now)
    {
      if state != Open || openedAt.None? {
        return;
      }
      if now - openedAt.value >= config.recoveryTimeout {
        state := HalfOpen;
        successes := 0;
      }
    }

    method OpenCircuit(now: real)
      modifies this`state, this`openedAt, this`successes
      ensures Snapshot() == Opened(old(Snapshot()), now)
    {
      state := Open;
      openedAt := Some(now);
      successes := 0;
    }

    method RecordSuccess(now: real)
      modifies this
      ensures Snapshot() == Step(config, old(Snapshot()), Event.Success(now))
    {
      MaybeTransitionToHalfOpen(now);
      totalSuccesses := totalSuccesses + 1;
      failures := 0;
      successes := successes + 1;
      if state == HalfOpen && successes >= config.successThreshold {
        state := Closed;
        openedAt := None;
      }
    }

    method RecordFailure(now: real)
      modifies this
      ensures Snapshot() == Step(config, old(Snapshot()), Event.Failure(now))
    {
      MaybeTransitionToHalfOpen(now);
      totalFailures := totalFailures + 1;
      failures := failures + 1;
      successes := 0;
      lastFailure := Some(now);
      if state == HalfOpen {
        OpenCircuit(now);
      } else if state == Closed && failures >= config.failureThreshold {
        OpenCircuit(now);
      }
    }

    /** `is_healthy`, a query that may move the circuit. */
    method IsHealthy(now: real) returns (healthy: bool)
      modifies this
      ensures Snapshot() == Step(config, old(Snapshot()), Query(now))
      ensures healthy == (Awake(config, old(Snapshot()), now).state != Open)
    {
      MaybeTransitionToHalfOpen(now);
      healthy := state != Open;
    }

    method GetState(now: real) returns (s: State)
      modifies this
      ensures Snapshot() == Step(config, old(Snapshot()), Query(now))
      ensures s == Awake(config, old(Snapshot()), now).state
    {
      MaybeTransitionToHalfOpen(now);
      s := state;
    }

    method ForceReset(ghost now: real)
      modifies this
      ensures Snapshot() == Step(config, old(Snapshot()), Reset(now))
    {
      state, failures, successes, openedAt := Closed, 0, 0, None;
    }
  }

  // ----- Queries change nothing -----

  function WithoutQueries(es: seq<Event>): seq<Event> {
    if es == [] then []
    else if es[|es| - 1].Query? then WithoutQueries(es[..|es| - 1])
    else WithoutQueries(es[..|es| - 1]) + [es[|es| - 1]]
  }

  lemma UntilFront(es: seq<Event>, now: real)
    requires Until(es, now) && es != []
    ensures Until(es[..|es| - 1], es[|es| - 1].now) && es[|es| - 1].now <= now
    ensures Chronological(es[..|es| - 1])
    ensures |es| > 1 ==> es[|es| - 2].now <= es[|es| - 1].now
  {
    var front, last := es[..|es| - 1], es[|es| - 1];
    forall e | e in front
      ensures e.now <= last.now
    {
      var i :| 0 <= i < |front| && front[i] == e;
      assert es[i] == e;
    }
  }

  /** Waking up earlier makes no difference to waking up later. */
  lemma AwakeTwice(c: Config, s: Circuit, earlier: real, now: real)
    requires earlier <= now
    ensures Awake(c, Awake(c, s, earlier), now) == Awake(c, s, now)
  {
  }

  lemma SameAfterStep(c: Config, s: Circuit, t: Circuit, e: Event, now: real)
    requires Awake(c, s, e.now) == Awake(c, t, e.now) && e.now <= now
    ensures Awake(c, Step(c, s, e), now) == Awake(c, Step(c, t, e), now)
  {
    if e.Query? {
      AwakeTwice(c, s, e.now, now);
      AwakeTwice(c, t, e.now, now);
    }
  }

  /** However often `is_healthy` and `get_state` were called, the circuit wakes up to the same fields at any later time. */
  lemma {:induction false} QueriesAreInvisible(c: Config, es: seq<Event>, now: real)
    requires Until(es, now)
    ensures Awake(c, Run(c, es), now) == Awake(c, Run(c, WithoutQueries(es)), now)
  {
    hide Step, Awake, Until, Chronological;
    if es != [] {
      var front, last := es[..|es| - 1], es[|es| - 1];
      UntilFront(es, now);
      QueriesAreInvisible(c, front, last.now);
      if last.Query? {
        QueryIsAwake(c, Run(c, front), last, now);
        AwakeTwice(c, Run(c, WithoutQueries(front)), last.now, now);
      } else {
        var fewer := WithoutQueries(front) + [last];
        assert fewer[..|fewer| - 1] == WithoutQueries(front);
        SameAfterStep(c, Run(c, front), Run(c, WithoutQueries(front)), last, now);
      }
    }
  }

  lemma QueryIsAwake(c: Config, s: Circuit, e: Event, now: real)
    requires e.Query? && e.now <= now
    ensures Awake(c, Step(c, s, e), now) == Awake(c, Awake(c, s, e.now), now)
  {
  }

  // ----- Counters -----

  /** Failures since the last success or reset. */
  function TrailingFailures(es: seq<Event>): nat {
    if es == [] then 0
    else match es[|es| - 1]
      case Failure(_) => TrailingFailures(es[..|es| - 1]) + 1
      case Query(_) => TrailingFailures(es[..|es| - 1])
      case _ => 0
  }

  lemma {:induction false} FailuresAreTrailing(c: Config, es: seq<Event>)
    ensures Run(c, es).failures == TrailingFailures(es)
  {
    if es != [] {
      FailuresAreTrailing(c, es[..|es| - 1]);
    }
  }

  /** Successes since the last failure or reset, of those not before a time. */
  function TrailingSuccesses(es: seq<Event>, from: Option<real>): nat {
    if es == [] then 0
    else match es[|es| - 1]
      case Success(now) => TrailingSuccesses(es[..|es| - 1], from) + if from.None? || now >= from.value then 1 else 0
      case Query(_) => TrailingSuccesses(es[..|es| - 1], from)
      case _ => 0
  }

  /** When the circuit last opened since the last reset, whether or not it has closed again. */
  function LastOpening(c: Config, es: seq<Event>): Option<real> {
    if es == [] then None
    else
      var before, last := Run(c, es[..|es| - 1]), es[|es| - 1];
      if last.Reset? then None
      else if last.Failure? && Step(c, before, last).openedAt != before.openedAt then Some(last.now)
      else if last.Failure? && Awake(c, before, last.now).state == HalfOpen then Some(last.now)
      else LastOpening(c, es[..|es| - 1])
  }

  /** From when successes count: the recovery time of the last opening, once it is reached. */
  function CountFrom(c: Config, es: seq<Event>, now: real): Option<real> {
    var opening := LastOpening(c, es);
    if opening.Some? && now - opening.value >= c.recoveryTimeout then Some(opening.value + c.recoveryTimeout) else None
  }

  ghost predicate Inv(c: Config, es: seq<Event>) {
    var s := Run(c, es);
    && (s.state == Closed ==> s.openedAt.None? && s.failures < c.failureThreshold)
    && (s.state == HalfOpen ==> s.successes < c.successThreshold)
    && (s.state != Closed ==> s.openedAt.Some? && s.openedAt == LastOpening(c, es))
    && (s.state == Closed && LastOpening(c, es).Some? && es != [] ==> es[|es| - 1].now - LastOpening(c, es).value >= c.recoveryTimeout)
    && (s.state == HalfOpen && es != [] ==> es[|es| - 1].now - LastOpening(c, es).value >= c.recoveryTimeout)
    && (LastOpening(c, es).Some? ==> es != [] && LastOpening(c, es).value <= es[|es| - 1].now)
  }

  lemma {:induction false} RunInv(c: Config, es: seq<Event>)
    requires ValidConfig(c) && Chronological(es)
    ensures Inv(c, es)
  {
    if es != [] {
      var front, last := es[..|es| - 1], es[|es| - 1];
      assert front != [] ==> front[|front| - 1].now <= last.now;
      RunInv(c, front);
      hide Chronological;
    }
  }

  lemma {:induction false} NoneCountBefore(es: seq<Event>, now: real, from: real)
    requires Until(es, now) && now < from
    ensures TrailingSuccesses(es, Some(from)) == 0
  {
    hide Until;
    if es != [] {
      UntilFront(es, now);
      NoneCountBefore(es[..|es| - 1], es[|es| - 1].now, from);
    }
  }

  /**
   * The success counter is the trailing run of successes, of which those before the circuit last
   * became half-open are not counted.
   */
  lemma {:induction false} SuccessesAreTrailing(c: Config, es: seq<Event>, now: real)
    requires ValidConfig(c) && Until(es, now)
    ensures Awake(c, Run(c, es), now).successes == TrailingSuccesses(es, CountFrom(c, es, now))
  {
    hide Step, Awake, Until, Chronological, Inv, LastOpening, CountFrom, TrailingSuccesses, Run;
    if es == [] {
      NothingCounted(c, now);
    } else {
      var front, last := es[..|es| - 1], es[|es| - 1];
      UntilFront(es, now);
      RunInv(c, front);
      SuccessesAreTrailing(c, front, last.now);
      CountedAtLast(c, es);
      UntilChronological(es, now);
      RunInv(c, es);
      WakingDropsEarlier(c, es, now);
    }
  }

  lemma UntilChronological(es: seq<Event>, now: real)
    requires Until(es, now)
    ensures Chronological(es) && (es != [] ==> Until(es, es[|es| - 1].now))
  {
    hide Chronological;
    if es != [] {
      UntilLast(es);
    }
  }

  lemma UntilLast(es: seq<Event>)
    requires Chronological(es) && es != []
    ensures Until(es, es[|es| - 1].now)
  {
    forall e | e in es
      ensures e.now <= es[|es| - 1].now
    {
      var i :| 0 <= i < |es| && es[i] == e;
    }
  }

  lemma NothingCounted(c: Config, now: real)
    ensures Awake(c, Run(c, []), now).successes == 0 == TrailingSuccesses([], CountFrom(c, [], now))
  {
  }

  /** The count at the time of the latest event. */
  lemma CountedAtLast(c: Config, es: seq<Event>)
    requires ValidConfig(c) && es != [] && Inv(c, es[..|es| - 1])
    requires var front, last := es[..|es| - 1], es[|es| - 1];
             Awake(c, Run(c, front), last.now).successes == TrailingSuccesses(front, CountFrom(c, front, last.now))
             && (front != [] ==> front[|front| - 1].now <= last.now)
    ensures Awake(c, Run(c, es), es[|es| - 1].now).successes == TrailingSuccesses(es, CountFrom(c, es, es[|es| - 1].now))
  {
  }

  /** Between the latest event and now the circuit may become half-open; then no success counts yet. */
  lemma WakingDropsEarlier(c: Config, es: seq<Event>, now: real)
    requires ValidConfig(c) && es != [] && Inv(c, es) && Until(es, now) && Until(es, es[|es| - 1].now)
    requires Awake(c, Run(c, es), es[|es| - 1].now).successes == TrailingSuccesses(es, CountFrom(c, es, es[|es| - 1].now))
    ensures Awake(c, Run(c, es), now).successes == TrailingSuccesses(es, CountFrom(c, es, now))
  {
    hide Run, LastOpening, TrailingSuccesses, Until;
    var last := es[|es| - 1].now;
    LastIsBefore(es, now);
    if CountFrom(c, es, last).None? && CountFrom(c, es, now).Some? {
      NoneCountBefore(es, last, CountFrom(c, es, now).value);
    }
  }

  lemma LastIsBefore(es: seq<Event>, now: real)
    requires es != [] && Until(es, now)
    ensures es[|es| - 1].now <= now
  {
    assert es[|es| - 1] in es;
  }

  // ----- Opening, staying open, recovering -----

  /** The circuit is closed with fewer consecutive failures than the threshold, or it has opened and not recovered. */
  lemma ClosedMeansFewFailures(c: Config, es: seq<Event>, now: real)
    requires ValidConfig(c) && Until(es, now) && StateAt(c, es, now) == Closed
    ensures TrailingFailures(es) < c.failureThreshold
  {
    RunInv(c, es);
    FailuresAreTrailing(c, es);
  }

  predicate OpenSince(s: Circuit, since: real) {
    s.state == Open && s.openedAt == Some(since)
  }

  /** An opened circuit stays open, and unhealthy, for the whole recovery timeout unless it is reset. */
  lemma {:induction false} StaysOpen(c: Config, es: seq<Event>, more: seq<Event>, since: real, now: real)
    requires OpenSince(Run(c, es), since) && now < since + c.recoveryTimeout
    requires forall e :: e in more ==> !e.Reset? && e.now <= now
    ensures OpenSince(Run(c, es + more), since) && StateAt(c, es + more, now) == Open
  {
    if more == [] {
      assert es + more == es;
    } else {
      var last := |more| - 1;
      StaysOpen(c, es, more[..last], since, now);
      assert (es + more)[..|es + more| - 1] == es + more[..last];
      assert more[last] in more;
    }
  }

  function SuccessesFrom(es: seq<Event>, from: real): nat {
    if es == [] then 0
    else SuccessesFrom(es[..|es| - 1], from) + if es[|es| - 1].Success? && es[|es| - 1].now >= from then 1 else 0
  }

  /** Where a circuit opened at `since` stands at a time, after `n` successes since the timeout. */
  predicate Recovering(c: Config, s: Circuit, since: real, now: real, n: nat) {
    && (s.state == Open <==> now < since + c.recoveryTimeout)
    && (s.state == Closed <==> now >= since + c.recoveryTimeout && n >= c.successThreshold)
    && (s.state != Closed ==> s.openedAt == Some(since))
    && (s.state == HalfOpen ==> s.successes == n)
  }

  lemma JustOpened(c: Config, s: Circuit, since: real, now: real)
    requires ValidConfig(c) && OpenSince(s, since)
    ensures Recovering(c, Awake(c, s, now), since, now, 0)
  {
  }

  lemma StepRecovers(c: Config, s: Circuit, e: Event, since: real, n: nat)
    requires ValidConfig(c) && (e.Success? || e.Query?) && Recovering(c, Awake(c, s, e.now), since, e.now, n)
    ensures Recovering(c, Step(c, s, e), since, e.now, if e.Success? && e.now >= since + c.recoveryTimeout then n + 1 else n)
  {
  }

  lemma WakeRecovers(c: Config, s: Circuit, since: real, earlier: real, now: real, n: nat)
    requires ValidConfig(c) && Recovering(c, s, since, earlier, n) && earlier <= now
    requires earlier < since + c.recoveryTimeout ==> n == 0
    ensures Recovering(c, Awake(c, s, now), since, now, n)
  {
  }

  /**
   * With no failure and no reset after the opening: open until the timeout, then half-open, and
   * closed exactly when the threshold of successes since the timeout is reached.
   */
  lemma {:induction false} RecoversAfterSuccesses(c: Config, es: seq<Event>, more: seq<Event>, since: real, now: real)
    requires ValidConfig(c) && OpenSince(Run(c, es), since)
    requires Until(more, now) && forall e :: e in more ==> e.Success? || e.Query?
    ensures Recovering(c, Awake(c, Run(c, es + more), now), since, now, SuccessesFrom(more, since + c.recoveryTimeout))
  {
    hide Step, Awake, Until, Chronological, Recovering;
    if more == [] {
      assert es + more == es;
      JustOpened(c, Run(c, es), since, now);
    } else {
      var last := |more| - 1;
      var at := more[last].now;
      UntilFront(more, now);
      RecoversAfterSuccesses(c, es, more[..last], since, at);
      assert (es + more)[..|es + more| - 1] == es + more[..last];
      UntilChronological(more, now);
      NoSuccessesBefore(more, at, since + c.recoveryTimeout);
      assert more[last] in more;
      StepRecovers(c, Run(c, es + more[..last]), more[last], since, SuccessesFrom(more[..last], since + c.recoveryTimeout));
      WakeRecovers(c, Run(c, es + more), since, at, now, SuccessesFrom(more, since + c.recoveryTimeout));
    }
  }

  lemma {:induction false} NoSuccessesBefore(es: seq<Event>, now: real, from: real)
    requires Until(es, now)
    ensures now < from ==> SuccessesFrom(es, from) == 0
  {
    hide Until;
    if es != [] {
      UntilFront(es, now);
      NoSuccessesBefore(es[..|es| - 1], es[|es| - 1].now, from);
    }
  }
}
