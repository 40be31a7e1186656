/** The token bucket of one provider, over real numbers. */
module TokenBucket {
  function Capacity(rpm: nat): nat {
    rpm * 3 / 2
  }

  function Rate(rpm: nat): real {
    rpm as real / 60.0
  }

  function Min(a: real, b: real): real {
    if b < a then b else a
  }

  /** What `refill` makes of the tokens when the clock shows `now`. */
  function Filled(rpm: nat, tokens: real, last: real, now: real): real {
    if now <= last then tokens else Min(Capacity(rpm) as real, tokens + (now - last) * Rate(rpm))
  }

  class Bucket {
    const rpm: nat
    var tokens: real
    var totalConsumed: nat
    var lastRefill: real

    ghost predicate Valid()
      reads this
    {
      rpm >= 1 && 0.0 <= tokens <= Capacity(rpm) as real
    }

    constructor (limit: nat, now: real)
      requires limit >= 1
      ensures Valid() && rpm == limit && tokens == Capacity(rpm) as real && totalConsumed == 0 && lastRefill == now
    {
      rpm := limit;
      tokens := Capacity(limit) as real;
      totalConsumed := 0;
      lastRefill := now;
    }

    method Refill(now: real)
      requires Valid()
      modifies this`tokens, this`lastRefill
      ensures Valid() && tokens == Filled(rpm, old(tokens), old(lastRefill), now)
      ensures lastRefill == if old(lastRefill) < now then now else old(lastRefill)
    {
      var elapsed := now - lastRefill;
      if elapsed <= 0.0 {
        return;
      }
      Positive(elapsed, Rate(rpm));
      tokens := Min(Capacity(rpm) as real, tokens + elapsed * Rate(rpm));
      lastRefill := now;
    }

    method Consume(now: real) returns (granted: bool)
      requires Valid()
      modifies this
      ensures Valid() && lastRefill == if old(lastRefill) < now then now else old(lastRefill)
      ensures granted == (Filled(rpm, old(tokens), old(lastRefill), now) >= 1.0)
      ensures tokens == Filled(rpm, old(tokens), old(lastRefill), now) - if granted then 1.0 else 0.0
      ensures totalConsumed == old(totalConsumed) + if granted then 1 else 0
    {
      Refill(now);
      if tokens >= 1.0 {
        tokens := tokens - 1.0;
        totalConsumed := totalConsumed + 1;
        return true;
      }
      granted := false;
    }

    /** `time_until_available`: the first time at which a token will be there if nobody takes one. */
    method TimeUntilAvailable(now: real) returns (wait: real)
      requires Valid()
      modifies this`tokens, this`lastRefill
      ensures Valid() && wait >= 0.0
      ensures tokens == Filled(rpm, old(tokens), old(lastRefill), now)
      ensures lastRefill == if old(lastRefill) < now then now else old(lastRefill)
      ensures forall later :: later >= lastRefill ==>
                (Filled(rpm, tokens, lastRefill, later) >= 1.0 <==> later >= lastRefill + wait)
    {
      Refill(now);
      if tokens >= 1.0 {
        StaysAvailable(rpm, tokens, lastRefill);
        return 0.0;
      }
      var deficit := 1.0 - tokens;
      wait := deficit / Rate(rpm);
      WaitIsExact(rpm, tokens, lastRefill, wait);
    }
  }

  lemma Positive(x: real, y: real)
    requires x >= 0.0 && y >= 0.0
    ensures x * y >= 0.0
  {
  }

  lemma CapacityHoldsOne(rpm: nat)
    requires rpm >= 1
    ensures Capacity(rpm) >= 1
  {
  }

  lemma StaysAvailable(rpm: nat, tokens: real, last: real)
    requires rpm >= 1 && 1.0 <= tokens <= Capacity(rpm) as real
    ensures forall later :: later >= last ==> Filled(rpm, tokens, last, later) >= 1.0
  {
    forall later | later >= last
      ensures Filled(rpm, tokens, last, later) >= 1.0
    {
      Positive(later - last, Rate(rpm));
    }
  }

  lemma WaitIsExact(rpm: nat, tokens: real, last: real, wait: real)
    requires rpm >= 1 && 0.0 <= tokens < 1.0 && wait == (1.0 - tokens) / Rate(rpm)
    ensures wait >= 0.0
    ensures forall later :: later >= last ==> (Filled(rpm, tokens, last, later) >= 1.0 <==> later >= last + wait)
  {
    hide Rate, Capacity;
    var rate := Rate(rpm);
    RateIsPositive(rpm);
    CapacityHoldsOne(rpm);
    Divided(1.0 - tokens, rate, wait);
    forall later | later >= last
      ensures Filled(rpm, tokens, last, later) >= 1.0 <==> later >= last + wait
    {
      Compare(later - last, wait, rate);
      var gained := (later - last) * rate;
      assert gained >= 1.0 - tokens <==> later - last >= wait;
      if later > last {
        assert Filled(rpm, tokens, last, later) == Min(Capacity(rpm) as real, tokens + gained);
      }
    }
  }

  lemma Divided(x: real, y: real, q: real)
    requires y > 0.0 && x >= 0.0 && q == x / y
    ensures q * y == x && q >= 0.0 && (x > 0.0 ==> q > 0.0)
  {
  }

  lemma RateIsPositive(rpm: nat)
    requires rpm >= 1
    ensures Rate(rpm) > 0.0
  {
  }

  lemma Compare(a: real, b: real, rate: real)
    requires rate > 0.0
    ensures a >= b <==> a * rate >= b * rate
  {
    if a >= b {
      Positive(a - b, rate);
      assert a * rate - b * rate == (a - b) * rate;
    } else {
      StrictlyPositive(b - a, rate);
      assert b * rate - a * rate == (b - a) * rate;
    }
  }

  lemma StrictlyPositive(x: real, y: real)
    requires x > 0.0 && y > 0.0
    ensures x * y > 0.0
  {
  }

  /** An empty bucket gets the tokens of a minute in a minute, and is full, with one and a half times as many, after a minute and a half. */
  lemma RefillOfEmpty(rpm: nat, t: real, seconds: real)
    requires rpm >= 1 && seconds >= 90.0
    ensures Filled(rpm, 0.0, t, t + 60.0) == rpm as real
    ensures var full := Filled(rpm, 0.0, t, t + seconds); full == full.Floor as real && 2.0 * full <= 3.0 * rpm as real < 2.0 * full + 2.0
  {
    assert 60.0 * Rate(rpm) == rpm as real && 90.0 * Rate(rpm) == 1.5 * rpm as real;
    Positive(seconds - 90.0, Rate(rpm));
    assert seconds * Rate(rpm) == 90.0 * Rate(rpm) + (seconds - 90.0) * Rate(rpm);
    assert Filled(rpm, 0.0, t, t + seconds) == Capacity(rpm) as real;
  }

  // ----- Any interval -----

  /** A call at a time: `consume`, or a query that only refills. */
  datatype Call = Call(now: real, consumes: bool)

  datatype State = State(tokens: real, last: real, granted: nat)

  function Step(rpm: nat, s: State, c: Call): State {
    var tokens := Filled(rpm, s.tokens, s.last, c.now);
    var last := if s.last < c.now then c.now else s.last;
    if c.consumes && tokens >= 1.0 then State(tokens - 1.0, last, s.granted + 1) else State(tokens, last, s.granted)
  }

  function Run(rpm: nat, s: State, cs: seq<Call>): State {
    if cs == [] then s else Step(rpm, Run(rpm, s, cs[..|cs| - 1]), cs[|cs| - 1])
  }

  predicate ValidState(rpm: nat, s: State) {
    rpm >= 1 && 0.0 <= s.tokens <= Capacity(rpm) as real
  }

  lemma StepGains(rpm: nat, s: State, c: Call)
    requires ValidState(rpm, s)
    ensures var s' := Step(rpm, s, c);
            && ValidState(rpm, s') && s'.last >= s.last && s'.granted >= s.granted
            && (s'.granted - s.granted) as real + s'.tokens <= s.tokens + (s'.last - s.last) * Rate(rpm)
  {
    hide Rate, Capacity;
    RateIsPositive(rpm);
    var rate := Rate(rpm);
    var elapsed := Step(rpm, s, c).last - s.last;
    var gained := elapsed * rate;
    Positive(elapsed, rate);
    if s.last < c.now {
      assert elapsed == c.now - s.last;
      assert Filled(rpm, s.tokens, s.last, c.now) == Min(Capacity(rpm) as real, s.tokens + gained);
    } else {
      assert Filled(rpm, s.tokens, s.last, c.now) == s.tokens;
    }
    assert Filled(rpm, s.tokens, s.last, c.now) <= s.tokens + gained;
  }

  /** Tokens are conserved: what was granted and what is left never exceed the tokens before and the refill of the time passed. */
  lemma {:induction false} Conservation(rpm: nat, s: State, cs: seq<Call>)
    requires ValidState(rpm, s)
    ensures var s' := Run(rpm, s, cs);
            && ValidState(rpm, s') && s'.last >= s.last && s'.granted >= s.granted
            && (s'.granted - s.granted) as real + s'.tokens <= s.tokens + (s'.last - s.last) * Rate(rpm)
  {
    hide ValidState, Rate, Step;
    if cs != [] {
      var front := cs[..|cs| - 1];
      Conservation(rpm, s, front);
      StepGains(rpm, Run(rpm, s, front), cs[|cs| - 1]);
      Distribute(Run(rpm, s, cs).last - Run(rpm, s, front).last, Run(rpm, s, front).last - s.last, Rate(rpm));
    }
  }

  lemma Distribute(a: real, b: real, rate: real)
    ensures (a + b) * rate == a * rate + b * rate
  {
  }

  /** In any interval of a run the grants are at most the capacity plus the rate times the time elapsed. */
  lemma GrantsWithin(rpm: nat, s: State, before: seq<Call>, within: seq<Call>)
    requires ValidState(rpm, s)
    ensures var from, to := Run(rpm, s, before), Run(rpm, s, before + within);
            (to.granted - from.granted) as real <= Capacity(rpm) as real + (to.last - from.last) * Rate(rpm)
  {
    hide Step, Rate, Run;
    Conservation(rpm, s, before);
    Conservation(rpm, Run(rpm, s, before), within);
    Continues(rpm, s, before, within);
  }

  lemma {:induction false} Continues(rpm: nat, s: State, before: seq<Call>, within: seq<Call>)
    ensures Run(rpm, Run(rpm, s, before), within) == Run(rpm, s, before + within)
  {
    if within == [] {
      assert before + within == before;
    } else {
      assert (before + within)[..|before + within| - 1] == before + within[..|within| - 1];
      Continues(rpm, s, before, within[..|within| - 1]);
    }
  }
}
