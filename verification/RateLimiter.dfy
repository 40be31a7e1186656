/** The sliding-window limiter of API requests, against a limiter that forgets nothing. */
module RateLimiter {
  // ----- The full history -----

  datatype Request = Request(key: string, time: real)

  const WINDOW := 60.0

  /** How many of some times are at or after `from`. */
  function CountSince(times: seq<real>, from: real): (n: nat)
    ensures n <= |times|
  {
    if times == [] then 0 else CountSince(times[..|times| - 1], from) + if times[|times| - 1] >= from then 1 else 0
  }

  /** The limiter that keeps every accepted time: at most `limit` of them in the last 60 seconds, both ends included. */
  function Accepted(limit: nat, rs: seq<Request>, key: string): seq<real> {
    if rs == [] then []
    else
      var front, last := Accepted(limit, rs[..|rs| - 1], key), rs[|rs| - 1];
      if last.key == key && CountSince(front, last.time - WINDOW) < limit then front + [last.time] else front
  }

  predicate Allows(limit: nat, rs: seq<Request>, r: Request) {
    CountSince(Accepted(limit, rs, r.key), r.time - WINDOW) < limit
  }

  ghost predicate Chronological(rs: seq<Request>) {
    forall i, j :: 0 <= i < j < |rs| ==> rs[i].time <= rs[j].time
  }

  ghost predicate Sorted(times: seq<real>) {
    forall i, j :: 0 <= i < j < |times| ==> times[i] <= times[j]
  }

  function CountIn(times: seq<real>, from: real, to: real): nat {
    if times == [] then 0 else CountIn(times[..|times| - 1], from, to) + if from <= times[|times| - 1] <= to then 1 else 0
  }

  lemma {:induction false} CountInWithin(times: seq<real>, from: real, to: real, since: real)
    requires since <= from
    ensures CountIn(times, from, to) <= CountSince(times, since)
  {
    if times != [] {
      CountInWithin(times[..|times| - 1], from, to, since);
    }
  }

  lemma CountInAppend(times: seq<real>, t: real, from: real, to: real)
    ensures CountIn(times + [t], from, to) == CountIn(times, from, to) + if from <= t <= to then 1 else 0
  {
    assert (times + [t])[..|times + [t]| - 1] == times;
  }

  /** No closed window of 60 seconds, wherever it starts, holds more than `limit` accepted requests of one key. */
  lemma {:induction false} EveryWindowHolds(limit: nat, rs: seq<Request>, key: string, from: real)
    requires Chronological(rs)
    ensures CountIn(Accepted(limit, rs, key), from, from + 60.0) <= limit
  {
    if rs != [] {
      var before, last := rs[..|rs| - 1], rs[|rs| - 1];
      EveryWindowHolds(limit, before, key, from);
      hide CountIn, CountSince;
      if last.time <= from + WINDOW {
        CountInWithin(Accepted(limit, before, key), from, from + WINDOW, last.time - WINDOW);
      }
      CountInAppend(Accepted(limit, before, key), last.time, from, from + WINDOW);
    }
  }

  /** A request is accepted exactly when the sixty seconds up to it hold fewer than `limit` accepted requests of its key. */
  lemma AcceptedIff(limit: nat, rs: seq<Request>, r: Request)
    requires Chronological(rs + [r])
    ensures var before, after := Accepted(limit, rs, r.key), Accepted(limit, rs + [r], r.key);
            && (CountIn(before, r.time - 60.0, r.time) < limit ==> after == before + [r.time])
            && (CountIn(before, r.time - 60.0, r.time) >= limit ==> after == before)
            && (Allows(limit, rs, r) <==> CountIn(before, r.time - 60.0, r.time) < limit)
    ensures forall key :: key != r.key ==> Accepted(limit, rs + [r], key) == Accepted(limit, rs, key)
  {
    assert (rs + [r])[..|rs + [r]| - 1] == rs;
    AcceptedUpTo(limit, rs, r);
    hide CountSince, CountIn, Chronological;
    CountUpTo(Accepted(limit, rs, r.key), r.time - WINDOW, r.time);
  }

  lemma AcceptedUpTo(limit: nat, rs: seq<Request>, r: Request)
    requires Chronological(rs + [r])
    ensures forall i :: 0 <= i < |Accepted(limit, rs, r.key)| ==> Accepted(limit, rs, r.key)[i] <= r.time
  {
    hide Accepted;
    var all := rs + [r];
    assert forall i :: 0 <= i < |rs| ==> all[i] == rs[i];
    assert rs != [] ==> all[|rs| - 1].time <= all[|rs|].time;
    AcceptedSorted(limit, rs, r.key);
  }

  lemma {:induction false} CountUpTo(times: seq<real>, from: real, to: real)
    requires forall i :: 0 <= i < |times| ==> times[i] <= to
    ensures CountIn(times, from, to) == CountSince(times, from)
  {
    if times != [] {
      CountUpTo(times[..|times| - 1], from, to);
    }
  }

  lemma {:induction false} AcceptedSorted(limit: nat, rs: seq<Request>, key: string)
    requires Chronological(rs)
    ensures Sorted(Accepted(limit, rs, key))
    ensures forall i :: 0 <= i < |Accepted(limit, rs, key)| ==> rs != [] && Accepted(limit, rs, key)[i] <= rs[|rs| - 1].time
  {
    if rs != [] {
      var before := rs[..|rs| - 1];
      AcceptedSorted(limit, before, key);
      assert before != [] ==> before[|before| - 1].time <= rs[|rs| - 1].time;
      AppendSorted(Accepted(limit, before, key), rs[|rs| - 1].time);
    }
  }

  lemma AppendSorted(times: seq<real>, t: real)
    requires Sorted(times) && forall i :: 0 <= i < |times| ==> times[i] <= t
    ensures Sorted(times + [t])
  {
  }

  // ----- What may be forgotten -----

  /** `kept` is the end of the sorted `times`, and all that was dropped lies before `from`. */
  ghost predicate Remembers(kept: seq<real>, times: seq<real>, from: real) {
    && |kept| <= |times| && kept == times[|times| - |kept|..]
    && forall i :: 0 <= i < |times| - |kept| ==> times[i] < from
  }

  lemma {:induction false} CountOfRemembered(kept: seq<real>, times: seq<real>, from: real)
    requires Remembers(kept, times, from) && forall i :: 0 <= i < |kept| ==> kept[i] >= from
    ensures CountSince(times, from) == |kept|
  {
    if times != [] {
      var last := |times| - 1;
      if kept == [] {
        CountOfRemembered([], times[..last], from);
      } else {
        assert kept[..|kept| - 1] == times[..last][last - (|kept| - 1)..];
        CountOfRemembered(kept[..|kept| - 1], times[..last], from);
        assert times[last] == kept[|kept| - 1];
      }
    }
  }

  // ----- The limiter -----

  type Events = map<string, seq<real>>

  function Times(events: Events, key: string): seq<real> {
    if key in events then events[key] else []
  }

  /** What the dictionary has of every key stands for all of its accepted times. */
  ghost predicate Keeps(limit: nat, rs: seq<Request>, events: Events, from: real) {
    forall key :: Remembers(Times(events, key), Accepted(limit, rs, key), from)
  }

  function Floor(rs: seq<Request>): real {
    if rs == [] then 0.0 else rs[|rs| - 1].time - WINDOW
  }

  predicate NotBefore(rs: seq<Request>, now: real) {
    rs == [] || rs[|rs| - 1].time <= now
  }

  lemma KeepsLater(limit: nat, rs: seq<Request>, events: Events, now: real)
    requires Keeps(limit, rs, events, Floor(rs)) && NotBefore(rs, now)
    ensures Keeps(limit, rs, events, now - WINDOW)
  {
    forall key
      ensures Remembers(Times(events, key), Accepted(limit, rs, key), now - WINDOW)
    {
      assert Remembers(Times(events, key), Accepted(limit, rs, key), Floor(rs));
    }
  }

  lemma AcceptedNext(limit: nat, rs: seq<Request>, r: Request, key: string)
    ensures Accepted(limit, rs + [r], key) ==
            if r.key == key && Allows(limit, rs, r) then Accepted(limit, rs, key) + [r.time] else Accepted(limit, rs, key)
  {
    assert (rs + [r])[..|rs + [r]| - 1] == rs;
  }

  /** Dropping the expired head of a queue, one element of a `popleft` loop. */
  lemma PopRemembers(queue: seq<real>, times: seq<real>, from: real)
    requires Remembers(queue, times, from) && queue != [] && queue[0] < from
    ensures Remembers(queue[1..], times, from)
  {
  }

  /** With the head recent, all of the queue is, and its length is the number of recent accepted times. */
  lemma RestIsRecent(limit: nat, rs: seq<Request>, key: string, queue: seq<real>, from: real)
    requires Chronological(rs) && Remembers(queue, Accepted(limit, rs, key), from) && (queue != [] ==> queue[0] >= from)
    ensures CountSince(Accepted(limit, rs, key), from) == |queue|
  {
    AcceptedSorted(limit, rs, key);
    var times := Accepted(limit, rs, key);
    forall i | 0 <= i < |queue|
      ensures queue[i] >= from
    {
      assert queue[0] == times[|times| - |queue|] && queue[i] == times[|times| - |queue| + i];
    }
    CountOfRemembered(queue, times, from);
  }

  lemma RemembersOneMore(queue: seq<real>, times: seq<real>, t: real, from: real)
    requires Remembers(queue, times, from)
    ensures Remembers(queue + [t], times + [t], from)
  {
  }

  lemma NothingRecent(queue: seq<real>, times: seq<real>, from: real)
    requires Sorted(times) && Remembers(queue, times, from)
    requires queue == [] || queue[|queue| - 1] < from
    ensures Remembers([], times, from)
  {
    if queue != [] {
      assert queue[|queue| - 1] == times[|times| - 1];
    }
  }

  /** One request, its queue pruned and perhaps extended: every key is still covered. */
  lemma RequestKeeps(limit: nat, rs: seq<Request>, r: Request, events: Events, queue: seq<real>)
    requires Keeps(limit, rs, events, r.time - WINDOW) && Remembers(queue, Accepted(limit, rs, r.key), r.time - WINDOW)
    ensures var queue' := if Allows(limit, rs, r) then queue + [r.time] else queue;
            Keeps(limit, rs + [r], events[r.key := queue'], r.time - WINDOW)
  {
    hide Allows, Accepted, Remembers;
    var queue' := if Allows(limit, rs, r) then queue + [r.time] else queue;
    forall key
      ensures Remembers(Times(events[r.key := queue'], key), Accepted(limit, rs + [r], key), r.time - WINDOW)
    {
      AcceptedNext(limit, rs, r, key);
      if key == r.key {
        RemembersOneMore(queue, Accepted(limit, rs, key), r.time, r.time - WINDOW);
      } else {
        assert Remembers(Times(events, key), Accepted(limit, rs, key), r.time - WINDOW);
      }
    }
  }

  /** A queue whose newest time has expired stands for nothing: its key may be forgotten. */
  lemma EvictionKeeps(limit: nat, rs: seq<Request>, events: Events, stale: string, from: real)
    requires Chronological(rs) && Keeps(limit, rs, events, from) && stale in events
    requires events[stale] == [] || events[stale][|events[stale]| - 1] < from
    ensures Keeps(limit, rs, events - {stale}, from)
  {
    hide Accepted, Remembers, Chronological;
    AcceptedSorted(limit, rs, stale);
    assert Remembers(Times(events, stale), Accepted(limit, rs, stale), from);
    NothingRecent(events[stale], Accepted(limit, rs, stale), from);
    forall key
      ensures Remembers(Times(events - {stale}, key), Accepted(limit, rs, key), from)
    {
      assert Remembers(Times(events, key), Accepted(limit, rs, key), from);
    }
  }

  /** Making an empty queue for a new key, as a `defaultdict` does, changes nothing. */
  lemma NewKeyKeeps(limit: nat, rs: seq<Request>, events: Events, key: string, from: real)
    requires Keeps(limit, rs, events, from) && key !in events
    ensures Keeps(limit, rs, events[key := []], from)
  {
    forall other
      ensures Remembers(Times(events[key := []], other), Accepted(limit, rs, other), from)
    {
      assert Times(events[key := []], other) == Times(events, other);
    }
  }

  const CAPACITY := 10000
  const BATCH := 1000

  function Without(order: seq<string>, key: string): (rest: seq<string>)
    ensures forall k :: k in rest <==> k in order && k != key
    ensures Distinct(order) ==> Distinct(rest)
  {
    if order == [] then []
    else
      var front := Without(order[..|order| - 1], key);
      assert forall k :: k in order <==> k in order[..|order| - 1] || k == order[|order| - 1];
      assert Distinct(order) ==> order[|order| - 1] !in order[..|order| - 1];
      if order[|order| - 1] == key then front else front + [order[|order| - 1]]
  }

  predicate Distinct(order: seq<string>) {
    forall i, j :: 0 <= i < j < |order| ==> order[i] != order[j]
  }

  class Limiter {
    const limit: nat
    var events: Events
    /** The keys in the order in which they entered the dictionary. */
    var order: seq<string>
    /** Every request so far. */
    ghost var history: seq<Request>

    ghost predicate Valid()
      reads this
    {
      && limit >= 1 && Chronological(history)
      && Distinct(order) && (forall key :: key in order <==> key in events)
      && Keeps(limit, history, events, Floor(history))
    }

    constructor (limitPerMinute: int)
      ensures Valid() && history == [] && limit == if limitPerMinute < 1 then 1 else limitPerMinute
    {
      limit := if limitPerMinute < 1 then 1 else limitPerMinute;
      events := map[];
      order := [];
      history := [];
    }

    /** The `popleft` loop. */
    static method Prune(expiring: seq<real>, ghost times: seq<real>, cutoff: real) returns (queue: seq<real>)
      requires Remembers(expiring, times, cutoff)
      ensures Remembers(queue, times, cutoff) && (queue != [] ==> queue[0] >= cutoff)
    {
      queue := expiring;
      while queue != [] && queue[0] < cutoff
        invariant Remembers(queue, times, cutoff)
      {
        PopRemembers(queue, times, cutoff);
        queue := queue[1..];
      }
    }

    /** `allow`: the decision of the limiter that keeps everything, whatever has been evicted. */
    method Allow(key: string, now: real) returns (allowed: bool)
      requires Valid() && NotBefore(history, now)
      modifies this
      ensures Valid() && history == old(history) + [Request(key, now)]
      ensures allowed == Allows(limit, old(history), Request(key, now))
    {
      hide Keeps, Remembers, Accepted, CountSince, Chronological, Distinct;
      var cutoff := now - WINDOW;
      KeepsLater(limit, history, events, now);
      if key !in events {
        NewKeyKeeps(limit, history, events, key, cutoff);
        OneMoreKey(order, key);
        events := events[key := []];
        order := order + [key];
      }
      QueueOf(limit, history, events, key, cutoff);
      var queue := Prune(events[key], Accepted(limit, history, key), cutoff);
      RestIsRecent(limit, history, key, queue, cutoff);
      RequestKeeps(limit, history, Request(key, now), events, queue);
      LaterRequest(history, Request(key, now));
      history := history + [Request(key, now)];
      allowed := |queue| < limit;
      events := events[key := if allowed then queue + [now] else queue];
      if allowed && |events| > CAPACITY {
        EvictStale(cutoff);
      }
    }

    /** The clean-up of the first thousand keys: those without a recent time are forgotten. */
    method EvictStale(cutoff: real)
      requires Valid() && history != [] && cutoff == Floor(history)
      modifies this`events, this`order
      ensures Valid()
    {
      hide Keeps;
      var oldest := order[..if |order| < BATCH then |order| else BATCH];
      var i := 0;
      while i < |oldest|
        invariant 0 <= i <= |oldest| && Valid()
        invariant Distinct(oldest) && forall k :: i <= k < |oldest| ==> oldest[k] in events
      {
        var stale := oldest[i];
        if events[stale] == [] || events[stale][|events[stale]| - 1] < cutoff {
          EvictionKeeps(limit, history, events, stale, cutoff);
          events := events - {stale};
          order := Without(order, stale);
        }
        i := i + 1;
      }
    }
  }

  lemma LaterRequest(rs: seq<Request>, r: Request)
    requires Chronological(rs) && NotBefore(rs, r.time)
    ensures Chronological(rs + [r])
  {
  }

  lemma OneMoreKey(order: seq<string>, key: string)
    requires Distinct(order) && key !in order
    ensures Distinct(order + [key])
  {
  }

  lemma QueueOf(limit: nat, rs: seq<Request>, events: Events, key: string, from: real)
    requires Keeps(limit, rs, events, from) && key in events
    ensures Remembers(events[key], Accepted(limit, rs, key), from)
  {
    assert Times(events, key) == events[key];
  }
}
