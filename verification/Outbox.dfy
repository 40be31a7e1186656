/** The outbox: items delivered by any number of dispatchers, each holding its claims by lease. */
module Outbox {
  import opened Wrappers

  datatype Status = Pending | Processing | Delivered

  /** A row of `outbox3`; times are whole seconds. */
  datatype Item = Item(
    status: Status, attempts: nat, nextAttempt: nat, created: nat, claimOwner: Option<string>, claimExpires: Option<nat>)

  type Items = map<nat, Item>

  /** A dispatcher's id: never empty, so every finish of a dispatcher is fenced. */
  type Owner = s: string | s != "" witness "outbox"

  function Max(a: int, b: int): int {
    if a < b then b else a
  }

  function Min(a: int, b: int): int {
    if b < a then b else a
  }

  // ----- One row -----

  function NewItem(now: nat): Item {
    Item(Pending, 0, now, now, None, None)
  }

  predicate Eligible(item: Item, now: nat) {
    match item.status
    case Pending => item.nextAttempt <= now
    case Processing => item.claimExpires.Some? && item.claimExpires.value <= now
    case Delivered => false
  }

  function Claimed(item: Item, owner: string, now: nat, lease: int): Item {
    item.(status := Processing, claimOwner := Some(owner), claimExpires := Some(now + Max(5, lease)))
  }

  /** Without an owner nothing is checked; a dispatcher always names itself. */
  predicate MayFinish(item: Item, owner: Option<string>) {
    owner.None? || owner.value == "" || (item.status == Processing && item.claimOwner == owner)
  }

  function Finished(item: Item, success: bool, now: nat, retry: int): Item {
    var done := item.(attempts := item.attempts + 1, claimOwner := None, claimExpires := None);
    if success then done.(status := Delivered) else done.(status := Pending, nextAttempt := now + Max(1, retry))
  }

  // ----- The dispatcher's numbers -----

  function ClaimLease(timeout: nat): nat {
    Max(30, timeout * 2)
  }

  function ClaimLimit(requested: int, timeout: nat): int
    requires timeout >= 1
  {
    Min(Max(1, Min(requested, 500)), Max(1, Max(1, ClaimLease(timeout) - 5) / timeout))
  }

  /** A batch delivered one item after another, each within the timeout, ends five seconds before its lease. */
  lemma BatchFitsLease(requested: int, timeout: nat)
    requires timeout >= 1
    ensures 1 <= ClaimLimit(requested, timeout) <= 500
    ensures ClaimLimit(requested, timeout) * timeout <= ClaimLease(timeout) - 5
  {
    var safe := ClaimLease(timeout) - 5;
    var n := safe / timeout;
    AtLeastOne(safe, timeout);
    Scale(ClaimLimit(requested, timeout), n, timeout);
  }

  /** The lease is twice the timeout and at least thirty seconds, and a batch is as large as was asked for or as fits. */
  lemma BatchIsLargest(requested: int, timeout: nat)
    requires timeout >= 1
    ensures ClaimLease(timeout) == if timeout < 15 then 30 else 2 * timeout
    ensures ClaimLimit(requested, timeout) <= Max(1, requested)
    ensures ClaimLimit(requested, timeout) < 500 && ClaimLimit(requested, timeout) < requested ==>
              (ClaimLimit(requested, timeout) + 1) * timeout > ClaimLease(timeout) - 5
  {
    var safe := ClaimLease(timeout) - 5;
    AtLeastOne(safe, timeout);
    OneMoreIsTooMany(safe, timeout);
    var n := safe / timeout;
    assert ClaimLimit(requested, timeout) == Min(Max(1, Min(requested, 500)), n);
    hide ClaimLimit, ClaimLease;
  }

  lemma OneMoreIsTooMany(a: int, k: int)
    requires k > 0
    ensures (a / k + 1) * k > a
  {
  }

  lemma AtLeastOne(a: int, k: int)
    requires a >= k > 0
    ensures a / k >= 1
  {
  }

  lemma Scale(a: int, b: int, k: nat)
    requires a <= b
    ensures a * k <= b * k
  {
  }

  function Power(n: nat): (p: nat)
    ensures p >= 1
  {
    if n == 0 then 1 else 2 * Power(n - 1)
  }

  function RetryDelay(attempts: nat): nat {
    Min(Power(Min(attempts, 10)), 3600)
  }

  lemma {:induction false} PowerGrows(a: nat, b: nat)
    requires a <= b
    ensures Power(a) <= Power(b)
    decreases b
  {
    if a < b {
      PowerGrows(a, b - 1);
    }
  }

  /** The delay doubles with every failure up to the tenth and stays at 1024 seconds: the cap of an hour never applies. */
  lemma BackoffDoubles(attempts: nat)
    ensures attempts < 10 ==> RetryDelay(attempts + 1) == 2 * RetryDelay(attempts)
    ensures attempts >= 10 ==> RetryDelay(attempts) == 1024
  {
    assert Power(10) == 1024;
    PowerGrows(Min(attempts, 10), 10);
    PowerGrows(Min(attempts + 1, 10), 10);
  }

  // ----- The table -----

  /** Distinct rows in creation order. */
  ghost predicate OldestFirst(items: Items, picked: seq<nat>) {
    && (forall p :: p in picked ==> p in items)
    && (forall i, j :: 0 <= i < j < |picked| ==>
          picked[i] != picked[j] && items[picked[i]].created <= items[picked[j]].created)
  }

  function ClaimRows(items: Items, owner: string, now: nat, lease: int, picked: seq<nat>): Items {
    map id | id in items :: if id in picked then Claimed(items[id], owner, now, lease) else items[id]
  }

  class Table {
    var items: Items

    constructor ()
      ensures items == map[]
    {
      items := map[];
    }

    method Enqueue(id: nat, now: nat)
      requires id !in items
      modifies this
      ensures items == old(items)[id := NewItem(now)]
    {
      items := items[id := NewItem(now)];
    }

    /** The oldest of some rows. */
    method Oldest(rows: set<nat>) returns (best: nat)
      requires rows != {} && rows <= items.Keys
      ensures best in rows && forall id :: id in rows ==> items[best].created <= items[id].created
    {
      best :| best in rows;
      var rest := rows - {best};
      while rest != {}
        invariant best in rows && rest <= rows
        invariant forall id :: id in rows - rest ==> items[best].created <= items[id].created
        decreases |rest|
      {
        var next :| next in rest;
        if items[next].created < items[best].created {
          best := next;
        }
        rest := rest - {next};
      }
    }

    /**
     * `claim_outbox`: takes the oldest eligible rows, as many as the limit allows, and every one it
     * reports carries this owner's claim.
     */
    method ClaimOutbox(owner: Owner, now: nat, lease: int, limit: int) returns (picked: seq<nat>)
      modifies this
      ensures forall id :: id in picked ==> id in old(items) && Eligible(old(items)[id], now)
      ensures OldestFirst(old(items), picked)
      ensures |picked| <= Max(1, Min(limit, 500))
      ensures forall id :: id in old(items) && id !in picked && Eligible(old(items)[id], now) ==>
                             && |picked| == Max(1, Min(limit, 500))
                             && forall p :: p in picked ==> old(items)[p].created <= old(items)[id].created
      ensures items == ClaimRows(old(items), owner, now, lease, picked)
    {
      var bound := Max(1, Min(limit, 500));
      var table := items;
      var rest := set id | id in table && Eligible(table[id], now);
      ghost var eligible := rest;
      picked := [];
      while rest != {} && |picked| < bound
        invariant |picked| <= bound && items == table && eligible <= table.Keys
        invariant forall id :: id in eligible <==> id in picked || id in rest
        invariant forall id :: id in rest ==> id !in picked && id in table
        invariant OldestFirst(table, picked)
        invariant forall p, id :: p in picked && id in rest ==> table[p].created <= table[id].created
        decreases |rest|
      {
        var best := Oldest(rest);
        rest := rest - {best};
        picked := picked + [best];
      }
      items := ClaimRows(table, owner, now, lease, picked);
    }

    /** `finish_outbox`: whether the row was changed. */
    method FinishOutbox(id: nat, success: bool, retry: int, owner: Option<string>, now: nat) returns (changed: bool)
      modifies this
      ensures changed == (id in old(items) && MayFinish(old(items)[id], owner))
      ensures items == if changed then old(items)[id := Finished(old(items)[id], success, now, retry)] else old(items)
    {
      changed := id in items && MayFinish(items[id], owner);
      if changed {
        items := items[id := Finished(items[id], success, now, retry)];
      }
    }

    /**
     * One `tick` of a dispatcher that nobody disturbs: every row it claims is finished once, as
     * delivered or put back with the backoff its own attempts call for, and nothing else moves.
     */
    method Tick(owner: Owner, timeout: nat, limit: int, delivers: nat -> bool, start: nat, clock: nat -> nat)
      returns (delivered: nat, failed: nat, ghost picked: seq<nat>)
      requires timeout >= 1
      modifies this
      ensures delivered == CountDelivered(picked, delivers) && failed == |picked| - delivered
      ensures |picked| * timeout <= ClaimLease(timeout) - 5
      ensures items.Keys == old(items.Keys)
      ensures forall id :: id in old(items) ==>
                items[id] == if id in picked then Attempted(old(items)[id], delivers(id), clock(id)) else old(items)[id]
    {
      hide ClaimLease, ClaimLimit, Eligible, PartlyFinished, Finished, RetryDelay;
      BatchFitsLease(limit, timeout);
      var batch := ClaimOutbox(owner, start, ClaimLease(timeout), ClaimLimit(limit, timeout));
      picked := batch;
      Scale(|batch|, ClaimLimit(limit, timeout), timeout);
      ghost var table := old(items);
      NoneFinished(items, table, batch, owner, start, ClaimLease(timeout), delivers, clock);
      delivered, failed := 0, 0;
      var i := 0;
      while i < |batch|
        invariant 0 <= i <= |batch| && delivered == CountDelivered(batch[..i], delivers) && failed == i - delivered
        invariant PartlyFinished(items, table, batch, i, owner, delivers, clock)
      {
        var id := batch[i];
        OneMoreFinished(items, table, batch, i, owner, delivers, clock);
        assert batch[..i + 1][..i] == batch[..i];
        var success := delivers(id);
        var changed := FinishOutbox(id, success, RetryDelay(items[id].attempts + 1), Some(owner), clock(id));
        if success {
          delivered := delivered + 1;
        } else {
          failed := failed + 1;
        }
        i := i + 1;
      }
      assert batch[..i] == batch;
      AllFinished(items, table, batch, owner, delivers, clock);
    }
  }

  function CountDelivered(ids: seq<nat>, delivers: nat -> bool): nat {
    if ids == [] then 0 else CountDelivered(ids[..|ids| - 1], delivers) + if delivers(ids[|ids| - 1]) then 1 else 0
  }

  /** The row after one attempt to deliver it. */
  function Attempted(item: Item, success: bool, now: nat): Item {
    Finished(item, success, now, RetryDelay(item.attempts + 1))
  }

  /** The first `i` rows of the batch are finished, the others claimed, the rest of the table as it was. */
  ghost predicate PartlyFinished(items: Items, table: Items, batch: seq<nat>, i: nat, owner: string, delivers: nat -> bool, clock: nat -> nat)
    requires i <= |batch|
  {
    && items.Keys == table.Keys && OldestFirst(table, batch)
    && (forall id :: id in table && id !in batch ==> items[id] == table[id])
    && (forall k :: 0 <= k < i ==> items[batch[k]] == Attempted(table[batch[k]], delivers(batch[k]), clock(batch[k])))
    && (forall k :: i <= k < |batch| ==>
          && items[batch[k]].status == Processing && items[batch[k]].claimOwner == Some(owner)
          && items[batch[k]].attempts == table[batch[k]].attempts
          && forall success, now, retry ::
               Finished(items[batch[k]], success, now, retry) == Finished(table[batch[k]], success, now, retry))
  }

  lemma NoneFinished(items: Items, table: Items, batch: seq<nat>, owner: string, now: nat, lease: int, delivers: nat -> bool, clock: nat -> nat)
    requires OldestFirst(table, batch) && items == ClaimRows(table, owner, now, lease, batch)
    ensures PartlyFinished(items, table, batch, 0, owner, delivers, clock)
  {
  }

  lemma OneMoreFinished(items: Items, table: Items, batch: seq<nat>, i: nat, owner: string, delivers: nat -> bool, clock: nat -> nat)
    requires i < |batch| && PartlyFinished(items, table, batch, i, owner, delivers, clock)
    ensures batch[i] in items && MayFinish(items[batch[i]], Some(owner))
    ensures var id := batch[i];
            var row := Finished(items[id], delivers(id), clock(id), RetryDelay(items[id].attempts + 1));
            PartlyFinished(items[id := row], table, batch, i + 1, owner, delivers, clock)
  {
    hide Finished, RetryDelay;
  }

  lemma AllFinished(items: Items, table: Items, batch: seq<nat>, owner: string, delivers: nat -> bool, clock: nat -> nat)
    requires PartlyFinished(items, table, batch, |batch|, owner, delivers, clock)
    ensures items.Keys == table.Keys
    ensures forall id :: id in table ==>
              items[id] == if id in batch then Attempted(table[id], delivers(id), clock(id)) else table[id]
  {
    hide Attempted;
  }
}
