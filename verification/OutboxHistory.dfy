/** What every run of the outbox keeps, whatever the dispatchers do and however late they are. */
module OutboxHistory {
  import opened Wrappers
  import opened Outbox

  datatype Event =
    | Enqueue(id: nat, now: nat)
    | Claim(owner: Owner, now: nat, lease: int, picked: seq<nat>)
    | Finish(id: nat, success: bool, retry: int, owner: Owner, now: nat)

  /** A finish that changed a row. */
  datatype Outcome = Outcome(id: nat, success: bool)

  datatype System = System(items: Items, outcomes: seq<Outcome>)

  /** The rows of `picked` that the guarded update of `claim_outbox` really takes. */
  function Taken(items: Items, picked: seq<nat>, now: nat): seq<nat> {
    if picked == [] then []
    else
      var front, last := Taken(items, picked[..|picked| - 1], now), picked[|picked| - 1];
      if last in items && Eligible(items[last], now) then front + [last] else front
  }

  predicate Takes(e: Event, items: Items, id: nat) {
    e.Claim? && id in e.picked && id in items && Eligible(items[id], e.now)
  }

  function Step(s: System, e: Event): System {
    match e
    case Enqueue(id, now) => if id in s.items then s else s.(items := s.items[id := NewItem(now)])
    case Claim(owner, now, lease, picked) => s.(items := ClaimRows(s.items, owner, now, lease, Taken(s.items, picked, now)))
    case Finish(id, success, retry, owner, now) =>
      if id in s.items && MayFinish(s.items[id], Some(owner)) then
        System(s.items[id := Finished(s.items[id], success, now, retry)], s.outcomes + [Outcome(id, success)])
      else s
  }

  function Run(es: seq<Event>): System {
    if es == [] then System(map[], []) else Step(Run(es[..|es| - 1]), es[|es| - 1])
  }

  lemma {:induction false} TakenIff(items: Items, picked: seq<nat>, now: nat, id: nat)
    ensures id in Taken(items, picked, now) <==> id in picked && id in items && Eligible(items[id], now)
  {
    if picked != [] {
      TakenIff(items, picked[..|picked| - 1], now, id);
      assert picked == picked[..|picked| - 1] + [picked[|picked| - 1]];
    }
  }

  /** The rows `claim_outbox` reports, all of them eligible, are the rows this step takes. */
  lemma EligibleAreTaken(s: System, owner: Owner, now: nat, lease: int, picked: seq<nat>)
    requires forall id :: id in picked ==> id in s.items && Eligible(s.items[id], now)
    ensures Step(s, Claim(owner, now, lease, picked)).items == ClaimRows(s.items, owner, now, lease, picked)
  {
    forall id | id in s.items
      ensures id in Taken(s.items, picked, now) <==> id in picked
    {
      TakenIff(s.items, picked, now, id);
    }
  }

  // ----- When an item can be taken -----

  function OneOf(id: nat, owner: Owner, now: nat, lease: int): Event {
    Claim(owner, now, lease, [id])
  }

  /** A new item can be taken from the time it was made. */
  lemma NewItemIsTaken(s: System, id: nat, made: nat, owner: Owner, now: nat, lease: int)
    requires id !in s.items
    ensures Takes(OneOf(id, owner, now, lease), Step(s, Enqueue(id, made)).items, id) <==> now >= made
  {
  }

  /** A taken item carries the claim, and can be taken again exactly when at least five seconds and the lease have passed. */
  lemma TakenItem(s: System, claim: Event, id: nat, owner: Owner, now: nat, lease: int)
    requires Takes(claim, s.items, id)
    ensures var items := Step(s, claim).items;
            && id in items && items[id].status == Processing && items[id].claimOwner == Some(claim.owner) && items[id].attempts == s.items[id].attempts
            && (Takes(OneOf(id, owner, now, lease), items, id) <==> now >= claim.now + if claim.lease < 5 then 5 else claim.lease)
  {
    TakenIff(s.items, claim.picked, claim.now, id);
  }

  /** After a failed delivery an item can be taken exactly when at least a second and the delay have passed; after a success never. */
  lemma FinishedItem(s: System, finish: Event, id: nat, owner: Owner, now: nat, lease: int)
    requires finish.Finish? && finish.id == id && id in s.items && s.items[id].status == Processing && s.items[id].claimOwner == Some(finish.owner)
    ensures var items := Step(s, finish).items;
            && id in items && items[id].attempts == s.items[id].attempts + 1 && items[id].claimOwner.None?
            && items[id].status == (if finish.success then Delivered else Pending)
            && (Takes(OneOf(id, owner, now, lease), items, id) <==>
                  !finish.success && now >= finish.now + if finish.retry < 1 then 1 else finish.retry)
  {
  }

  // ----- Deliveries -----

  /** The finishes of one row that changed it, and those among them that were successes. */
  function Count(outcomes: seq<Outcome>, id: nat): nat {
    if outcomes == [] then 0
    else Count(outcomes[..|outcomes| - 1], id) + if outcomes[|outcomes| - 1].id == id then 1 else 0
  }

  function CountSuccesses(outcomes: seq<Outcome>, id: nat): nat {
    if outcomes == [] then 0
    else CountSuccesses(outcomes[..|outcomes| - 1], id) + if outcomes[|outcomes| - 1] == Outcome(id, true) then 1 else 0
  }

  predicate ItemInv(s: System, id: nat) {
    if id in s.items then
      var item := s.items[id];
      && (item.status == Processing <==> item.claimOwner.Some?)
      && (item.status == Processing <==> item.claimExpires.Some?)
      && item.attempts == Count(s.outcomes, id)
      && CountSuccesses(s.outcomes, id) == if item.status == Delivered then 1 else 0
    else Count(s.outcomes, id) == 0 && CountSuccesses(s.outcomes, id) == 0
  }

  lemma StepKeepsItem(s: System, e: Event, id: nat)
    requires ItemInv(s, id)
    ensures ItemInv(Step(s, e), id)
    ensures id in s.items && s.items[id].status == Delivered ==> id in Step(s, e).items && Step(s, e).items[id] == s.items[id]
  {
    if e.Claim? {
      TakenIff(s.items, e.picked, e.now, id);
    } else if e.Finish? {
      var more := s.outcomes + [Outcome(e.id, e.success)];
      assert more[..|more| - 1] == s.outcomes;
    }
  }

  lemma {:induction false} RunInv(es: seq<Event>, id: nat)
    ensures ItemInv(Run(es), id)
  {
    if es != [] {
      RunInv(es[..|es| - 1], id);
      StepKeepsItem(Run(es[..|es| - 1]), es[|es| - 1], id);
    }
  }

  /** However many dispatchers run: at most one success of an item is accepted, and `attempts` counts the accepted finishes. */
  lemma DeliveredAtMostOnce(es: seq<Event>, id: nat)
    requires id in Run(es).items
    ensures CountSuccesses(Run(es).outcomes, id) <= 1
    ensures CountSuccesses(Run(es).outcomes, id) == 1 <==> Run(es).items[id].status == Delivered
    ensures Run(es).items[id].attempts == Count(Run(es).outcomes, id)
  {
    RunInv(es, id);
  }

  /** `delivered` is absorbing: no later event changes the row in any way. */
  lemma {:induction false} DeliveredStays(es: seq<Event>, more: seq<Event>, id: nat)
    requires id in Run(es).items && Run(es).items[id].status == Delivered
    ensures id in Run(es + more).items && Run(es + more).items[id] == Run(es).items[id]
  {
    if more == [] {
      assert es + more == es;
    } else {
      var last := |more| - 1;
      DeliveredStays(es, more[..last], id);
      assert (es + more)[..|es + more| - 1] == es + more[..last];
      RunInv(es + more[..last], id);
      StepKeepsItem(Run(es + more[..last]), more[last], id);
    }
  }

  // ----- Fencing -----

  predicate NotOwnedBy(s: System, id: nat, owner: Owner) {
    id in s.items && s.items[id].claimOwner != Some(owner)
  }

  predicate ClaimBy(e: Event, owner: Owner, id: nat) {
    e.Claim? && e.owner == owner && id in e.picked
  }

  lemma StepKeepsFence(s: System, e: Event, id: nat, owner: Owner)
    requires NotOwnedBy(s, id, owner) && !ClaimBy(e, owner, id)
    ensures NotOwnedBy(Step(s, e), id, owner)
  {
    if e.Claim? {
      TakenIff(s.items, e.picked, e.now, id);
    }
  }

  lemma {:induction false} FenceHolds(es: seq<Event>, more: seq<Event>, id: nat, owner: Owner)
    requires NotOwnedBy(Run(es), id, owner)
    requires forall e :: e in more ==> !ClaimBy(e, owner, id)
    ensures NotOwnedBy(Run(es + more), id, owner)
  {
    if more == [] {
      assert es + more == es;
    } else {
      var last := |more| - 1;
      FenceHolds(es, more[..last], id, owner);
      assert (es + more)[..|es + more| - 1] == es + more[..last];
      StepKeepsFence(Run(es + more[..last]), more[last], id, owner);
    }
  }

  /** Once another owner has taken an item, the former owner changes nothing until it claims the item again. */
  lemma OvertakenOwnerChangesNothing(es: seq<Event>, claim: Event, more: seq<Event>, finish: Event)
    requires finish.Finish? && claim.Claim? && claim.owner != finish.owner
    requires Takes(claim, Run(es).items, finish.id)
    requires forall e :: e in more ==> !ClaimBy(e, finish.owner, finish.id)
    ensures Step(Run(es + [claim] + more), finish) == Run(es + [claim] + more)
  {
    var taken := es + [claim];
    assert taken[..|taken| - 1] == es;
    TakenIff(Run(es).items, claim.picked, claim.now, finish.id);
    FenceHolds(taken, more, finish.id, finish.owner);
  }

  // ----- A dispatcher that keeps its timeouts -----

  predicate Holds(s: System, id: nat, owner: Owner, expires: nat) {
    && id in s.items && s.items[id].status == Processing
    && s.items[id].claimOwner == Some(owner) && s.items[id].claimExpires == Some(expires)
  }

  predicate Disturbs(e: Event, id: nat, owner: Owner, expires: nat) {
    match e
    case Enqueue(_, _) => false
    case Claim(_, now, _, _) => now >= expires
    case Finish(other, _, _, who, _) => other == id && who == owner
  }

  lemma StepKeepsHold(s: System, e: Event, id: nat, owner: Owner, expires: nat)
    requires Holds(s, id, owner, expires) && !Disturbs(e, id, owner, expires)
    ensures Holds(Step(s, e), id, owner, expires)
  {
    if e.Claim? {
      TakenIff(s.items, e.picked, e.now, id);
    }
  }

  lemma {:induction false} HoldLasts(es: seq<Event>, more: seq<Event>, id: nat, owner: Owner, expires: nat)
    requires Holds(Run(es), id, owner, expires)
    requires forall e :: e in more ==> !Disturbs(e, id, owner, expires)
    ensures Holds(Run(es + more), id, owner, expires)
  {
    if more == [] {
      assert es + more == es;
    } else {
      var last := |more| - 1;
      HoldLasts(es, more[..last], id, owner, expires);
      assert (es + more)[..|es + more| - 1] == es + more[..last];
      StepKeepsHold(Run(es + more[..last]), more[last], id, owner, expires);
    }
  }

  function Clock(e: Event): nat {
    e.now
  }

  /**
   * A dispatcher claims a batch within its limit and finishes an item of it before the batch's
   * timeouts, and up to four seconds more, have passed. Whatever the others do meanwhile, the item
   * is still its own and the finish is accepted.
   */
  lemma PunctualDispatcherKeepsItems(es: seq<Event>, claim: Event, more: seq<Event>, finish: Event, requested: int, timeout: nat)
    requires timeout >= 1 && claim.Claim? && claim.lease == ClaimLease(timeout) && |claim.picked| <= ClaimLimit(requested, timeout)
    requires finish.Finish? && finish.owner == claim.owner && Takes(claim, Run(es).items, finish.id)
    requires forall e :: e in more ==> Clock(e) <= claim.now + |claim.picked| * timeout + 4
    requires forall e :: e in more ==> !(e.Finish? && e.id == finish.id && e.owner == finish.owner)
    ensures var before := Run(es + [claim] + more);
            Step(before, finish).outcomes == before.outcomes + [Outcome(finish.id, finish.success)]
  {
    var taken, expires := es + [claim], claim.now + ClaimLease(timeout);
    assert taken[..|taken| - 1] == es;
    TakenIff(Run(es).items, claim.picked, claim.now, finish.id);
    assert Holds(Run(taken), finish.id, finish.owner, expires);
    BatchFitsLease(requested, timeout);
    Scale(|claim.picked|, ClaimLimit(requested, timeout), timeout);
    forall e | e in more
      ensures !Disturbs(e, finish.id, finish.owner, expires)
    {
      assert Clock(e) < expires;
    }
    HoldLasts(taken, more, finish.id, finish.owner, expires);
  }
}
