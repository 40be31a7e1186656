/** Leader leases: one row per service name, taken over only when it has expired. */
module ServiceLeases {
  /** A row of `service_leases3`; times are whole seconds. */
  datatype Lease = Lease(owner: string, expires: nat)

  type Leases = map<string, Lease>

  function Term(seconds: int): nat {
    if seconds < 5 then 5 else seconds
  }

  predicate Mine(leases: Leases, name: string, owner: string) {
    name in leases && leases[name].owner == owner
  }

  predicate MayTake(leases: Leases, name: string, owner: string, now: nat) {
    name !in leases || leases[name].owner == owner || leases[name].expires <= now
  }

  function Acquired(leases: Leases, name: string, owner: string, seconds: int, now: nat): Leases {
    if MayTake(leases, name, owner, now) then leases[name := Lease(owner, now + Term(seconds))] else leases
  }

  function Removed(leases: Leases, name: string, owner: string): Leases {
    if Mine(leases, name, owner) then leases - {name} else leases
  }

  class Registry {
    var leases: Leases

    constructor ()
      ensures leases == map[]
    {
      leases := map[];
    }

    /**
     * `acquire_service_lease`: a guarded update, an insert when it changed nothing, and a look at
     * the row; true exactly when the lease was free, expired or the caller's own.
     */
    method AcquireServiceLease(name: string, owner: string, seconds: int, now: nat) returns (held: bool)
      modifies this
      ensures leases == Acquired(old(leases), name, owner, seconds, now)
      ensures held == MayTake(old(leases), name, owner, now)
      ensures held ==> Mine(leases, name, owner) && leases[name].expires == now + if seconds < 5 then 5 else seconds
      ensures !held ==> leases == old(leases) && !Mine(leases, name, owner) && leases[name].expires > now
    {
      var expires := now + Term(seconds);
      var changed := name in leases && (leases[name].owner == owner || leases[name].expires <= now);
      if changed {
        leases := leases[name := Lease(owner, expires)];
      }
      if !changed && name !in leases {
        leases := leases[name := Lease(owner, expires)];
      }
      held := leases[name].owner == owner && leases[name].expires > now;
    }

    /** `release_service_lease`: deletes the row if it is the caller's. */
    method ReleaseServiceLease(name: string, owner: string) returns (released: bool)
      modifies this
      ensures leases == Removed(old(leases), name, owner)
      ensures released == Mine(old(leases), name, owner)
    {
      released := Mine(leases, name, owner);
      if released {
        leases := leases - {name};
      }
    }
  }

  // ----- Runs -----

  datatype Event =
    | Acquire(name: string, owner: string, seconds: int, now: nat)
    | Release(name: string, owner: string, now: nat)

  function Step(leases: Leases, e: Event): Leases {
    match e
    case Acquire(name, owner, seconds, now) => Acquired(leases, name, owner, seconds, now)
    case Release(name, owner, _) => Removed(leases, name, owner)
  }

  function Run(es: seq<Event>): Leases {
    if es == [] then map[] else Step(Run(es[..|es| - 1]), es[|es| - 1])
  }

  ghost predicate Chronological(es: seq<Event>) {
    forall i, j :: 0 <= i < j < |es| ==> es[i].now <= es[j].now
  }

  /** Event `i` acquired its lease. */
  predicate Granted(es: seq<Event>, i: nat) {
    i < |es| && es[i].Acquire? && MayTake(Run(es[..i]), es[i].name, es[i].owner, es[i].now)
  }

  /** Event `k` is a later renewal or release of the lease event `i` acquired, by the same owner. */
  predicate Ends(es: seq<Event>, i: nat, k: nat)
    requires i < |es|
  {
    i < k < |es| && es[k].name == es[i].name && es[k].owner == es[i].owner
  }

  /**
   * The interval in which the owner may rely on grant `i`: from the grant to its expiry, or to the
   * owner's own next renewal or release if that comes first.
   */
  ghost predicate Relies(es: seq<Event>, i: nat, t: nat) {
    && Granted(es, i) && es[i].now <= t < es[i].now + Term(es[i].seconds)
    && forall k: nat :: Ends(es, i, k) ==> t < es[k].now
  }

  /** What the table knows of grant `i` after all of `es`: its row, unless its owner ended it or its time is over. */
  ghost predicate Recorded(es: seq<Event>, i: nat) {
    Granted(es, i) ==>
      || (exists k: nat :: Ends(es, i, k))
      || es[|es| - 1].now >= es[i].now + Term(es[i].seconds)
      || (es[i].name in Run(es) && Run(es)[es[i].name] == Lease(es[i].owner, es[i].now + Term(es[i].seconds)))
  }

  lemma {:induction false} GrantsAreRecorded(es: seq<Event>, i: nat)
    requires Chronological(es)
    ensures Recorded(es, i)
  {
    if Granted(es, i) && i < |es| - 1 {
      var last := |es| - 1;
      var before := es[..last];
      assert before[..i] == es[..i];
      GrantsAreRecorded(before, i);
      if k: nat :| Ends(before, i, k) {
        assert Ends(es, i, k);
      } else if es[last].name == es[i].name && es[last].owner == es[i].owner {
        assert Ends(es, i, last);
      }
    }
  }

  /** At no time may two grants of one service be relied on: the intervals of different owners are disjoint. */
  lemma AtMostOneLeader(es: seq<Event>, i: nat, j: nat, t: nat)
    requires Chronological(es) && Relies(es, i, t) && Relies(es, j, t) && es[i].name == es[j].name
    ensures i == j
  {
    if i < j {
      EarlierGrantIsOver(es, i, j, t);
    } else if j < i {
      EarlierGrantIsOver(es, j, i, t);
    }
  }

  lemma EarlierGrantIsOver(es: seq<Event>, i: nat, j: nat, t: nat)
    requires Chronological(es) && i < j && Granted(es, i) && Granted(es, j) && es[i].name == es[j].name && es[j].now <= t
    ensures !Relies(es, i, t)
  {
    var before := es[..j];
    assert before[..i] == es[..i];
    GrantsAreRecorded(before, i);
    if k: nat :| Ends(before, i, k) {
      assert Ends(es, i, k) && es[k].now <= t;
    } else if es[i].owner == es[j].owner {
      assert Ends(es, i, j);
    }
  }

  // ----- How a lease changes owner -----

  /** Event `k`, at or after grant `i`, is a grant of the same service to the same owner. */
  predicate Renewal(es: seq<Event>, i: nat, k: nat)
    requires i < |es|
  {
    i <= k < |es| && Granted(es, k) && es[k].name == es[i].name && es[k].owner == es[i].owner
  }

  function Expiry(es: seq<Event>, k: nat): nat
    requires k < |es| && es[k].Acquire?
  {
    es[k].now + Term(es[k].seconds)
  }

  /** The owner of grant `i` gave the lease up after it. */
  predicate Released(es: seq<Event>, i: nat, k: nat)
    requires i < |es|
  {
    Ends(es, i, k) && es[k].Release?
  }

  /** What became of grant `i`: released, run out at its latest renewal, or still in the table under one of its renewals. */
  ghost predicate Accounted(es: seq<Event>, i: nat) {
    Granted(es, i) ==>
      || (exists k: nat :: Released(es, i, k))
      || (exists k: nat :: Renewal(es, i, k) && Expiry(es, k) <= es[|es| - 1].now)
      || (exists k: nat :: Renewal(es, i, k) && es[i].name in Run(es) && Run(es)[es[i].name] == Lease(es[i].owner, Expiry(es, k)))
  }

  lemma SameInPrefix(es: seq<Event>, n: nat, i: nat, k: nat)
    requires i < n <= |es| && k < n
    ensures Renewal(es[..n], i, k) <==> Renewal(es, i, k)
    ensures Released(es[..n], i, k) <==> Released(es, i, k)
    ensures Granted(es[..n], i) <==> Granted(es, i)
  {
    assert es[..n][..i] == es[..i] && es[..n][..k] == es[..k];
  }

  lemma {:induction false} GrantsAreAccounted(es: seq<Event>, i: nat)
    requires Chronological(es)
    ensures Accounted(es, i)
  {
    hide Chronological, Run, MayTake, Accounted;
    if Granted(es, i) && i < |es| - 1 {
      var last := |es| - 1;
      SameInPrefix(es, last, i, i);
      ChronologicalPrefix(es, last);
      GrantsAreAccounted(es[..last], i);
      AccountedNext(es, i);
    } else {
      JustGranted(es, i);
    }
  }

  lemma JustGranted(es: seq<Event>, i: nat)
    requires Granted(es, i) ==> i == |es| - 1
    ensures Accounted(es, i)
  {
    if Granted(es, i) {
      assert Renewal(es, i, i) && es[..|es| - 1] == es[..i];
    }
  }

  lemma AccountedNext(es: seq<Event>, i: nat)
    requires i < |es| - 1 && es[|es| - 2].now <= es[|es| - 1].now && Granted(es, i) && Accounted(es[..|es| - 1], i)
    ensures Accounted(es, i)
  {
    hide Run, MayTake;
    var last := |es| - 1;
    var before := es[..last];
    SameInPrefix(es, last, i, i);
    if k: nat :| Released(before, i, k) {
      SameInPrefix(es, last, i, k);
    } else if k: nat :| Renewal(before, i, k) && Expiry(before, k) <= before[last - 1].now {
      SameInPrefix(es, last, i, k);
      assert Expiry(es, k) <= es[last].now;
    } else {
      var k: nat :| Renewal(before, i, k) && es[i].name in Run(before) && Run(before)[es[i].name] == Lease(es[i].owner, Expiry(before, k));
      SameInPrefix(es, last, i, k);
      hide Renewal, Accounted;
      StillAccounted(es, i, k);
    }
  }

  lemma ChronologicalPrefix(es: seq<Event>, last: nat)
    requires Chronological(es) && 0 < last < |es|
    ensures Chronological(es[..last]) && es[last - 1].now <= es[last].now
  {
  }

  /** One more event, with the grant's row in the table before it. */
  lemma StillAccounted(es: seq<Event>, i: nat, k: nat)
    requires i < |es| - 1 && Granted(es, i) && Renewal(es, i, k) && k < |es| - 1
    requires var before := Run(es[..|es| - 1]); es[i].name in before && before[es[i].name] == Lease(es[i].owner, Expiry(es, k))
    ensures Accounted(es, i)
  {
    var last := |es| - 1;
    if es[last].name == es[i].name {
      if es[last].owner == es[i].owner {
        if es[last].Release? {
          assert Released(es, i, last);
        } else {
          assert Renewal(es, i, last);
        }
      } else if es[last].Acquire? && MayTake(Run(es[..last]), es[last].name, es[last].owner, es[last].now) {
        assert Renewal(es, i, k) && Expiry(es, k) <= es[last].now;
      }
    }
  }

  /**
   * Over every run: a service passes from one owner to another only after the first has released it,
   * or once one of its grants, at or after the given one, has run out.
   */
  lemma OwnerChangesOnlyAfterExpiry(es: seq<Event>, i: nat, j: nat)
    requires Chronological(es) && i < j && Granted(es, i) && Granted(es, j) && es[i].name == es[j].name && es[i].owner != es[j].owner
    ensures (exists k: nat :: k < j && Released(es, i, k)) || (exists k: nat :: k < j && Renewal(es, i, k) && Expiry(es, k) <= es[j].now)
  {
    hide Run;
    var before := es[..j];
    assert Chronological(before);
    hide Chronological;
    SameInPrefix(es, j, i, i);
    GrantsAreAccounted(before, i);
    if k: nat :| Released(before, i, k) {
      SameInPrefix(es, j, i, k);
    } else if k: nat :| Renewal(before, i, k) && Expiry(before, k) <= before[j - 1].now {
      SameInPrefix(es, j, i, k);
    } else {
      var k: nat :| Renewal(before, i, k) && es[i].name in Run(before) && Run(before)[es[i].name] == Lease(es[i].owner, Expiry(before, k));
      SameInPrefix(es, j, i, k);
      assert Expiry(es, k) <= es[j].now;
    }
  }

  /** Nobody gives the service up, and no owner's renewal ends earlier than its grants before it. */
  ghost predicate OnlyExtended(es: seq<Event>, name: string) {
    && (forall k :: 0 <= k < |es| && es[k].name == name ==> es[k].Acquire?)
    && (forall i: nat, k: nat :: i < |es| && Renewal(es, i, k) && Granted(es, i) && es[i].name == name ==> Expiry(es, i) <= Expiry(es, k))
  }

  /** Then the whole intervals granted, uncut, of different owners are disjoint. */
  lemma WholeIntervalsDisjoint(es: seq<Event>, i: nat, j: nat)
    requires Chronological(es) && i < j && Granted(es, i) && Granted(es, j) && es[i].name == es[j].name && es[i].owner != es[j].owner
    requires OnlyExtended(es, es[i].name)
    ensures Expiry(es, i) <= es[j].now
  {
    OwnerChangesOnlyAfterExpiry(es, i, j);
    if k: nat :| k < j && Released(es, i, k) {
      assert es[k].Acquire?;
    } else {
      var k: nat :| k < j && Renewal(es, i, k) && Expiry(es, k) <= es[j].now;
    }
  }

  /** A renewal for a shorter time cuts the owner's own earlier grant short: another owner may follow before its first expiry. */
  lemma ShorterRenewalExample()
    ensures var es := [Acquire("s", "a", 30, 0), Acquire("s", "a", 5, 1), Acquire("s", "b", 30, 6)];
            Chronological(es) && Granted(es, 0) && Granted(es, 1) && Granted(es, 2) && es[2].now < es[0].now + Term(es[0].seconds)
  {
    var es := [Acquire("s", "a", 30, 0), Acquire("s", "a", 5, 1), Acquire("s", "b", 30, 6)];
    assert es[..1] == [es[0]] && es[..2] == [es[0], es[1]];
    assert es[..1][..0] == [] && es[..2][..1] == es[..1];
    assert Run(es[..1]) == map["s" := Lease("a", 30)];
    assert Run(es[..2]) == map["s" := Lease("a", 6)];
  }
}
