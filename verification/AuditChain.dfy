/** The audit log: one hash chain per tenant, with two producers and a verifier. */
module AuditChain {
  import opened Wrappers

  // ----- Data -----

  datatype Json = Null | Flag(bool) | Number(int) | Text(string) | List(seq<Json>) | Object(map<string, Json>)

  /** The stored text of a row's details, told apart by what parsing makes of it. */
  datatype Details =
    | Canonical(value: Json)
    | Respelled(value: Json, spelling: string)
    | Malformed(text: string)
    | NoText

  /** `json_loads(text, {})`. */
  function Parsed(d: Details): Json {
    match d
    case Canonical(v) => v
    case Respelled(v, _) => v
    case Malformed(_) => Object(map[])
    case NoText => Object(map[])
  }

  /** A hash column: empty, a digest of some material, or any other text. SHA-256 is free of collisions here. */
  datatype Hash = Blank | Sha(material: Material) | OtherText(text: string)

  datatype Material = Material(
    tenant: string, actor: string, action: string, targetType: string, targetId: string,
    details: Json, prev: Hash, created: string)

  /** A row of `audit_events2`; tables list their rows by ascending id. */
  datatype Row = Row(
    id: nat, tenant: string, actor: string, action: string, targetType: string, targetId: string,
    details: Details, prev: Hash, hash: Hash, created: string)

  /** What the chain protects of a row: all but the id and the spelling of the details. */
  function Content(r: Row): Material {
    Material(r.tenant, r.actor, r.action, r.targetType, r.targetId, Parsed(r.details), r.prev, r.created)
  }

  function Digest(r: Row, prev: Hash): Hash {
    Sha(Content(r).(prev := prev))
  }

  // ----- Chains -----

  /** `SELECT * ... WHERE tenant_id=? ORDER BY id`. */
  function Chain(rows: seq<Row>, tenant: string): seq<Row> {
    if rows == [] then []
    else
      var front, last := Chain(rows[..|rows| - 1], tenant), rows[|rows| - 1];
      if last.tenant == tenant then front + [last] else front
  }

  function Head(chain: seq<Row>): Hash {
    if chain == [] then Blank else chain[|chain| - 1].hash
  }

  predicate Links(r: Row, prev: Hash) {
    r.prev == prev && r.hash == Digest(r, prev)
  }

  predicate Verified(chain: seq<Row>) {
    chain == [] || (Verified(chain[..|chain| - 1]) && Links(chain[|chain| - 1], Head(chain[..|chain| - 1])))
  }

  /** The events an application or the migration asks to record. */
  datatype Entry = Entry(tenant: string, actor: string, action: string, targetType: string, targetId: string, details: Json, created: string)

  function NewRow(id: nat, e: Entry, prev: Hash): Row {
    var r := Row(id, e.tenant, e.actor, e.action, e.targetType, e.targetId, Canonical(e.details), prev, Blank, e.created);
    r.(hash := Digest(r, prev))
  }

  /** A row of the first version's `audit_events`; absent columns fall back to fixed texts. */
  datatype LegacyRow = LegacyRow(
    actor: Option<string>, action: Option<string>, targetType: Option<string>, targetId: Option<string>,
    details: Details, created: Option<string>)

  function Or(x: Option<string>, default: string): string {
    if x.Some? then x.value else default
  }

  function LegacyEntry(tenant: string, r: LegacyRow, now: string): Entry {
    Entry(tenant, Or(r.actor, "legacy"), Or(r.action, "legacy.event"), Or(r.targetType, "legacy"), Or(r.targetId, ""),
          Parsed(r.details), Or(r.created, now))
  }

  // ----- The log -----

  datatype Verdict = Intact(events: nat, head: Hash) | Broken(count: nat, badId: nat)

  datatype Event = Append(e: Entry, id: nat) | MigrateRow(tenant: string, row: LegacyRow, now: string, id: nat)

  function Step(rows: seq<Row>, event: Event): seq<Row> {
    var e := match event
      case Append(e, _) => e
      case MigrateRow(tenant, row, now, _) => LegacyEntry(tenant, row, now);
    rows + [NewRow(event.id, e, Head(Chain(rows, e.tenant)))]
  }

  /** The migration, row by row. */
  function MigrateAll(rows: seq<Row>, tenant: string, legacy: seq<LegacyRow>, now: string, firstId: nat): seq<Row> {
    if legacy == [] then rows
    else
      var last := |legacy| - 1;
      Step(MigrateAll(rows, tenant, legacy[..last], now, firstId), MigrateRow(tenant, legacy[last], now, firstId + last))
  }

  class Log {
    var rows: seq<Row>
    var nextId: nat

    constructor ()
      ensures rows == []
    {
      rows := [];
      nextId := 1;
    }

    /** The latest hash of a tenant: `ORDER BY id DESC LIMIT 1`. */
    method LatestHash(tenant: string) returns (hash: Hash)
      ensures hash == Head(Chain(rows, tenant))
    {
      var i := |rows|;
      assert rows[..i] == rows;
      while i > 0
        invariant 0 <= i <= |rows|
        invariant Chain(rows, tenant) == Chain(rows[..i], tenant)
      {
        assert rows[..i][..i - 1] == rows[..i - 1];
        if rows[i - 1].tenant == tenant {
          return rows[i - 1].hash;
        }
        i := i - 1;
      }
      hash := Blank;
    }

    /** `audit`. */
    method Audit(tenant: string, actor: string, action: string, targetType: string, targetId: string,
                 details: Option<map<string, Json>>, now: string) returns (hash: Hash)
      modifies this
      ensures var e := Entry(tenant, actor, action, targetType, targetId, Object(if details.Some? then details.value else map[]), now);
              rows == Step(old(rows), Append(e, old(nextId))) && hash == Head(Chain(rows, tenant))
    {
      var e := Entry(tenant, actor, action, targetType, targetId, Object(if details.Some? then details.value else map[]), now);
      var prev := LatestHash(tenant);
      var row := NewRow(nextId, e, prev);
      AppendExtendsOwnChain(rows, row);
      rows := rows + [row];
      nextId := nextId + 1;
      hash := row.hash;
    }

    /** The re-chaining loop of the migration: it reads the head once and then carries it forward. */
    method Migrate(tenant: string, legacy: seq<LegacyRow>, now: string)
      modifies this
      ensures rows == MigrateAll(old(rows), tenant, legacy, now, old(nextId))
    {
      hide Chain, Digest;
      var prev := LatestHash(tenant);
      ghost var before, firstId := rows, nextId;
      var i := 0;
      while i < |legacy|
        invariant 0 <= i <= |legacy| && nextId == firstId + i
        invariant rows == MigrateAll(before, tenant, legacy[..i], now, firstId)
        invariant prev == Head(Chain(rows, tenant))
      {
        assert legacy[..i + 1][..i] == legacy[..i];
        var row := NewRow(nextId, LegacyEntry(tenant, legacy[i], now), prev);
        AppendExtendsOwnChain(rows, row);
        rows := rows + [row];
        nextId := nextId + 1;
        prev := row.hash;
        i := i + 1;
      }
      assert legacy[..i] == legacy;
    }

    /** `verify_audit_chain`: the head of an intact chain, or the id of the first row that does not link. */
    method VerifyAuditChain(tenant: string) returns (v: Verdict)
      ensures v.Intact? <==> Verified(Chain(rows, tenant))
      ensures v.Intact? ==> v.events == |Chain(rows, tenant)| && v.head == Head(Chain(rows, tenant))
      ensures v.Broken? ==>
                var chain := Chain(rows, tenant);
                v.count == |chain| && exists k :: 0 <= k < |chain| && chain[k].id == v.badId && Verified(chain[..k]) && !Verified(chain[..k + 1])
    {
      var chain := Chain(rows, tenant);
      var prev := Blank;
      var i := 0;
      while i < |chain|
        invariant 0 <= i <= |chain|
        invariant Verified(chain[..i]) && prev == Head(chain[..i])
      {
        assert chain[..i + 1][..i] == chain[..i];
        if chain[i].prev != prev || chain[i].hash != Digest(chain[i], prev) {
          BrokenPrefix(chain, i + 1);
          return Broken(|chain|, chain[i].id);
        }
        prev := chain[i].hash;
        i := i + 1;
      }
      assert chain[..i] == chain;
      v := Intact(|chain|, prev);
    }
  }

  lemma AppendExtendsOwnChain(rows: seq<Row>, row: Row)
    ensures Chain(rows + [row], row.tenant) == Chain(rows, row.tenant) + [row]
    ensures forall other :: other != row.tenant ==> Chain(rows + [row], other) == Chain(rows, other)
  {
    assert (rows + [row])[..|rows + [row]| - 1] == rows;
  }

  lemma {:induction false} PrefixVerified(chain: seq<Row>, k: nat)
    requires k <= |chain| && Verified(chain)
    ensures Verified(chain[..k])
    decreases |chain|
  {
    if k == |chain| {
      assert chain[..k] == chain;
    } else {
      assert chain[..|chain| - 1][..k] == chain[..k];
      PrefixVerified(chain[..|chain| - 1], k);
    }
  }

  lemma BrokenPrefix(chain: seq<Row>, k: nat)
    requires k <= |chain| && !Verified(chain[..k])
    ensures !Verified(chain)
  {
    if Verified(chain) {
      PrefixVerified(chain, k);
    }
  }

  // ----- Appending keeps every chain intact -----

  function Run(events: seq<Event>): seq<Row> {
    if events == [] then [] else Step(Run(events[..|events| - 1]), events[|events| - 1])
  }

  /** Every interleaving of the two producers, over any tenants, verifies for every tenant. */
  lemma {:induction false} EveryChainVerifies(events: seq<Event>, tenant: string)
    ensures Verified(Chain(Run(events), tenant))
  {
    if events != [] {
      var before := Run(events[..|events| - 1]);
      EveryChainVerifies(events[..|events| - 1], tenant);
      var after := Run(events);
      var row := after[|after| - 1];
      AppendExtendsOwnChain(before, row);
      if row.tenant == tenant {
        assert Chain(after, tenant)[..|Chain(after, tenant)| - 1] == Chain(before, tenant);
      } else {
        assert Chain(before + [row], tenant) == Chain(before, tenant);
      }
    }
  }

  function MigrationEvents(tenant: string, legacy: seq<LegacyRow>, now: string, firstId: nat): seq<Event> {
    seq(|legacy|, i requires 0 <= i < |legacy| => MigrateRow(tenant, legacy[i], now, firstId + i))
  }

  lemma {:induction false} MigrationIsARun(events: seq<Event>, tenant: string, legacy: seq<LegacyRow>, now: string, firstId: nat)
    ensures MigrateAll(Run(events), tenant, legacy, now, firstId) == Run(events + MigrationEvents(tenant, legacy, now, firstId))
  {
    hide Step;
    var more := MigrationEvents(tenant, legacy, now, firstId);
    if legacy == [] {
      assert events + more == events;
    } else {
      var last := |legacy| - 1;
      MigrationIsARun(events, tenant, legacy[..last], now, firstId);
      assert more[..last] == MigrationEvents(tenant, legacy[..last], now, firstId);
      assert (events + more)[..|events + more| - 1] == events + more[..last];
    }
  }

  // ----- What rows record -----

  /** The last row is that of the tenant, with these columns, linked to the head of the tenant's chain. */
  ghost predicate Records(before: seq<Row>, after: seq<Row>, id: nat, tenant: string, actor: string, action: string,
                          targetType: string, targetId: string, details: Json, created: string) {
    && |after| == |before| + 1 && after[..|before|] == before
    && var row := after[|before|];
       && row.id == id && row.tenant == tenant && row.actor == actor && row.action == action
       && row.targetType == targetType && row.targetId == targetId && Parsed(row.details) == details && row.created == created
       && row.prev == Head(Chain(before, tenant)) && Chain(after, tenant) == Chain(before, tenant) + [row]
       && forall other :: other != tenant ==> Chain(after, other) == Chain(before, other)
  }

  /** An appended row records what it was asked to. */
  lemma AppendRecords(rows: seq<Row>, e: Entry, id: nat)
    ensures Records(rows, Step(rows, Append(e, id)), id, e.tenant, e.actor, e.action, e.targetType, e.targetId, e.details, e.created)
  {
    var after := Step(rows, Append(e, id));
    AppendExtendsOwnChain(rows, after[|rows|]);
  }

  /** A migrated row records the columns of the old one, with a fixed text for each absent one. */
  lemma MigratedRecords(rows: seq<Row>, tenant: string, legacy: LegacyRow, now: string, id: nat)
    ensures Records(rows, Step(rows, MigrateRow(tenant, legacy, now, id)), id, tenant,
                    match legacy.actor { case Some(x) => x case None => "legacy" },
                    match legacy.action { case Some(x) => x case None => "legacy.event" },
                    match legacy.targetType { case Some(x) => x case None => "legacy" },
                    match legacy.targetId { case Some(x) => x case None => "" },
                    match legacy.details {
                      case Canonical(v) => v
                      case Respelled(v, _) => v
                      case Malformed(_) => Object(map[])
                      case NoText => Object(map[])
                    },
                    match legacy.created { case Some(x) => x case None => now })
  {
    var after := Step(rows, MigrateRow(tenant, legacy, now, id));
    AppendExtendsOwnChain(rows, after[|rows|]);
  }

  // ----- What the head commits to -----

  /** Equal columns, but for the id and the spelling of the details. */
  predicate SameRow(a: Row, b: Row) {
    && a.tenant == b.tenant && a.actor == b.actor && a.action == b.action && a.targetType == b.targetType && a.targetId == b.targetId
    && Parsed(a.details) == Parsed(b.details) && a.prev == b.prev && a.created == b.created && a.hash == b.hash
  }

  /** Two intact chains with one head have the same rows, up to ids and the spelling of the details. */
  lemma {:induction false} HeadDeterminesChain(a: seq<Row>, b: seq<Row>)
    requires Verified(a) && Verified(b) && Head(a) == Head(b)
    ensures |a| == |b| && forall i :: 0 <= i < |a| ==> SameRow(a[i], b[i])
  {
    if a != [] && b != [] {
      HeadDeterminesChain(a[..|a| - 1], b[..|b| - 1]);
    }
  }

  /** And no more than that: changing ids or spellings is never noticed. */
  lemma {:induction false} SameContentVerifies(a: seq<Row>, b: seq<Row>)
    requires |a| == |b| && forall i :: 0 <= i < |a| ==> SameRow(a[i], b[i])
    ensures Verified(a) <==> Verified(b)
    ensures Head(a) == Head(b)
  {
    if a != [] {
      SameContentVerifies(a[..|a| - 1], b[..|b| - 1]);
    }
  }

  /**
   * A head recorded earlier: whatever was done to the table since, if it verifies and the recorded
   * head is still the hash of some row, then all rows up to that one are as they were.
   */
  lemma RecordedHeadProtectsHistory(before: seq<Row>, after: seq<Row>, tenant: string, k: nat)
    requires Verified(Chain(before, tenant)) && Verified(Chain(after, tenant))
    requires k < |Chain(after, tenant)| && Chain(after, tenant)[k].hash == Head(Chain(before, tenant))
    ensures |Chain(before, tenant)| == k + 1
    ensures forall i :: 0 <= i <= k ==> SameRow(Chain(after, tenant)[i], Chain(before, tenant)[i])
  {
    hide Chain, Verified;
    var chain := Chain(after, tenant);
    PrefixVerified(chain, k + 1);
    HeadDeterminesChain(Chain(before, tenant), chain[..k + 1]);
  }
}
