/** Scheduled and event-driven dispatch: idempotency keys make a repeated tick harmless. */
module Dispatch {
  import opened Wrappers

  datatype Kind = Agent | Workflow

  /** The idempotency keys of `tick`: one per schedule slot, one per event and rule. */
  datatype Key = Slot(schedule: string, at: nat) | Matched(event: nat, rule: string)

  /** What the request hash covers: the target with its payload, and for a workflow its version. */
  datatype Request = Request(body: string, version: nat)

  /** One call of `_dispatch`. */
  datatype Order = Order(tenant: string, kind: Kind, actor: string, key: Key, request: Request)

  /** The unique key under which a target remembers an order: tasks by tenant, actor and key, workflow runs by tenant and key. */
  datatype Name = TaskName(tenant: string, actor: string, key: Key) | RunName(tenant: string, key: Key)

  function NameOf(o: Order): Name {
    if o.kind == Agent then TaskName(o.tenant, o.actor, o.key) else RunName(o.tenant, o.key)
  }

  datatype EventStatus = Pending | Processed | Failed

  datatype EventRow = EventRow(tenant: string, source: string, status: EventStatus, attempts: nat)

  datatype RowId = RowId(tenant: string, id: string)

  /** Rows of `schedules3` and `event_rules3`: when they fire is left to the reader, `body` is what they dispatch. */
  datatype Schedule = Schedule(enabled: bool, kind: Kind, body: string, nextRun: nat)
  datatype Rule = Rule(kind: Kind, body: string)

  /** A schedule as a tick read it when it was due; a tick may hold on to it for any time. */
  datatype SlotRead = SlotRead(id: RowId, at: nat, kind: Kind, body: string)

  /** A rule as a tick read it for an event. */
  datatype RuleRead = RuleRead(event: nat, rule: string, kind: Kind, body: string)

  /**
   * `created` lists the tasks and runs dispatches created, in order; `slots` and `matches` are all
   * the rows ticks have read.
   */
  datatype Tables = Tables(
    names: map<Name, Request>, created: seq<Order>, events: map<nat, EventRow>,
    schedules: map<RowId, Schedule>, rules: map<RowId, Rule>, slots: set<SlotRead>, matches: set<RuleRead>)

  const EMPTY := Tables(map[], [], map[], map[], map[], {}, {})

  datatype DispatchError = Refused | KeyReused

  /** `_dispatch`: a check that may refuse, then an insert unless the key is known. */
  function Submit(t: Tables, o: Order, refused: bool): Result<Tables, DispatchError> {
    if refused then Failure(Refused)
    else if NameOf(o) in t.names then
      if t.names[NameOf(o)] == o.request then Success(t) else Failure(KeyReused)
    else Success(t.(names := t.names[NameOf(o) := o.request], created := t.created + [o]))
  }

  function Submitted(t: Tables, o: Order, refused: bool): Tables {
    match Submit(t, o, refused)
    case Success(t') => t'
    case Failure(_) => t
  }

  // ----- Histories -----

  /**
   * The statements of ticks and of the API. A tick that stops anywhere, a second one that starts
   * over, and ticks that overlap are all sequences of these. A next run is computed from the time of
   * its write and lies after it.
   */
  datatype Event =
    | Emit(event: nat, tenant: string, source: string)
    | PutSchedule(id: RowId, row: Schedule, now: nat)
    | MarkRun(id: RowId, next: nat, now: nat)
    | ReadDue(id: RowId, now: nat)
    | ForSlot(slot: SlotRead, version: nat, refused: bool)
    | PutRule(id: RowId, rule: Rule)
    | ReadRule(event: nat, ruleId: string)
    | ForRule(ruleRead: RuleRead, version: nat, refused: bool)
    | FinishEvent(event: nat, ok: bool)

  function RequestOf(kind: Kind, body: string, version: nat): Request {
    Request(body, if kind == Agent then 0 else version)
  }

  function SlotOrder(slot: SlotRead, version: nat): Order {
    Order(slot.id.tenant, slot.kind, "scheduler", Slot(slot.id.id, slot.at), RequestOf(slot.kind, slot.body, version))
  }

  function RuleOrder(row: EventRow, m: RuleRead, version: nat): Order {
    Order(row.tenant, m.kind, "event:" + row.source, Matched(m.event, m.rule), RequestOf(m.kind, m.body, version))
  }

  /** A dispatch that can happen: of a row that was read. */
  predicate Dispatches(t: Tables, e: Event) {
    (e.ForSlot? && e.slot in t.slots) || (e.ForRule? && e.ruleRead in t.matches && e.ruleRead.event in t.events)
  }

  function OrderOf(t: Tables, e: Event): Order
    requires Dispatches(t, e)
  {
    if e.ForSlot? then SlotOrder(e.slot, e.version) else RuleOrder(t.events[e.ruleRead.event], e.ruleRead, e.version)
  }

  predicate Due(t: Tables, id: RowId, now: nat) {
    id in t.schedules && t.schedules[id].enabled && t.schedules[id].nextRun <= now
  }

  function Finished(row: EventRow, ok: bool): EventRow {
    row.(status := if ok then Processed else Failed, attempts := row.attempts + 1)
  }

  function Step(t: Tables, e: Event): Tables {
    match e
    case Emit(id, tenant, source) => if id in t.events then t else t.(events := t.events[id := EventRow(tenant, source, Pending, 0)])
    case PutSchedule(id, row, now) => if row.nextRun <= now then t else t.(schedules := t.schedules[id := row])
    case MarkRun(id, next, now) =>
      if id !in t.schedules || next <= now then t else t.(schedules := t.schedules[id := t.schedules[id].(nextRun := next)])
    case ReadDue(id, now) =>
      if !Due(t, id, now) then t
      else t.(slots := t.slots + {SlotRead(id, t.schedules[id].nextRun, t.schedules[id].kind, t.schedules[id].body)})
    case PutRule(id, rule) => t.(rules := t.rules[id := rule])
    case ReadRule(event, id) =>
      if event !in t.events || RowId(t.events[event].tenant, id) !in t.rules then t
      else
        var rule := t.rules[RowId(t.events[event].tenant, id)];
        t.(matches := t.matches + {RuleRead(event, id, rule.kind, rule.body)})
    case FinishEvent(id, ok) => if id !in t.events then t else t.(events := t.events[id := Finished(t.events[id], ok)])
    case _ => if Dispatches(t, e) then Submitted(t, OrderOf(t, e), e.refused) else t
  }

  function Steps(t: Tables, es: seq<Event>): Tables {
    if es == [] then t else Step(Steps(t, es[..|es| - 1]), es[|es| - 1])
  }

  lemma OneStep(t: Tables, es: seq<Event>, e: Event)
    ensures Steps(t, es + [e]) == Step(Steps(t, es), e)
  {
    assert (es + [e])[..|es + [e]| - 1] == es;
  }

  // ----- Keys and rows -----

  /** Who dispatches under a key is fixed: the scheduler for slots, the event's source for matches. */
  predicate OwnActor(t: Tables, o: Order) {
    match o.key
    case Slot(_, _) => o.actor == "scheduler"
    case Matched(event, _) =>
      event in t.events && o.tenant == t.events[event].tenant && o.actor == "event:" + t.events[event].source
  }

  /** The row a tick read before it created this. */
  predicate ReadBefore(t: Tables, o: Order) {
    match o.key
    case Slot(schedule, at) => SlotRead(RowId(o.tenant, schedule), at, o.kind, o.request.body) in t.slots
    case Matched(event, rule) => RuleRead(event, rule, o.kind, o.request.body) in t.matches
  }

  predicate Sound(t: Tables, o: Order) {
    OwnActor(t, o) && ReadBefore(t, o) && (o.kind == Agent ==> o.request.version == 0)
  }

  ghost predicate Remembered(t: Tables, name: Name) {
    name in t.names && exists i :: 0 <= i < |t.created| && NameOf(t.created[i]) == name && t.created[i].request == t.names[name]
  }

  ghost predicate Inv(t: Tables) {
    && (forall i :: 0 <= i < |t.created| ==> Sound(t, t.created[i]) && NameOf(t.created[i]) in t.names)
    && (forall name :: name in t.names ==> Remembered(t, name))
    && (forall i, j :: 0 <= i < j < |t.created| ==> NameOf(t.created[i]) != NameOf(t.created[j]))
  }

  lemma SubmitLeavesReads(t: Tables, o: Order, refused: bool)
    ensures var t' := Submitted(t, o, refused);
            t'.events == t.events && t'.schedules == t.schedules && t'.rules == t.rules && t'.slots == t.slots && t'.matches == t.matches
    ensures refused ==> Submit(t, o, refused).Failure?
  {
  }

  lemma SameReads(t: Tables, t': Tables)
    requires t.events == t'.events && t.slots == t'.slots && t.matches == t'.matches
    ensures forall o :: Sound(t, o) == Sound(t', o)
  {
  }

  lemma SubmitKeepsInv(t: Tables, o: Order, refused: bool)
    requires Inv(t) && Sound(t, o)
    ensures Inv(Submitted(t, o, refused))
  {
    hide Sound;
    var t' := Submitted(t, o, refused);
    SubmitLeavesReads(t, o, refused);
    SameReads(t, t');
    if t' != t {
      forall name | name in t'.names
        ensures Remembered(t', name)
      {
        if name == NameOf(o) {
          assert t'.created[|t.created|] == o;
        } else {
          assert Remembered(t, name);
          var i :| 0 <= i < |t.created| && NameOf(t.created[i]) == name && t.created[i].request == t.names[name];
          assert t'.created[i] == t.created[i];
        }
      }
    }
  }

  ghost predicate KeepsReads(t: Tables, t': Tables) {
    && (forall id :: id in t.events ==> id in t'.events && t'.events[id].tenant == t.events[id].tenant && t'.events[id].source == t.events[id].source)
    && t.slots <= t'.slots && t.matches <= t'.matches
  }

  lemma SameCreatedKeepsInv(t: Tables, t': Tables)
    requires Inv(t) && t'.created == t.created && t'.names == t.names && KeepsReads(t, t')
    ensures Inv(t')
  {
    forall i | 0 <= i < |t.created|
      ensures Sound(t', t.created[i])
    {
      assert Sound(t, t.created[i]);
    }
    forall name | name in t'.names
      ensures Remembered(t', name)
    {
      assert Remembered(t, name);
    }
  }

  lemma OtherStep(t: Tables, e: Event)
    requires !e.ForSlot? && !e.ForRule?
    ensures Step(t, e).created == t.created && Step(t, e).names == t.names && KeepsReads(t, Step(t, e))
  {
  }

  lemma DispatchStep(t: Tables, e: Event)
    requires e.ForSlot? || e.ForRule?
    ensures Step(t, e) == if Dispatches(t, e) then Submitted(t, OrderOf(t, e), e.refused) else t
    ensures Dispatches(t, e) ==> Sound(t, OrderOf(t, e))
  {
    hide Submitted;
  }

  lemma StepKeepsInv(t: Tables, e: Event)
    requires Inv(t)
    ensures Inv(Step(t, e)) && KeepsReads(t, Step(t, e))
  {
    hide Inv, Submitted, Step, Sound;
    if e.ForSlot? || e.ForRule? {
      DispatchStep(t, e);
      if Dispatches(t, e) {
        SubmitKeepsInv(t, OrderOf(t, e), e.refused);
        SubmitLeavesReads(t, OrderOf(t, e), e.refused);
      }
    } else {
      OtherStep(t, e);
      SameCreatedKeepsInv(t, Step(t, e));
    }
  }

  lemma {:induction false} StepsInv(es: seq<Event>)
    ensures Inv(Steps(EMPTY, es))
  {
    if es != [] {
      hide Inv, Step;
      StepsInv(es[..|es| - 1]);
      StepKeepsInv(Steps(EMPTY, es[..|es| - 1]), es[|es| - 1]);
    } else {
      assert Inv(EMPTY);
    }
  }

  /** Over every history, crashes and overlaps included: two dispatches created under one key differ in kind. */
  lemma OneDispatchPerKeyAndKind(es: seq<Event>, i: nat, j: nat)
    requires i < j < |Steps(EMPTY, es).created|
    requires var created := Steps(EMPTY, es).created; created[i].tenant == created[j].tenant && created[i].key == created[j].key
    ensures Steps(EMPTY, es).created[i].kind != Steps(EMPTY, es).created[j].kind
  {
    StepsInv(es);
    var t := Steps(EMPTY, es);
    assert Sound(t, t.created[i]) && Sound(t, t.created[j]);
    assert NameOf(t.created[i]) != NameOf(t.created[j]);
  }

  // ----- What is dispatched -----

  /** Event `i` of the history read this slot: the schedule was enabled, its time had come, and this was its row. */
  ghost predicate ReadWhenDue(es: seq<Event>, i: nat, slot: SlotRead) {
    && i < |es| && es[i].ReadDue? && es[i].id == slot.id
    && var t := Steps(EMPTY, es[..i]);
       && slot.id in t.schedules && t.schedules[slot.id].enabled && t.schedules[slot.id].nextRun == slot.at <= es[i].now
       && t.schedules[slot.id].kind == slot.kind && t.schedules[slot.id].body == slot.body
  }

  lemma NewSlot(t: Tables, e: Event, slot: SlotRead)
    requires slot in Step(t, e).slots && slot !in t.slots
    ensures e.ReadDue? && e.id == slot.id
    ensures slot.id in t.schedules && t.schedules[slot.id].enabled && t.schedules[slot.id].nextRun == slot.at <= e.now
    ensures t.schedules[slot.id].kind == slot.kind && t.schedules[slot.id].body == slot.body
  {
    hide Submitted;
    if Dispatches(t, e) {
      SubmitLeavesReads(t, OrderOf(t, e), e.refused);
    }
  }

  lemma {:induction false} SlotsWereDue(es: seq<Event>, slot: SlotRead) returns (i: nat)
    requires slot in Steps(EMPTY, es).slots
    ensures ReadWhenDue(es, i, slot)
  {
    hide Step;
    var last := |es| - 1;
    var front := es[..last];
    if slot in Steps(EMPTY, front).slots {
      i := SlotsWereDue(front, slot);
      assert front[..i] == es[..i];
    } else {
      NewSlot(Steps(EMPTY, front), es[last], slot);
      i := last;
    }
  }

  /** Whatever was dispatched for a slot was read from an enabled schedule whose time had come. */
  lemma DispatchedWasDue(es: seq<Event>, k: nat) returns (i: nat)
    requires k < |Steps(EMPTY, es).created| && Steps(EMPTY, es).created[k].key.Slot?
    ensures var o := Steps(EMPTY, es).created[k];
            ReadWhenDue(es, i, SlotRead(RowId(o.tenant, o.key.schedule), o.key.at, o.kind, o.request.body)) && o.actor == "scheduler"
  {
    StepsInv(es);
    var t := Steps(EMPTY, es);
    hide Steps;
    var o := t.created[k];
    assert Sound(t, o);
    i := SlotsWereDue(es, SlotRead(RowId(o.tenant, o.key.schedule), o.key.at, o.kind, o.request.body));
  }

  /** Nothing exists under the key yet. */
  ghost predicate Fresh(t: Tables, tenant: string, key: Key) {
    forall i :: 0 <= i < |t.created| ==> t.created[i].tenant != tenant || t.created[i].key != key
  }

  lemma FreshName(t: Tables, o: Order)
    requires Inv(t) && Fresh(t, o.tenant, o.key)
    ensures NameOf(o) !in t.names
  {
    hide Inv, NameOf;
    if NameOf(o) in t.names {
      var i := CreatedUnder(t, NameOf(o));
      SameName(t.created[i], o);
      assert false;
    }
  }

  lemma CreatedUnder(t: Tables, name: Name) returns (i: nat)
    requires Inv(t) && name in t.names
    ensures i < |t.created| && NameOf(t.created[i]) == name && t.created[i].request == t.names[name]
  {
    assert Remembered(t, name);
    i :| 0 <= i < |t.created| && NameOf(t.created[i]) == name && t.created[i].request == t.names[name];
  }

  lemma SameName(a: Order, b: Order)
    requires NameOf(a) == NameOf(b)
    ensures a.tenant == b.tenant && a.key == b.key && a.kind == b.kind
  {
  }

  /** A dispatch raises exactly when a check refuses it, or its key stands for the same kind with another request. */
  lemma DispatchRaisesIff(es: seq<Event>, e: Event)
    requires Dispatches(Steps(EMPTY, es), e)
    ensures var t := Steps(EMPTY, es); var o := OrderOf(t, e);
            Submit(t, o, e.refused).Failure? <==>
              e.refused || exists k :: 0 <= k < |t.created| && Under(t.created[k], o.tenant, o.key, o.kind) && t.created[k].request != o.request
  {
    var t := Steps(EMPTY, es);
    var o := OrderOf(t, e);
    StepsInv(es);
    hide Steps;
    DispatchStep(t, e);
    forall k | 0 <= k < |t.created| && Under(t.created[k], o.tenant, o.key, o.kind)
      ensures NameOf(o) in t.names && t.names[NameOf(o)] == t.created[k].request
    {
      UnderIsNamed(t, k, o);
    }
    hide Inv, Dispatches, OrderOf;
    if NameOf(o) in t.names && t.names[NameOf(o)] != o.request {
      var i := CreatedUnder(t, NameOf(o));
      SameName(t.created[i], o);
      assert Under(t.created[i], o.tenant, o.key, o.kind);
    }
  }

  lemma UnderIsNamed(t: Tables, k: nat, o: Order)
    requires Inv(t) && k < |t.created| && Sound(t, o) && Under(t.created[k], o.tenant, o.key, o.kind)
    ensures NameOf(o) in t.names && t.names[NameOf(o)] == t.created[k].request
  {
    assert Sound(t, t.created[k]);
    assert NameOf(t.created[k]) == NameOf(o);
    var i := CreatedUnder(t, NameOf(o));
    assert i == k;
  }

  /** An enabled schedule whose time has come is dispatched, once read and not refused: its target, its payload, under the key of its slot. */
  lemma DueIsDispatched(es: seq<Event>, id: RowId, now: nat, version: nat)
    requires var t := Steps(EMPTY, es);
             && id in t.schedules && t.schedules[id].enabled && t.schedules[id].nextRun <= now
             && Fresh(t, id.tenant, Slot(id.id, t.schedules[id].nextRun))
    ensures var row := Steps(EMPTY, es).schedules[id];
            var all := es + [ReadDue(id, now)] + [ForSlot(SlotRead(id, row.nextRun, row.kind, row.body), version, false)];
            Steps(EMPTY, all).created == Steps(EMPTY, es).created +
              [Order(id.tenant, row.kind, "scheduler", Slot(id.id, row.nextRun), Request(row.body, if row.kind == Agent then 0 else version))]
  {
    var t := Steps(EMPTY, es);
    var row := t.schedules[id];
    var slot := SlotRead(id, row.nextRun, row.kind, row.body);
    StepsInv(es);
    OneStep(EMPTY, es, ReadDue(id, now));
    OneStep(EMPTY, es + [ReadDue(id, now)], ForSlot(slot, version, false));
    hide Steps, Inv;
    FreshName(t, SlotOrder(slot, version));
  }

  /** A rule read for an event is dispatched in the same way, for the event's tenant and source and under the key of event and rule. */
  lemma MatchIsDispatched(es: seq<Event>, event: nat, ruleId: string, version: nat)
    requires var t := Steps(EMPTY, es);
             event in t.events && RowId(t.events[event].tenant, ruleId) in t.rules && Fresh(t, t.events[event].tenant, Matched(event, ruleId))
    ensures var t := Steps(EMPTY, es);
            var row, rule := t.events[event], t.rules[RowId(t.events[event].tenant, ruleId)];
            var all := es + [ReadRule(event, ruleId)] + [ForRule(RuleRead(event, ruleId, rule.kind, rule.body), version, false)];
            Steps(EMPTY, all).created == t.created +
              [Order(row.tenant, rule.kind, "event:" + row.source, Matched(event, ruleId), Request(rule.body, if rule.kind == Agent then 0 else version))]
  {
    var t := Steps(EMPTY, es);
    var row, rule := t.events[event], t.rules[RowId(t.events[event].tenant, ruleId)];
    var read := RuleRead(event, ruleId, rule.kind, rule.body);
    StepsInv(es);
    OneStep(EMPTY, es, ReadRule(event, ruleId));
    OneStep(EMPTY, es + [ReadRule(event, ruleId)], ForRule(read, version, false));
    hide Steps, Inv;
    FreshName(t, RuleOrder(row, read, version));
  }

  // ----- Twice: the exact condition -----

  predicate Under(o: Order, tenant: string, key: Key, kind: Kind) {
    o.tenant == tenant && o.key == key && o.kind == kind
  }

  /** Event `i` sent a dispatch under the key with this kind, and no check refused it. */
  predicate SentAt(es: seq<Event>, i: nat, tenant: string, key: Key, kind: Kind) {
    && i < |es| && Dispatches(Steps(EMPTY, es[..i]), es[i]) && !es[i].refused
    && Under(OrderOf(Steps(EMPTY, es[..i]), es[i]), tenant, key, kind)
  }

  ghost predicate Sent(es: seq<Event>, tenant: string, key: Key, kind: Kind) {
    exists i: nat :: SentAt(es, i, tenant, key, kind)
  }

  ghost predicate Exists(t: Tables, tenant: string, key: Key, kind: Kind) {
    exists i :: 0 <= i < |t.created| && Under(t.created[i], tenant, key, kind)
  }

  /** Unless it is refused, what a dispatch stands for exists after it: created now, or before under the same key, even when the key answers with an error. */
  lemma DispatchedExists(t: Tables, o: Order)
    requires Inv(t) && Sound(t, o)
    ensures Exists(Submitted(t, o, false), o.tenant, o.key, o.kind)
  {
    if NameOf(o) in t.names {
      assert Remembered(t, NameOf(o));
      var i :| 0 <= i < |t.created| && NameOf(t.created[i]) == NameOf(o) && t.created[i].request == t.names[NameOf(o)];
      assert Under(t.created[i], o.tenant, o.key, o.kind);
    } else {
      assert Under((t.created + [o])[|t.created|], o.tenant, o.key, o.kind);
    }
  }

  lemma StepExists(t: Tables, e: Event, tenant: string, key: Key, kind: Kind)
    requires Inv(t)
    ensures Exists(Step(t, e), tenant, key, kind) <==>
            Exists(t, tenant, key, kind) || (Dispatches(t, e) && !e.refused && Under(OrderOf(t, e), tenant, key, kind))
  {
    hide Inv, Step, Sound, Submitted, Exists;
    if e.ForSlot? || e.ForRule? {
      DispatchStep(t, e);
      if Dispatches(t, e) {
        var o := OrderOf(t, e);
        if !e.refused {
          DispatchedExists(t, o);
        }
        SubmitExists(t, o, e.refused, tenant, key, kind);
      }
    } else {
      OtherStep(t, e);
      SameExists(t, Step(t, e), tenant, key, kind);
    }
  }

  lemma SameExists(t: Tables, t': Tables, tenant: string, key: Key, kind: Kind)
    requires t'.created == t.created
    ensures Exists(t', tenant, key, kind) <==> Exists(t, tenant, key, kind)
  {
  }

  lemma SubmitExists(t: Tables, o: Order, refused: bool, tenant: string, key: Key, kind: Kind)
    ensures Exists(t, tenant, key, kind) ==> Exists(Submitted(t, o, refused), tenant, key, kind)
    ensures Exists(Submitted(t, o, refused), tenant, key, kind) ==>
              Exists(t, tenant, key, kind) || (Under(o, tenant, key, kind) && !refused)
  {
    var t' := Submitted(t, o, refused);
    if Exists(t, tenant, key, kind) {
      var i :| 0 <= i < |t.created| && Under(t.created[i], tenant, key, kind);
      assert t'.created[i] == t.created[i];
    }
    if Exists(t', tenant, key, kind) {
      var i :| 0 <= i < |t'.created| && Under(t'.created[i], tenant, key, kind);
      assert i < |t.created| ==> Under(t.created[i], tenant, key, kind);
    }
  }

  /** What a key stands for exists exactly when a dispatch of its kind was sent under it and not refused. */
  lemma {:induction false} ExistsIffSent(es: seq<Event>, tenant: string, key: Key, kind: Kind)
    ensures Exists(Steps(EMPTY, es), tenant, key, kind) <==> Sent(es, tenant, key, kind)
  {
    if es != [] {
      hide Step, Exists, Inv, Sent;
      var front := es[..|es| - 1];
      StepsInv(front);
      ExistsIffSent(front, tenant, key, kind);
      StepExists(Steps(EMPTY, front), es[|es| - 1], tenant, key, kind);
      SentNext(es, tenant, key, kind);
    } else {
      assert !Exists(EMPTY, tenant, key, kind);
    }
  }

  lemma SentNext(es: seq<Event>, tenant: string, key: Key, kind: Kind)
    requires es != []
    ensures Sent(es, tenant, key, kind) <==>
            Sent(es[..|es| - 1], tenant, key, kind) || SentAt(es, |es| - 1, tenant, key, kind)
  {
    hide Under, Dispatches, Steps, OrderOf;
    var last := |es| - 1;
    var front := es[..last];
    forall i: nat | i < last
      ensures SentAt(es, i, tenant, key, kind) <==> SentAt(front, i, tenant, key, kind)
    {
      assert front[..i] == es[..i];
    }
    if Sent(front, tenant, key, kind) {
      var i: nat :| SentAt(front, i, tenant, key, kind);
      assert SentAt(es, i, tenant, key, kind);
    }
  }

  /** Under any key, something is dispatched twice exactly when dispatches of both kinds were sent under it and not refused. */
  lemma DispatchedTwiceIff(es: seq<Event>, tenant: string, key: Key)
    ensures (exists i, j :: 0 <= i < j < |Steps(EMPTY, es).created| && Both(Steps(EMPTY, es).created[i], Steps(EMPTY, es).created[j], tenant, key))
            <==> Sent(es, tenant, key, Agent) && Sent(es, tenant, key, Workflow)
  {
    hide Steps, Sent;
    var created := Steps(EMPTY, es).created;
    ExistsIffSent(es, tenant, key, Agent);
    ExistsIffSent(es, tenant, key, Workflow);
    if i, j :| 0 <= i < j < |created| && Both(created[i], created[j], tenant, key) {
      OneDispatchPerKeyAndKind(es, i, j);
      assert Under(created[i], tenant, key, created[i].kind) && Under(created[j], tenant, key, created[j].kind);
    }
    if Exists(Steps(EMPTY, es), tenant, key, Agent) && Exists(Steps(EMPTY, es), tenant, key, Workflow) {
      var i :| 0 <= i < |created| && Under(created[i], tenant, key, Agent);
      var j :| 0 <= j < |created| && Under(created[j], tenant, key, Workflow);
      assert Both(created[i], created[j], tenant, key) && Both(created[j], created[i], tenant, key);
    }
  }

  predicate Both(a: Order, b: Order, tenant: string, key: Key) {
    a.tenant == tenant == b.tenant && a.key == key == b.key
  }

  // ----- Slots -----

  predicate Timed(e: Event) {
    e.PutSchedule? || e.MarkRun? || e.ReadDue?
  }

  function Latest(es: seq<Event>): nat {
    if es == [] then 0 else if Timed(es[|es| - 1]) then es[|es| - 1].now else Latest(es[..|es| - 1])
  }

  /** The clock never goes back. */
  predicate Chronological(es: seq<Event>) {
    es == [] || (Chronological(es[..|es| - 1]) && (Timed(es[|es| - 1]) ==> Latest(es[..|es| - 1]) <= es[|es| - 1].now))
  }

  /** A schedule that was read due has since moved on, or is still the row that was read. */
  predicate StillThere(t: Tables, slot: SlotRead) {
    && slot.id in t.schedules && t.schedules[slot.id].nextRun >= slot.at
    && (t.schedules[slot.id].nextRun == slot.at ==> t.schedules[slot.id].kind == slot.kind && t.schedules[slot.id].body == slot.body)
  }

  ghost predicate SlotInv(t: Tables, latest: nat) {
    && (forall slot :: slot in t.slots ==> slot.at <= latest && StillThere(t, slot))
    && (forall a, b :: a in t.slots && b in t.slots && a.id == b.id && a.at == b.at ==> a == b)
  }

  lemma WriteKeepsSlots(t: Tables, id: RowId, row: Schedule, now: nat, latest: nat)
    requires SlotInv(t, latest) && latest <= now < row.nextRun
    ensures SlotInv(t.(schedules := t.schedules[id := row]), now)
  {
  }

  lemma ReadKeepsSlots(t: Tables, id: RowId, now: nat, latest: nat)
    requires SlotInv(t, latest) && latest <= now && Due(t, id, now)
    ensures SlotInv(Step(t, ReadDue(id, now)), now)
  {
  }

  lemma SlotInvLater(t: Tables, latest: nat, now: nat)
    requires SlotInv(t, latest) && latest <= now
    ensures SlotInv(t, now)
  {
  }

  lemma SlotInvFrame(t: Tables, t': Tables, latest: nat)
    requires SlotInv(t, latest) && t'.schedules == t.schedules && t'.slots == t.slots
    ensures SlotInv(t', latest)
  {
  }

  lemma StepKeepsSlots(t: Tables, e: Event, latest: nat)
    requires SlotInv(t, latest) && (Timed(e) ==> latest <= e.now)
    ensures SlotInv(Step(t, e), if Timed(e) then e.now else latest)
  {
    hide SlotInv;
    if e.PutSchedule? {
      SlotInvLater(t, latest, e.now);
      if e.row.nextRun > e.now {
        WriteKeepsSlots(t, e.id, e.row, e.now, latest);
      }
    } else if e.MarkRun? {
      SlotInvLater(t, latest, e.now);
      if e.id in t.schedules && e.next > e.now {
        WriteKeepsSlots(t, e.id, t.schedules[e.id].(nextRun := e.next), e.now, latest);
      }
    } else if e.ReadDue? {
      SlotInvLater(t, latest, e.now);
      if Due(t, e.id, e.now) {
        ReadKeepsSlots(t, e.id, e.now, latest);
      }
    } else {
      UntimedKeepsSchedules(t, e);
      SlotInvFrame(t, Step(t, e), latest);
    }
  }

  lemma UntimedKeepsSchedules(t: Tables, e: Event)
    requires !Timed(e)
    ensures Step(t, e).schedules == t.schedules && Step(t, e).slots == t.slots
  {
    hide Submitted;
    if Dispatches(t, e) {
      SubmitLeavesReads(t, OrderOf(t, e), e.refused);
    }
  }

  lemma {:induction false} StepsSlots(es: seq<Event>)
    requires Chronological(es)
    ensures SlotInv(Steps(EMPTY, es), Latest(es))
  {
    if es != [] {
      hide SlotInv, Step;
      StepsSlots(es[..|es| - 1]);
      StepKeepsSlots(Steps(EMPTY, es[..|es| - 1]), es[|es| - 1], Latest(es[..|es| - 1]));
    } else {
      assert SlotInv(EMPTY, 0);
    }
  }

  /**
   * A slot is dispatched at most once, whatever is edited, however stale the rows ticks hold and
   * however often they crash: an edit always moves the schedule to a later slot.
   */
  lemma SlotDispatchedAtMostOnce(es: seq<Event>, i: nat, j: nat)
    requires Chronological(es) && i < |Steps(EMPTY, es).created| && j < |Steps(EMPTY, es).created|
    requires var created := Steps(EMPTY, es).created;
             created[i].tenant == created[j].tenant && created[i].key.Slot? && created[i].key == created[j].key
    ensures i == j
  {
    hide Steps, Chronological;
    var t := Steps(EMPTY, es);
    StepsInv(es);
    StepsSlots(es);
    assert Sound(t, t.created[i]) && Sound(t, t.created[j]);
    assert t.created[i].kind == t.created[j].kind;
    if i < j {
      OneDispatchPerKeyAndKind(es, i, j);
    } else if j < i {
      OneDispatchPerKeyAndKind(es, j, i);
    }
  }

  /** Exactly once: after any history, a dispatch of a slot that does not raise, first or repeated, leaves exactly one. */
  lemma ExactlyOnePerSlot(es: seq<Event>, e: Event) returns (i: nat)
    requires Chronological(es) && e.ForSlot? && Dispatches(Steps(EMPTY, es), e)
    requires Submit(Steps(EMPTY, es), OrderOf(Steps(EMPTY, es), e), e.refused).Success?
    ensures var created, o := Steps(EMPTY, es + [e]).created, OrderOf(Steps(EMPTY, es), e);
            && i < |created| && Under(created[i], o.tenant, o.key, o.kind)
            && forall j :: 0 <= j < |created| && created[j].tenant == o.tenant && created[j].key == o.key ==> j == i
  {
    hide Steps, Step, Submit, Inv;
    var all, o := es + [e], OrderOf(Steps(EMPTY, es), e);
    StepsInv(es);
    OneStep(EMPTY, es, e);
    SuccessIsNotRefused(Steps(EMPTY, es), o, e.refused);
    StepExists(Steps(EMPTY, es), e, o.tenant, o.key, o.kind);
    var created := Steps(EMPTY, all).created;
    i :| 0 <= i < |created| && Under(created[i], o.tenant, o.key, o.kind);
    ChronologicalNext(es, e);
    forall j | 0 <= j < |created| && created[j].tenant == o.tenant && created[j].key == o.key
      ensures j == i
    {
      SlotDispatchedAtMostOnce(all, i, j);
    }
  }

  lemma SuccessIsNotRefused(t: Tables, o: Order, refused: bool)
    requires Submit(t, o, refused).Success?
    ensures !refused
  {
  }

  lemma ChronologicalNext(es: seq<Event>, e: Event)
    requires Chronological(es) && !Timed(e)
    ensures Chronological(es + [e])
  {
    assert (es + [e])[..|es + [e]| - 1] == es;
  }

  /** A repeated dispatch of an agent's slot never meets its key with another request. */
  lemma AgentSlotNeverConflicts(es: seq<Event>, e: Event)
    requires Chronological(es) && e.ForSlot? && Dispatches(Steps(EMPTY, es), e) && e.slot.kind == Agent && !e.refused
    ensures Submit(Steps(EMPTY, es), OrderOf(Steps(EMPTY, es), e), e.refused).Success?
  {
    hide Steps, Chronological;
    var t := Steps(EMPTY, es);
    var o := OrderOf(t, e);
    StepsInv(es);
    StepsSlots(es);
    if NameOf(o) in t.names {
      assert Remembered(t, NameOf(o));
      var i :| 0 <= i < |t.created| && NameOf(t.created[i]) == NameOf(o) && t.created[i].request == t.names[NameOf(o)];
      assert Sound(t, t.created[i]);
    }
  }

  predicate NotBefore(e: Event, now: nat) {
    Timed(e) ==> e.now >= now
  }

  lemma {:induction false} NextRunStaysLater(t: Tables, es: seq<Event>, id: RowId, now: nat)
    requires id in t.schedules && t.schedules[id].nextRun > now
    requires forall e :: e in es ==> NotBefore(e, now)
    ensures id in Steps(t, es).schedules && Steps(t, es).schedules[id].nextRun > now
  {
    if es != [] {
      hide Step;
      var front, e := es[..|es| - 1], es[|es| - 1];
      NextRunStaysLater(t, front, id, now);
      assert e in es && NotBefore(e, now);
      NextRunStep(Steps(t, front), e, id, now);
    }
  }

  lemma NextRunStep(t: Tables, e: Event, id: RowId, now: nat)
    requires id in t.schedules && t.schedules[id].nextRun > now && NotBefore(e, now)
    ensures id in Step(t, e).schedules && Step(t, e).schedules[id].nextRun > now
  {
    hide Submitted;
    if Dispatches(t, e) {
      SubmitLeavesReads(t, OrderOf(t, e), e.refused);
    }
  }

  /** A slot that was due and has been marked never comes back: every later slot of the schedule lies after the time it was seen due. */
  lemma MarkedSlotNeverReturns(t: Tables, id: RowId, now: nat, next: nat, at: nat, more: seq<Event>)
    requires Due(t, id, now) && now <= at < next
    requires forall e :: e in more ==> NotBefore(e, now)
    ensures var later := Steps(Step(t, MarkRun(id, next, at)), more).schedules;
            id in later && later[id].nextRun > now >= t.schedules[id].nextRun
  {
    NextRunStaysLater(Step(t, MarkRun(id, next, at)), more, id, now);
  }

  // ----- Rules -----

  predicate KeepsKind(e: Event, id: RowId, kind: Kind) {
    e.PutRule? && e.id == id ==> e.rule.kind == kind
  }

  ghost predicate RuleKind(t: Tables, id: RowId, kind: Kind) {
    && (id in t.rules ==> t.rules[id].kind == kind)
    && (forall m :: m in t.matches ==> m.event in t.events && (RowId(t.events[m.event].tenant, m.rule) == id ==> m.kind == kind))
  }

  lemma {:induction false} RuleKeepsKind(es: seq<Event>, id: RowId, kind: Kind)
    requires forall e :: e in es ==> KeepsKind(e, id, kind)
    ensures RuleKind(Steps(EMPTY, es), id, kind)
  {
    if es != [] {
      var front, e := es[..|es| - 1], es[|es| - 1];
      RuleKeepsKind(front, id, kind);
      assert e in es && KeepsKind(e, id, kind);
      RuleStep(Steps(EMPTY, front), e, id, kind);
    }
  }

  lemma RuleStep(t: Tables, e: Event, id: RowId, kind: Kind)
    requires RuleKind(t, id, kind) && KeepsKind(e, id, kind)
    ensures RuleKind(Step(t, e), id, kind)
  {
    if e.ForSlot? || e.ForRule? {
      hide Submitted;
      if Dispatches(t, e) {
        SubmitLeavesReads(t, OrderOf(t, e), e.refused);
      }
    }
  }

  /** While a rule keeps its kind of target, an event is dispatched for it at most once. */
  lemma MatchDispatchedAtMostOnce(es: seq<Event>, kind: Kind, i: nat, j: nat)
    requires i < |Steps(EMPTY, es).created| && j < |Steps(EMPTY, es).created|
    requires var created := Steps(EMPTY, es).created;
             && created[i].tenant == created[j].tenant && created[i].key.Matched? && created[i].key == created[j].key
             && forall e :: e in es ==> KeepsKind(e, RowId(created[i].tenant, created[i].key.rule), kind)
    ensures i == j
  {
    hide Steps;
    var t := Steps(EMPTY, es);
    StepsInv(es);
    RuleKeepsKind(es, RowId(t.created[i].tenant, t.created[i].key.rule), kind);
    assert Sound(t, t.created[i]) && Sound(t, t.created[j]);
    if i < j {
      OneDispatchPerKeyAndKind(es, i, j);
    } else if j < i {
      OneDispatchPerKeyAndKind(es, j, i);
    }
  }

  /** Exactly once: a dispatch for an event and a rule that does not raise, first or repeated, leaves exactly one while the rule keeps its kind. */
  lemma ExactlyOnePerMatch(es: seq<Event>, e: Event, kind: Kind) returns (i: nat)
    requires e.ForRule? && Dispatches(Steps(EMPTY, es), e)
    requires var rule := RowId(OrderOf(Steps(EMPTY, es), e).tenant, e.ruleRead.rule); forall other :: other in es ==> KeepsKind(other, rule, kind)
    requires Submit(Steps(EMPTY, es), OrderOf(Steps(EMPTY, es), e), e.refused).Success?
    ensures var created, o := Steps(EMPTY, es + [e]).created, OrderOf(Steps(EMPTY, es), e);
            && i < |created| && Under(created[i], o.tenant, o.key, o.kind)
            && forall j :: 0 <= j < |created| && created[j].tenant == o.tenant && created[j].key == o.key ==> j == i
  {
    hide Steps, Step, Submit, Inv;
    var all, o := es + [e], OrderOf(Steps(EMPTY, es), e);
    StepsInv(es);
    OneStep(EMPTY, es, e);
    SuccessIsNotRefused(Steps(EMPTY, es), o, e.refused);
    StepExists(Steps(EMPTY, es), e, o.tenant, o.key, o.kind);
    var created := Steps(EMPTY, all).created;
    i :| 0 <= i < |created| && Under(created[i], o.tenant, o.key, o.kind);
    forall j | 0 <= j < |created| && created[j].tenant == o.tenant && created[j].key == o.key
      ensures j == i
    {
      MatchDispatchedAtMostOnce(all, kind, i, j);
    }
  }

  /** A rule turned from an agent into a workflow between a crash and the next tick, its event still pending: the event is dispatched twice for it. */
  function RetargetedRule(): seq<Event> {
    [Emit(0, "t", "s"), PutRule(RowId("t", "r"), Rule(Agent, "b")), ReadRule(0, "r"), ForRule(RuleRead(0, "r", Agent, "b"), 1, false),
     PutRule(RowId("t", "r"), Rule(Workflow, "b")), ReadRule(0, "r"), ForRule(RuleRead(0, "r", Workflow, "b"), 1, false)]
  }

  lemma RetargetedRuleIsDispatchedTwice()
    ensures var t := Steps(EMPTY, RetargetedRule());
            && |t.created| == 2 && Both(t.created[0], t.created[1], "t", Matched(0, "r"))
            && 0 in t.events && t.events[0].status == Pending
  {
    hide Steps;
    var es := RetargetedRule();
    var t0 := Step(EMPTY, es[0]);
    var t1 := Step(t0, es[1]);
    var t2 := Step(t1, es[2]);
    var t3 := Step(t2, es[3]);
    assert t3.created == [RuleOrder(t3.events[0], RuleRead(0, "r", Agent, "b"), 1)];
    var t4 := Step(t3, es[4]);
    var t5 := Step(t4, es[5]);
    var t6 := Step(t5, es[6]);
    StepsUpTo(es, 7);
    StepsUpTo(es, 6);
    StepsUpTo(es, 5);
    StepsUpTo(es, 4);
    StepsUpTo(es, 3);
    StepsUpTo(es, 2);
    StepsUpTo(es, 1);
    NoSteps(es);
    assert es[..7] == es;
    assert Steps(EMPTY, es) == t6;
  }

  lemma StepsUpTo(es: seq<Event>, n: nat)
    requires 0 < n <= |es|
    ensures Steps(EMPTY, es[..n]) == Step(Steps(EMPTY, es[..n - 1]), es[n - 1])
  {
    assert es[..n][..n - 1] == es[..n - 1];
  }

  lemma NoSteps(es: seq<Event>)
    ensures Steps(EMPTY, es[..0]) == EMPTY
  {
  }

  // ----- The inner loops of `tick` -----

  /** One of the reads a tick made for an event, and whether the rule's filter matches. */
  datatype Candidate = Candidate(read: RuleRead, matches: bool, version: nat)

  function Call(c: Candidate, refused: bool): Event {
    ForRule(c.read, c.version, refused)
  }

  /** One of the matching rules' dispatches. */
  ghost predicate FromRule(e: Event, rules: seq<Candidate>, refuses: string -> bool) {
    exists k :: 0 <= k < |rules| && rules[k].matches && e == Call(rules[k], refuses(rules[k].read.rule))
  }

  /** The dispatch raised, in the tables the events before it left. */
  ghost predicate Raised(t: Tables, e: Event) {
    Dispatches(t, e) && Submit(t, OrderOf(t, e), e.refused).Failure?
  }

  class Scheduler {
    var tables: Tables

    constructor ()
      ensures tables == EMPTY
    {
      tables := EMPTY;
    }

    method DispatchOrder(o: Order, refused: bool) returns (ok: bool)
      modifies this
      ensures tables == Submitted(old(tables), o, refused) && ok == Submit(old(tables), o, refused).Success?
    {
      ok := false;
      if refused {
        return;
      }
      if NameOf(o) in tables.names {
        ok := tables.names[NameOf(o)] == o.request;
      } else {
        tables := tables.(names := tables.names[NameOf(o) := o.request], created := tables.created + [o]);
        ok := true;
      }
    }

    /** One due schedule: a dispatch, then the mark, with or without an error; a next run that cannot be computed leaves the slot due. */
    method RunSchedule(slot: SlotRead, version: nat, refused: bool, next: Option<nat>, now: nat) returns (ghost trace: seq<Event>)
      requires slot in tables.slots && (next.Some? ==> next.value > now)
      modifies this
      ensures trace == [ForSlot(slot, version, refused)] + if next.Some? then [MarkRun(slot.id, next.value, now)] else []
      ensures tables == Steps(old(tables), trace)
    {
      ghost var first := ForSlot(slot, version, refused);
      var ok := DispatchOrder(SlotOrder(slot, version), refused);
      trace := [first];
      assert trace[..0] == [];
      assert tables == Steps(old(tables), trace);
      if next.Some? {
        trace := trace + [MarkRun(slot.id, next.value, now)];
        assert trace[..1] == [first];
        if slot.id in tables.schedules {
          tables := tables.(schedules := tables.schedules[slot.id := tables.schedules[slot.id].(nextRun := next.value)]);
        }
      }
    }

    /**
     * One pending event: its matching rules in order until one raises, then its final status. It
     * ends as processed only when every matching rule has been dispatched, and as failed only when
     * the dispatch before the end raised; a stop in between leaves a prefix of the trace.
     */
    method RunEvent(event: nat, rules: seq<Candidate>, refuses: string -> bool) returns (processed: bool, ghost trace: seq<Event>)
      requires event in tables.events && forall k :: 0 <= k < |rules| ==> rules[k].read in tables.matches && rules[k].read.event == event
      modifies this
      ensures tables == Steps(old(tables), trace)
      ensures trace != [] && trace[|trace| - 1] == FinishEvent(event, processed) && event in tables.events
      ensures tables.events[event] == old(tables.events[event]).(status := if processed then Processed else Failed,
                                                                 attempts := old(tables.events[event].attempts) + 1)
      ensures processed ==> forall k :: 0 <= k < |rules| && rules[k].matches ==> Call(rules[k], false) in trace && !refuses(rules[k].read.rule)
      ensures !processed ==> |trace| >= 2 && Raised(Steps(old(tables), trace[..|trace| - 2]), trace[|trace| - 2])
      ensures forall k :: 0 <= k < |trace| - 1 ==> FromRule(trace[k], rules, refuses)
    {
      hide Submit, Submitted, Steps, FromRule, Raised;
      ghost var before := tables;
      trace, processed := [], true;
      StepsOfNothing(before);
      var i := 0;
      while i < |rules| && processed
        invariant 0 <= i <= |rules|
        invariant tables == Steps(before, trace) && tables.events == before.events && tables.matches == before.matches
        invariant forall k :: 0 <= k < |trace| ==> FromRule(trace[k], rules, refuses)
        invariant processed ==> forall k :: 0 <= k < i && rules[k].matches ==> Call(rules[k], false) in trace && !refuses(rules[k].read.rule)
        invariant !processed ==> trace != [] && Raised(Steps(before, trace[..|trace| - 1]), trace[|trace| - 1])
      {
        if rules[i].matches {
          var refused := refuses(rules[i].read.rule);
          ghost var e := Call(rules[i], refused);
          var o := RuleOrder(tables.events[event], rules[i].read, rules[i].version);
          SubmitLeavesReads(tables, o, refused);
          OneRule(e, rules, refuses, i);
          OneStep(before, trace, e);
          DispatchStep(tables, e);
          ghost var sent := trace;
          processed := DispatchOrder(o, refused);
          trace := trace + [e];
          assert trace[..|trace| - 1] == sent;
          if !processed {
            RaisedHere(Steps(before, sent), e);
          }
        }
        i := i + 1;
      }
      ghost var sent := trace;
      OneStep(before, trace, FinishEvent(event, processed));
      trace := trace + [FinishEvent(event, processed)];
      assert sent != [] ==> trace[..|trace| - 2] == sent[..|sent| - 1];
      tables := tables.(events := tables.events[event := Finished(tables.events[event], processed)]);
    }
  }

  lemma RaisedHere(t: Tables, e: Event)
    requires Dispatches(t, e) && Submit(t, OrderOf(t, e), e.refused).Failure?
    ensures Raised(t, e)
  {
  }

  lemma StepsOfNothing(t: Tables)
    ensures Steps(t, []) == t
  {
  }

  lemma OneRule(e: Event, rules: seq<Candidate>, refuses: string -> bool, k: nat)
    requires k < |rules| && rules[k].matches && e == Call(rules[k], refuses(rules[k].read.rule))
    ensures FromRule(e, rules, refuses)
  {
  }
}
