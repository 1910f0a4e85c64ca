/**
  Part usage events (`applyPartUsageEventOperation`): an event is inserted once and moves
  the on-hand quantity of its part by its delta, never below zero; a replayed event is
  acknowledged without touching stock.
*/
module PartUsage {
  import opened Wrappers
  import opened Js
  import opened SyncCore
  import opened WorkOrderStore

  /** What reading the missing payload of a PUT raises. */
  const MissingOpData := "TypeError: Cannot read properties of undefined"

  /** What the database raises when a NaN delta is bound to the integer columns. */
  const NotAnInteger := "invalid input syntax for type integer: \"NaN\""

  /** `Number(opData.qty_delta ?? 0)`; None is NaN. */
  function QtyDelta(data: map<string, Json>): (q: Option<int>)
    ensures IsNullish(Get(data, "qty_delta")) ==> q == Some(0)
    ensures "qty_delta" in data && data["qty_delta"].JNum? ==> q == Some(data["qty_delta"].n)
  {
    var v := Get(data, "qty_delta");
    if IsNullish(v) then Some(0) else ToNumber(v)
  }

  /** The tables the applier writes, and what it answers. */
  datatype UsageStep = UsageStep(verdict: Result<Verdict>, events: map<string, PartUsageEvent>, inventory: map<string, int>)

  /** The event a PUT records. */
  function RecordedEvent(data: map<string, Json>, qty: int, userId: string): PartUsageEvent {
    PartUsageEvent(StringOr(Get(data, "work_order_id"), ""), StringOr(Get(data, "part_sku"), ""), qty, userId)
  }

  /** The applier on the tables it reads and writes; the checks in the order they are made. */
  function PlanUsage(events: map<string, PartUsageEvent>, inventory: map<string, int>, op: Operation, userId: string): UsageStep {
    if op.op != Put then UsageStep(Ok(Reason(Rejected, "event_insert_only")), events, inventory)
    else if op.opData.None? then UsageStep(Throws(MissingOpData), events, inventory)
    else
      var data := op.opData.value;
      var sku := StringOr(Get(data, "part_sku"), "");
      var qty := QtyDelta(data);
      if op.id in events then UsageStep(Ok(Reason(Applied, "idempotent_duplicate")), events, inventory)
      else if sku !in inventory then UsageStep(Ok(Reason(Rejected, "unknown_part_sku")), events, inventory)
      // `onHand + NaN < 0` is false, so a NaN delta reaches the insert, which raises
      else if qty.Some? && inventory[sku] + qty.value < 0 then UsageStep(Ok(Reason(Rejected, "inventory_underflow")), events, inventory)
      else if qty.None? then UsageStep(Throws(NotAnInteger), events, inventory)
      else UsageStep(Ok(Reason(Applied, "domain_event_applied")), events[op.id := RecordedEvent(data, qty.value, userId)],
                     inventory[sku := inventory[sku] + qty.value])
  }

  predicate NonNegative(inventory: map<string, int>) {
    forall sku :: sku in inventory ==> inventory[sku] >= 0
  }

  /** The tables change exactly when the event is applied: the event is recorded under its
      id and only its part's stock moves, by its delta. */
  lemma UsageWrites(events: map<string, PartUsageEvent>, inventory: map<string, int>, op: Operation, userId: string)
    ensures var s := PlanUsage(events, inventory, op, userId);
      s.verdict != Ok(Reason(Applied, "domain_event_applied")) ==> s.events == events && s.inventory == inventory
    ensures var s := PlanUsage(events, inventory, op, userId);
      s.verdict == Ok(Reason(Applied, "domain_event_applied")) ==>
        && op.op == Put && op.opData.Some? && op.id !in events
        && var data := op.opData.value;
           var sku := StringOr(Get(data, "part_sku"), "");
           && sku in inventory && QtyDelta(data).Some?
           && s.events == events[op.id := RecordedEvent(data, QtyDelta(data).value, userId)]
           && s.inventory == inventory[sku := inventory[sku] + QtyDelta(data).value]
  {
  }

  /** No part is ever taken below zero on hand. */
  lemma UsageKeepsStock(events: map<string, PartUsageEvent>, inventory: map<string, int>, op: Operation, userId: string)
    requires NonNegative(inventory)
    ensures NonNegative(PlanUsage(events, inventory, op, userId).inventory)
  {
  }

  /** An applied event replayed (the same event id again, whatever its payload) is
      acknowledged as a duplicate and changes nothing. */
  lemma UsageReplay(events: map<string, PartUsageEvent>, inventory: map<string, int>, op: Operation, op2: Operation, userId: string)
    requires PlanUsage(events, inventory, op, userId).verdict == Ok(Reason(Applied, "domain_event_applied"))
    requires op2.op == Put && op2.opData.Some? && op2.id == op.id
    ensures var s := PlanUsage(events, inventory, op, userId);
      PlanUsage(s.events, s.inventory, op2, userId) == UsageStep(Ok(Reason(Applied, "idempotent_duplicate")), s.events, s.inventory)
  {
  }

  /** A stock-taking event that would drive the part below zero is refused. */
  lemma UsageUnderflow(events: map<string, PartUsageEvent>, inventory: map<string, int>, op: Operation, userId: string)
    requires op.op == Put && op.opData.Some? && op.id !in events
    requires var data := op.opData.value;
      var sku := StringOr(Get(data, "part_sku"), "");
      sku in inventory && QtyDelta(data).Some? && inventory[sku] + QtyDelta(data).value < 0
    ensures PlanUsage(events, inventory, op, userId).verdict == Ok(Reason(Rejected, "inventory_underflow"))
  {
  }

  /** `applyPartUsageEventOperation` against the database. */
  method ApplyPartUsageEvent(db: WorkOrderDatabase, op: Operation, userId: string) returns (r: Result<Verdict>)
    requires db.Valid()
    modifies db`events, db`inventory
    ensures db.Valid()
    ensures var s := PlanUsage(old(db.events), old(db.inventory), op, userId);
      r == s.verdict && db.events == s.events && db.inventory == s.inventory
  {
    if op.op != Put {
      return Ok(Reason(Rejected, "event_insert_only"));
    }
    if op.opData.None? {
      return Throws(MissingOpData);
    }
    var data := op.opData.value;
    var eventId := op.id;
    var workOrderId := StringOr(Get(data, "work_order_id"), "");
    var partSku := StringOr(Get(data, "part_sku"), "");
    var qtyDelta := QtyDelta(data);
    if eventId in db.events {
      return Ok(Reason(Applied, "idempotent_duplicate"));
    }
    if partSku !in db.inventory {
      return Ok(Reason(Rejected, "unknown_part_sku"));
    }
    var onHand := db.inventory[partSku];
    if qtyDelta.Some? && onHand + qtyDelta.value < 0 {
      return Ok(Reason(Rejected, "inventory_underflow"));
    }
    if qtyDelta.None? {
      return Throws(NotAnInteger);
    }
    db.events := db.events[eventId := PartUsageEvent(workOrderId, partSku, qtyDelta.value, userId)];
    db.inventory := db.inventory[partSku := db.inventory[partSku] + qtyDelta.value];
    r := Ok(Reason(Applied, "domain_event_applied"));
  }
}
