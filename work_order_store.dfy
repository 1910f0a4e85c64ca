/**
  The work-order app's server tables: work orders, their notes, the part usage event log
  and part inventory, conflict records and the `sync_operation` ledger. Each table maps a
  key to a row; timestamps are opaque texts.
*/
module WorkOrderStore {
  import opened Wrappers
  import opened Js
  import opened Utf8
  import opened SyncCore

  /** A `work_order` row. */
  datatype WorkOrder = WorkOrder(
    title: string,
    priority: string,
    status: string,
    assigneeId: Option<string>,
    siteContactPhone: Option<string>,
    deletedAt: Option<string>,
    createdAt: string,
    updatedAt: string,
    version: int)

  /** A `work_order_note` row; the payload is a `bytea`. */
  datatype Note = Note(workOrderId: string, payload: seq<Byte>, updatedBy: string, updatedAt: string)

  /** A `part_usage_event` row. */
  datatype PartUsageEvent = PartUsageEvent(workOrderId: string, partSku: string, qtyDelta: int, createdBy: string)

  /** A `conflict_record` row; local and server values are the stored jsonb documents. */
  datatype ConflictRecord = ConflictRecord(
    entityType: string,
    entityId: string,
    fieldName: string,
    localValue: Json,
    serverValue: Json,
    status: string,
    resolvedValue: Option<Json>,
    resolvedBy: Option<string>,
    resolvedAt: Option<string>)

  /** The key the work-order engine hashes: the ticket engine's fields plus the session role. */
  datatype OpKey = OpKey(op: CrudOp, table: string, id: string, opData: map<string, Json>, userId: string, role: Role)

  /** The contents of every table but the ledger, as one value. */
  datatype WoTables = WoTables(
    workOrders: map<string, WorkOrder>,
    notes: map<string, Note>,
    events: map<string, PartUsageEvent>,
    inventory: map<string, int>,
    conflicts: map<string, ConflictRecord>)

  /** What an applier leaves behind: the tables, and the verdict it answered or what it threw. */
  datatype Effect = Effect(tables: WoTables, outcome: Result<Verdict>)

  class WorkOrderDatabase {
    var workOrders: map<string, WorkOrder>
    var notes: map<string, Note>
    var events: map<string, PartUsageEvent>
    /** `part_inventory`: on-hand quantity by part SKU. */
    var inventory: map<string, int>
    var conflicts: map<string, ConflictRecord>
    var ledger: map<OpKey, Verdict>

    /** No part is below zero on hand. */
    ghost predicate Valid()
      reads this
    {
      forall sku :: sku in inventory ==> inventory[sku] >= 0
    }

    /** The tables as they stand. */
    function Snapshot(): WoTables
      reads this
    {
      WoTables(workOrders, notes, events, inventory, conflicts)
    }

    constructor (stock: map<string, int>)
      requires forall sku :: sku in stock ==> stock[sku] >= 0
      ensures Valid()
      ensures workOrders == map[] && notes == map[] && events == map[] && inventory == stock
      ensures conflicts == map[] && ledger == map[]
    {
      workOrders, notes, events, inventory := map[], map[], map[], stock;
      conflicts, ledger := map[], map[];
    }
  }
}
