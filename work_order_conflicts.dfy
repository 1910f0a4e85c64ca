/**
  Resolution of a work-order conflict record (`resolveConflictRecord`) and the manager-only
  server call in front of it (`resolveConflict`): the chosen value is written to the work
  order's site contact phone and the record is closed. Unlike the ticket app, no field is
  checked and no activity is logged.
*/
module WorkOrderConflicts {
  import opened Wrappers
  import opened Js
  import opened SyncCore
  import opened WorkOrderStore
  import WorkOrderWrite

  /** `v?.value ?? null`: the `value` member of a stored document; a document without one,
      or with a null one, gives null. */
  function MemberValue(v: Json): (r: Option<Json>)
    ensures r.Some? <==> v.JObj? && "value" in v.fields && v.fields["value"] != JNull
    ensures r.Some? ==> r.value == v.fields["value"]
  {
    if v.JObj? && "value" in v.fields && v.fields["value"] != JNull then Some(v.fields["value"]) else None
  }

  /** The value a strategy picks. */
  function ChosenValue(c: ConflictRecord, strategy: Strategy, customValue: Option<string>): Option<Json> {
    match strategy
    case Local => MemberValue(c.localValue)
    case Server => MemberValue(c.serverValue)
    case Custom => if customValue.Some? then Some(JStr(customValue.value)) else None
  }

  /** The text the driver binds a value as: a string as itself, a number or boolean as
      `String(value)`. An object or array value is also bound as `String(value)` here,
      where the driver would send JSON text or an array literal. */
  function AsColumn(v: Option<Json>): Option<string> {
    if v.Some? then Some(ToJsString(v.value)) else None
  }

  /** What `resolveConflictRecord` returns: `{id, value}`. */
  datatype Resolution = Resolution(id: string, value: Option<Json>)

  /** The outcome against the conflict table: the two errors, in this order, or the resolution. */
  function Resolve(conflicts: map<string, ConflictRecord>, conflictId: string, strategy: Strategy,
                   customValue: Option<string>): (r: Result<Resolution>)
    ensures r.Ok? <==> conflictId in conflicts && conflicts[conflictId].status == "open"
    ensures conflictId !in conflicts ==> r == Throws("Conflict not found")
    ensures conflictId in conflicts && conflicts[conflictId].status != "open" ==> r == Throws("Conflict is not open")
    ensures r.Ok? ==> r.value.id == conflictId && r.value.value == ChosenValue(conflicts[conflictId], strategy, customValue)
  {
    if conflictId !in conflicts then Throws("Conflict not found")
    else if conflicts[conflictId].status != "open" then Throws("Conflict is not open")
    else Ok(Resolution(conflictId, ChosenValue(conflicts[conflictId], strategy, customValue)))
  }

  /** `UPDATE work_order SET site_contact_phone = $1 WHERE id = <entity_id>`, whatever the
      record's entity type and field; a missing work order matches no row. */
  function ResolvedWorkOrders(workOrders: map<string, WorkOrder>, entityId: string, value: Option<Json>): map<string, WorkOrder> {
    if entityId in workOrders
    then workOrders[entityId := workOrders[entityId].(siteContactPhone := AsColumn(value))]
    else workOrders
  }

  /** `JSON.stringify({ value })`. */
  function StoredValue(value: Option<Json>): Json {
    JObj(map["value" := if value.Some? then value.value else JNull])
  }

  function MarkResolved(c: ConflictRecord, value: Option<Json>, resolvedBy: string, now: string): ConflictRecord {
    c.(status := "resolved", resolvedValue := Some(StoredValue(value)), resolvedBy := Some(resolvedBy), resolvedAt := Some(now))
  }

  /** `resolveConflictRecord`: a failed check throws before anything is written. */
  method ResolveConflictRecord(db: WorkOrderDatabase, conflictId: string, strategy: Strategy, resolvedBy: string,
                               customValue: Option<string>, now: string)
    returns (r: Result<Resolution>)
    modifies db`workOrders, db`conflicts
    ensures r == Resolve(old(db.conflicts), conflictId, strategy, customValue)
    ensures r.Throws? ==> unchanged(db)
    ensures r.Ok? ==> db.workOrders == ResolvedWorkOrders(old(db.workOrders), old(db.conflicts)[conflictId].entityId, r.value.value)
    ensures r.Ok? ==> db.conflicts == old(db.conflicts)[conflictId := MarkResolved(old(db.conflicts)[conflictId], r.value.value, resolvedBy, now)]
  {
    if conflictId !in db.conflicts {
      return Throws("Conflict not found");
    }
    var conflict := db.conflicts[conflictId];
    if conflict.status != "open" {
      return Throws("Conflict is not open");
    }
    var value: Option<Json> := None;
    if strategy == Local {
      value := MemberValue(conflict.localValue);
    } else if strategy == Server {
      value := MemberValue(conflict.serverValue);
    } else {
      value := if customValue.Some? then Some(JStr(customValue.value)) else None;
    }
    if conflict.entityId in db.workOrders {
      db.workOrders := db.workOrders[conflict.entityId := db.workOrders[conflict.entityId].(siteContactPhone := AsColumn(value))];
    }
    db.conflicts := db.conflicts[conflictId := MarkResolved(conflict, value, resolvedBy, now)];
    r := Ok(Resolution(conflictId, value));
  }

  const ManagerRequired := "Manager role required"

  /** The work-order app's `resolveConflict` server call: only a manager may resolve, and the
      session user is recorded as the resolver. */
  method ResolveConflict(db: WorkOrderDatabase, id: string, strategy: Strategy, customValue: Option<string>,
                         sessionUserId: string, role: Role, now: string)
    returns (r: Result<Resolution>)
    modifies db`workOrders, db`conflicts
    ensures role != Manager ==> r == Throws(ManagerRequired) && unchanged(db)
    ensures role == Manager ==> r == Resolve(old(db.conflicts), id, strategy, customValue)
    ensures r.Throws? ==> unchanged(db)
    ensures r.Ok? ==> id in db.conflicts && db.conflicts[id].status == "resolved" && db.conflicts[id].resolvedBy == Some(sessionUserId)
  {
    if role != Manager {
      return Throws(ManagerRequired);
    }
    r := ResolveConflictRecord(db, id, strategy, sessionUserId, customValue, now);
  }

  /** A resolved record cannot be resolved again. */
  lemma ResolveOnce(conflicts: map<string, ConflictRecord>, conflictId: string, strategy: Strategy, customValue: Option<string>,
                    resolvedBy: string, now: string, strategy2: Strategy, customValue2: Option<string>)
    requires Resolve(conflicts, conflictId, strategy, customValue).Ok?
    ensures var v := Resolve(conflicts, conflictId, strategy, customValue).value.value;
      Resolve(conflicts[conflictId := MarkResolved(conflicts[conflictId], v, resolvedBy, now)], conflictId, strategy2, customValue2)
        == Throws("Conflict is not open")
  {
  }

  /** For a phone conflict the write engine opened, "local" writes the phone the technician
      sent and "server" puts back the phone the work order had when the conflict was raised. */
  lemma EngineConflictChoices(conflicts: map<string, ConflictRecord>, conflictId: string, workOrders: map<string, WorkOrder>,
                              workOrderId: string, local: Option<string>, server: Option<string>)
    requires conflictId in conflicts && conflicts[conflictId] == WorkOrderWrite.PhoneConflictRecord(workOrderId, local, server)
    requires workOrderId in workOrders
    ensures Resolve(conflicts, conflictId, Local, None).Ok?
    ensures ResolvedWorkOrders(workOrders, workOrderId, Resolve(conflicts, conflictId, Local, None).value.value)[workOrderId].siteContactPhone == local
    ensures ResolvedWorkOrders(workOrders, workOrderId, Resolve(conflicts, conflictId, Server, None).value.value)[workOrderId].siteContactPhone == server
  {
  }

  /** The stored resolved value reads back as the value that was chosen. */
  lemma ResolvedValueReadsBack(c: ConflictRecord, value: Option<Json>, resolvedBy: string, now: string)
    requires value != Some(JNull)
    ensures MemberValue(MarkResolved(c, value, resolvedBy, now).resolvedValue.value) == value
  {
  }
}
