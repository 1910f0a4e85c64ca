/**
  `applyWorkOrderOperation`: role-gated soft delete and create, last-writer-wins PUT, and a
  PATCH that writes the fields it carries but turns a stale, differing contact phone into
  a conflict record instead of writing it.
*/
module WorkOrderWrite {
  import opened Wrappers
  import opened Js
  import opened SyncCore
  import opened WorkOrderStore

  /** What reading a property of the absent `opData` of a non-delete operation raises. */
  const MissingOpData := "TypeError: Cannot read properties of undefined"

  /** `v == null ? null : String(v)`. */
  function NullableText(v: Option<Json>): (r: Option<string>)
    ensures r.None? <==> IsNullish(v)
    ensures v.Some? && v.value.JStr? ==> r == Some(v.value.s)
  {
    if IsNullish(v) then None else Some(ToJsString(v.value))
  }

  predicate IsPriority(p: string) {
    p == "low" || p == "medium" || p == "high"
  }

  /** The priority a new work order gets: the incoming one when it is allowed, else "medium". */
  function CreatePriority(data: map<string, Json>): (p: string)
    ensures IsPriority(p)
    ensures IsPriority(StringOr(Get(data, "priority"), "medium")) ==> p == StringOr(Get(data, "priority"), "medium")
    ensures !IsPriority(StringOr(Get(data, "priority"), "medium")) ==> p == "medium"
  {
    var incoming := StringOr(Get(data, "priority"), "medium");
    if IsPriority(incoming) then incoming else "medium"
  }

  /** `String(opData.title ?? "").trim()`. */
  function CreateTitle(data: map<string, Json>): string {
    Trim(StringOr(Get(data, "title"), ""))
  }

  /** The row a manager's PUT inserts for a missing id. */
  function NewWorkOrder(data: map<string, Json>, now: string): (w: WorkOrder)
    ensures w.status == "open" && w.version == 0 && w.deletedAt == None && IsPriority(w.priority)
  {
    WorkOrder(CreateTitle(data), CreatePriority(data), "open",
      NullableText(Get(data, "assignee_id")), NullableText(Get(data, "site_contact_phone")), None, now, now, 0)
  }

  /** A PUT on an existing row: title and priority are overwritten, each defaulting to the
      stored value when the operation leaves it out or sends null. */
  function LastWriterWins(current: WorkOrder, data: map<string, Json>): (w: WorkOrder)
    ensures w == current.(title := w.title, priority := w.priority)
    ensures w.title == StringOr(Get(data, "title"), current.title)
    ensures w.priority == StringOr(Get(data, "priority"), current.priority)
  {
    current.(title := StringOr(Get(data, "title"), current.title), priority := StringOr(Get(data, "priority"), current.priority))
  }

  // ---------------------------------------------------------------- PATCH

  datatype WoField = WoTitle | WoPriority | WoStatus | WoPhone

  /** One `<column> = $n` of the PATCH statement. */
  datatype WoUpdate = WoUpdate(field: WoField, value: Option<string>)

  /** What a PATCH on an existing row decides before writing: an early rejection, the
      field updates in statement order, the incoming phone when it becomes a conflict
      instead, and whether a status was set. */
  datatype PatchPlan = PatchPlan(rejection: Option<string>, updates: seq<WoUpdate>, phoneConflict: Option<Option<string>>, statusSet: bool)

  /** The incoming phone is older than the stored row: its version is lower, or its
      `updated_at` is earlier (comparisons with an unparsable number or date are false).
      `parseDate` is `Date.parse`, `None` for NaN; the stored timestamp is read through it too. */
  predicate Stale(current: WorkOrder, data: map<string, Json>, parseDate: string -> Option<int>) {
    var incomingVersion := ToNumber(Get(data, "version"));
    var incomingUpdatedAt := parseDate(StringOr(Get(data, "updated_at"), ""));
    var serverUpdatedAt := parseDate(current.updatedAt);
    || (incomingVersion.Some? && incomingVersion.value < current.version)
    || (incomingUpdatedAt.Some? && serverUpdatedAt.Some? && incomingUpdatedAt.value < serverUpdatedAt.value)
  }

  function IncomingPhone(data: map<string, Json>): Option<string> {
    NullableText(Get(data, "site_contact_phone"))
  }

  /** `<column> = String(opData[key])` when the operation carries `key` (so null becomes "null"). */
  function KeyUpdate(data: map<string, Json>, key: string, f: WoField): seq<WoUpdate> {
    if key in data then [WoUpdate(f, Some(ToJsString(data[key])))] else []
  }

  /** The title and priority updates a PATCH carries. */
  function TextUpdates(data: map<string, Json>): seq<WoUpdate> {
    KeyUpdate(data, "title", WoTitle) + KeyUpdate(data, "priority", WoPriority)
  }

  function StatusUpdates(data: map<string, Json>): seq<WoUpdate> {
    KeyUpdate(data, "status", WoStatus)
  }

  function PlanPatch(current: WorkOrder, data: map<string, Json>, role: Role, parseDate: string -> Option<int>): PatchPlan {
    if "status" in data && role == Tech then PatchPlan(Some("restricted_status_transition"), [], None, false)
    else
      var base := TextUpdates(data) + StatusUpdates(data);
      if "site_contact_phone" !in data then PatchPlan(None, base, None, "status" in data)
      else if Stale(current, data, parseDate) && IncomingPhone(data) != current.siteContactPhone then
        PatchPlan(None, base, Some(IncomingPhone(data)), "status" in data)
      else PatchPlan(None, base + [WoUpdate(WoPhone, IncomingPhone(data))], None, "status" in data)
  }

  /** The outcome of a PATCH, given its plan and the id of the conflict record it raised (if any). */
  function PatchVerdict(plan: PatchPlan, conflictId: string): (v: Verdict)
    ensures v.reasonCode.Some?
    ensures v.result == NeedsReview <==> plan.rejection == None && plan.phoneConflict.Some?
    ensures v.conflictId == (if v.result == NeedsReview then Some(conflictId) else None)
    ensures v.result == Applied <==> plan.rejection == None && plan.phoneConflict == None && |plan.updates| > 0
    ensures v.result == Applied ==> v.reasonCode == Some(if plan.statusSet then "status_transition" else "lww_fields")
    ensures plan.rejection.Some? ==> v == Reason(Rejected, plan.rejection.value)
    ensures v.result != Merged
  {
    if plan.rejection.Some? then Reason(Rejected, plan.rejection.value)
    else if plan.phoneConflict.Some? then Verdict(NeedsReview, Some("manual_phone_conflict"), Some(conflictId))
    else if |plan.updates| == 0 then Reason(Rejected, "no_supported_fields")
    else Reason(Applied, if plan.statusSet then "status_transition" else "lww_fields")
  }

  function SetWoField(w: WorkOrder, u: WoUpdate): WorkOrder {
    match u.field
    case WoTitle => w.(title := u.value.GetOr("null"))
    case WoPriority => w.(priority := u.value.GetOr("null"))
    case WoStatus => w.(status := u.value.GetOr("null"))
    case WoPhone => w.(siteContactPhone := u.value)
  }

  /** `UPDATE work_order SET <column> = <value>, ...`: neither `version` nor `updated_at` is
      among the columns, so neither ever changes. */
  function ApplyWoUpdates(w: WorkOrder, updates: seq<WoUpdate>): (r: WorkOrder)
    ensures r.version == w.version && r.updatedAt == w.updatedAt && r.createdAt == w.createdAt
    ensures r.deletedAt == w.deletedAt && r.assigneeId == w.assigneeId
  {
    if updates == [] then w
    else SetWoField(ApplyWoUpdates(w, updates[..|updates| - 1]), updates[|updates| - 1])
  }

  lemma ApplyWoUpdatesSnoc(w: WorkOrder, updates: seq<WoUpdate>, u: WoUpdate)
    ensures ApplyWoUpdates(w, updates + [u]) == SetWoField(ApplyWoUpdates(w, updates), u)
  {
    assert (updates + [u])[..|updates|] == updates;
  }

  /** The updates of a PATCH that is not rejected: title, priority, status and phone, each
      at most once and in that order. */
  lemma PatchUpdates(current: WorkOrder, data: map<string, Json>, role: Role, parseDate: string -> Option<int>)
    requires PlanPatch(current, data, role, parseDate).rejection == None
    ensures var plan := PlanPatch(current, data, role, parseDate);
      plan.updates == TextUpdates(data) + StatusUpdates(data)
        + (if "site_contact_phone" in data && plan.phoneConflict == None then [WoUpdate(WoPhone, IncomingPhone(data))] else [])
  {
  }

  /** The row after the title, priority and status updates a PATCH carries. */
  function SetTextFields(current: WorkOrder, data: map<string, Json>): WorkOrder {
    current.(
      title := if "title" in data then ToJsString(data["title"]) else current.title,
      priority := if "priority" in data then ToJsString(data["priority"]) else current.priority,
      status := if "status" in data then ToJsString(data["status"]) else current.status)
  }

  lemma ApplyKeyUpdate(w: WorkOrder, updates: seq<WoUpdate>, data: map<string, Json>, key: string, f: WoField)
    ensures ApplyWoUpdates(w, updates + KeyUpdate(data, key, f))
      == if key in data then SetWoField(ApplyWoUpdates(w, updates), WoUpdate(f, Some(ToJsString(data[key])))) else ApplyWoUpdates(w, updates)
  {
    if key in data {
      ApplyWoUpdatesSnoc(w, updates, WoUpdate(f, Some(ToJsString(data[key]))));
    } else {
      assert updates + KeyUpdate(data, key, f) == updates;
    }
  }

  lemma ApplyTextUpdates(current: WorkOrder, data: map<string, Json>)
    ensures ApplyWoUpdates(current, TextUpdates(data) + StatusUpdates(data)) == SetTextFields(current, data)
  {
    var t := KeyUpdate(data, "title", WoTitle);
    var p := KeyUpdate(data, "priority", WoPriority);
    ApplyKeyUpdate(current, [], data, "title", WoTitle);
    assert [] + t == t;
    ApplyKeyUpdate(current, t, data, "priority", WoPriority);
    ApplyKeyUpdate(current, t + p, data, "status", WoStatus);
  }

  /** What a PATCH that is not rejected leaves in the row: every field it carries, except a
      phone that became a conflict; version, timestamps, assignee and deletion mark as they were. */
  lemma PatchOutcome(current: WorkOrder, data: map<string, Json>, role: Role, parseDate: string -> Option<int>)
    requires PlanPatch(current, data, role, parseDate).rejection == None
    ensures var plan := PlanPatch(current, data, role, parseDate);
      var w := ApplyWoUpdates(current, plan.updates);
      && w.title == (if "title" in data then ToJsString(data["title"]) else current.title)
      && w.priority == (if "priority" in data then ToJsString(data["priority"]) else current.priority)
      && w.status == (if "status" in data then ToJsString(data["status"]) else current.status)
      && w.siteContactPhone == (if "site_contact_phone" in data && plan.phoneConflict == None then IncomingPhone(data) else current.siteContactPhone)
      && w.version == current.version && w.updatedAt == current.updatedAt && w.deletedAt == current.deletedAt
  {
    var plan := PlanPatch(current, data, role, parseDate);
    PatchUpdates(current, data, role, parseDate);
    WrittenFields(current, data, "site_contact_phone" in data && plan.phoneConflict == None);
  }

  /** The row after the text updates and, when `phoneWritten`, the phone update. */
  lemma WrittenFields(current: WorkOrder, data: map<string, Json>, phoneWritten: bool)
    ensures ApplyWoUpdates(current, TextUpdates(data) + StatusUpdates(data) + (if phoneWritten then [WoUpdate(WoPhone, IncomingPhone(data))] else []))
      == SetTextFields(current, data).(siteContactPhone := if phoneWritten then IncomingPhone(data) else current.siteContactPhone)
  {
    var statused := TextUpdates(data) + StatusUpdates(data);
    ApplyTextUpdates(current, data);
    if phoneWritten {
      ApplyWoUpdatesSnoc(current, statused, WoUpdate(WoPhone, IncomingPhone(data)));
    } else {
      assert statused + [] == statused;
    }
  }

  /** A technician can never change a work order's status through a PATCH: the whole
      operation is rejected before anything is written. */
  lemma TechKeepsStatus(current: WorkOrder, data: map<string, Json>, parseDate: string -> Option<int>)
    ensures var plan := PlanPatch(current, data, Tech, parseDate);
      && ("status" in data <==> plan.rejection == Some("restricted_status_transition"))
      && ("status" in data ==> PatchVerdict(plan, "") == Reason(Rejected, "restricted_status_transition"))
      && (plan.rejection == None ==> ApplyWoUpdates(current, plan.updates).status == current.status)
  {
    if PlanPatch(current, data, Tech, parseDate).rejection == None {
      PatchOutcome(current, data, Tech, parseDate);
    }
  }

  /** A phone conflict is raised exactly when an incoming phone is stale and differs from
      the stored one; otherwise an incoming phone is written as sent. */
  lemma PhoneConflictIff(current: WorkOrder, data: map<string, Json>, role: Role, parseDate: string -> Option<int>)
    requires PlanPatch(current, data, role, parseDate).rejection == None
    ensures var plan := PlanPatch(current, data, role, parseDate);
      var w := ApplyWoUpdates(current, plan.updates);
      && (plan.phoneConflict.Some? <==>
            "site_contact_phone" in data && Stale(current, data, parseDate) && IncomingPhone(data) != current.siteContactPhone)
      && (plan.phoneConflict.Some? ==> plan.phoneConflict == Some(IncomingPhone(data)) && w.siteContactPhone == current.siteContactPhone)
      && ("site_contact_phone" in data && plan.phoneConflict == None ==> w.siteContactPhone == IncomingPhone(data))
  {
    PatchOutcome(current, data, role, parseDate);
  }

  /** The conflict record a stale phone raises: local is the incoming value, server the stored one. */
  function PhoneConflictRecord(workOrderId: string, local: Option<string>, server: Option<string>): ConflictRecord {
    ConflictRecord("work_order", workOrderId, "site_contact_phone", ValueObject(local), ValueObject(server), "open", None, None, None)
  }

  /** The checks of a PATCH on an existing work order, accumulating the statement's
      assignments in order (title, priority, status, phone). */
  method CheckPatch(current: WorkOrder, opData: map<string, Json>, role: Role, parseDate: string -> Option<int>)
    returns (plan: PatchPlan)
    ensures plan == PlanPatch(current, opData, role, parseDate)
  {
    var updates: seq<WoUpdate> := [];
    if "title" in opData {
      updates := updates + [WoUpdate(WoTitle, Some(ToJsString(opData["title"])))];
    }
    if "priority" in opData {
      updates := updates + [WoUpdate(WoPriority, Some(ToJsString(opData["priority"])))];
    }
    assert updates == TextUpdates(opData);
    var statusReason := false;
    if "status" in opData {
      var nextStatus := ToJsString(opData["status"]);
      if role == Tech {
        return PatchPlan(Some("restricted_status_transition"), [], None, false);
      }
      updates := updates + [WoUpdate(WoStatus, Some(nextStatus))];
      statusReason := true;
    }
    var conflict: Option<Option<string>> := None;
    if "site_contact_phone" in opData {
      var incomingPhone := NullableText(Some(opData["site_contact_phone"]));
      var incomingVersion := ToNumber(Get(opData, "version"));
      var incomingUpdatedAt := parseDate(StringOr(Get(opData, "updated_at"), ""));
      var serverUpdatedAt := parseDate(current.updatedAt);
      var versionMismatch :=
        (incomingVersion.Some? && incomingVersion.value < current.version)
        || (incomingUpdatedAt.Some? && serverUpdatedAt.Some? && incomingUpdatedAt.value < serverUpdatedAt.value);
      assert versionMismatch == Stale(current, opData, parseDate);
      if versionMismatch && incomingPhone != current.siteContactPhone {
        conflict := Some(incomingPhone);
      } else {
        updates := updates + [WoUpdate(WoPhone, incomingPhone)];
      }
    }
    return PatchPlan(None, updates, conflict, statusReason);
  }

  /** The writes of a checked PATCH: the conflict record, then the row update (when there
      is anything to set). */
  method WritePatch(db: WorkOrderDatabase, id: string, current: WorkOrder, plan: PatchPlan, freshId: string)
    returns (v: Verdict)
    modifies db`workOrders, db`conflicts
    ensures v == PatchVerdict(plan, freshId)
    ensures db.conflicts == (if plan.rejection == None && plan.phoneConflict.Some?
      then old(db.conflicts)[freshId := PhoneConflictRecord(id, plan.phoneConflict.value, current.siteContactPhone)]
      else old(db.conflicts))
    ensures db.workOrders == (if plan.rejection == None && |plan.updates| > 0
      then old(db.workOrders)[id := ApplyWoUpdates(current, plan.updates)]
      else old(db.workOrders))
  {
    if plan.rejection.Some? {
      return Reason(Rejected, plan.rejection.value);
    }
    if plan.phoneConflict.Some? {
      db.conflicts := db.conflicts[freshId := PhoneConflictRecord(id, plan.phoneConflict.value, current.siteContactPhone)];
    }
    if |plan.updates| > 0 {
      db.workOrders := db.workOrders[id := ApplyWoUpdates(current, plan.updates)];
    }
    v := PatchVerdict(plan, freshId);
  }

  /** What `applyWorkOrderOperation` does to the tables `b`. `Throws` is the TypeError raised
      by reading the missing payload of a non-delete operation. */
  ghost function WorkOrderEffect(b: WoTables, op: Operation, role: Role, now: string, freshId: string,
                                 parseDate: string -> Option<int>): Effect {
    if op.op == Delete then
      // managers only; a missing row is not an error
      if role != Manager then Effect(b, Ok(Reason(Rejected, "restricted_delete")))
      else
        Effect(b.(workOrders := if op.id in b.workOrders then b.workOrders[op.id := b.workOrders[op.id].(deletedAt := Some(now))] else b.workOrders),
               Ok(Verdict(Applied, None, None)))
    else if op.id !in b.workOrders then
      // a missing id: only a manager's PUT with a non-blank title creates
      if op.op != Put then Effect(b, Ok(Reason(Rejected, "work_order_not_found")))
      else if role != Manager then Effect(b, Ok(Reason(Rejected, "restricted_create")))
      else if op.opData == None then Effect(b, Throws(MissingOpData))
      else if CreateTitle(op.opData.value) == "" then Effect(b, Ok(Reason(Rejected, "missing_title")))
      else Effect(b.(workOrders := b.workOrders[op.id := NewWorkOrder(op.opData.value, now)]), Ok(Reason(Applied, "created")))
    else if op.opData == None then Effect(b, Throws(MissingOpData))
    else if op.op == Put then
      Effect(b.(workOrders := b.workOrders[op.id := LastWriterWins(b.workOrders[op.id], op.opData.value)]), Ok(Reason(Applied, "lww_fields")))
    else
      var current := b.workOrders[op.id];
      var plan := PlanPatch(current, op.opData.value, role, parseDate);
      Effect(b.(conflicts := if plan.rejection == None && plan.phoneConflict.Some?
                             then b.conflicts[freshId := PhoneConflictRecord(op.id, plan.phoneConflict.value, current.siteContactPhone)]
                             else b.conflicts,
                workOrders := if plan.rejection == None && |plan.updates| > 0
                              then b.workOrders[op.id := ApplyWoUpdates(current, plan.updates)]
                              else b.workOrders),
             Ok(PatchVerdict(plan, freshId)))
  }

  /** The applier throws exactly for a payload-less update of an existing row or creation by
      a manager, and then it has written nothing; it never answers `server_error` itself. */
  lemma WorkOrderThrows(b: WoTables, op: Operation, role: Role, now: string, freshId: string, parseDate: string -> Option<int>)
    ensures var e := WorkOrderEffect(b, op, role, now, freshId, parseDate);
      && (e.outcome.Throws? <==> op.op != Delete && op.opData == None && (op.id in b.workOrders || (op.op == Put && role == Manager)))
      && (e.outcome.Throws? ==> e.tables == b)
      && (e.outcome.Ok? ==> e.outcome.value != Reason(Rejected, "server_error"))
  {
    if op.op == Patch && op.id in b.workOrders && op.opData.Some? {
      var plan := PlanPatch(b.workOrders[op.id], op.opData.value, role, parseDate);
      assert PatchVerdict(plan, freshId).reasonCode != Some("server_error");
    }
  }

  /** A technician neither deletes nor creates a work order. */
  lemma TechScope(b: WoTables, op: Operation, now: string, freshId: string, parseDate: string -> Option<int>)
    requires op.op == Delete || op.id !in b.workOrders
    ensures WorkOrderEffect(b, op, Tech, now, freshId, parseDate).tables == b
  {
  }

  /** `applyWorkOrderOperation` against the database. */
  method ApplyWorkOrder(db: WorkOrderDatabase, op: Operation, role: Role, now: string, freshId: string,
                        parseDate: string -> Option<int>)
    returns (r: Result<Verdict>)
    modifies db`workOrders, db`conflicts
    ensures Effect(db.Snapshot(), r) == WorkOrderEffect(old(db.Snapshot()), op, role, now, freshId, parseDate)
    ensures db.conflicts.Keys <= old(db.conflicts).Keys + {freshId}
    ensures forall k :: k in old(db.conflicts) && k != freshId ==> k in db.conflicts && db.conflicts[k] == old(db.conflicts)[k]
  {
    if op.op == Delete {
      if role != Manager {
        return Ok(Reason(Rejected, "restricted_delete"));
      }
      if op.id in db.workOrders {
        db.workOrders := db.workOrders[op.id := db.workOrders[op.id].(deletedAt := Some(now))];
      }
      return Ok(Verdict(Applied, None, None));
    }

    if op.id !in db.workOrders {
      if op.op == Put {
        if role != Manager {
          return Ok(Reason(Rejected, "restricted_create"));
        }
        if op.opData == None {
          return Throws(MissingOpData);
        }
        var data := op.opData.value;
        var title := Trim(StringOr(Get(data, "title"), ""));
        if title == "" {
          return Ok(Reason(Rejected, "missing_title"));
        }
        db.workOrders := db.workOrders[op.id := NewWorkOrder(data, now)];
        return Ok(Reason(Applied, "created"));
      }
      return Ok(Reason(Rejected, "work_order_not_found"));
    }

    if op.opData == None {
      return Throws(MissingOpData);
    }
    var current := db.workOrders[op.id];
    if op.op == Put {
      db.workOrders := db.workOrders[op.id := LastWriterWins(current, op.opData.value)];
      return Ok(Reason(Applied, "lww_fields"));
    }

    var plan := CheckPatch(current, op.opData.value, role, parseDate);
    var v := WritePatch(db, op.id, current, plan, freshId);
    r := Ok(v);
  }
}
