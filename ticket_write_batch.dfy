/**
  The ticket app's write-reconciliation engine (src/data/server/write-batch.ts). A batch of
  uploaded operations is worked through in order; each operation is keyed, looked up in
  the `sync_operation` ledger, and either answered from the ledger or dispatched to the
  applier for its table, whose outcome is then recorded first-write-wins.
*/
module TicketWriteBatch {
  import opened Wrappers
  import opened Js
  import opened SyncCore
  import opened TicketStore

  /** `toOpKey`: the tuple whose SHA-1 digest keys the ledger (the digest is taken as injective). */
  function ToOpKey(op: Operation, userId: string): OpKey {
    OpKey(op.op, op.table, op.id, Data(op), userId)
  }

  /** `asText`: null and undefined become "", anything else `String(value)`. */
  function AsText(v: Option<Json>): (r: string)
    ensures IsNullish(v) ==> r == ""
    ensures v.Some? && v.value.JStr? ==> r == v.value.s
  {
    if IsNullish(v) then "" else ToJsString(v.value)
  }

  predicate IsTicketStatus(s: string) {
    s == "pending" || s == "in_progress" || s == "done"
  }

  /** `normalizeStatus`: the trimmed text if it is one of the three statuses, else null. */
  function NormalizeStatus(v: Option<Json>): (r: Option<string>)
    ensures r.Some? ==> IsTicketStatus(r.value)
    ensures IsNullish(v) ==> r == None
  {
    var next := Trim(StringOr(v, ""));
    if IsTicketStatus(next) then Some(next) else None
  }

  /** Each of the three statuses, sent as text, is kept as it is. */
  lemma NormalizeStatusKeeps(s: string)
    requires IsTicketStatus(s)
    ensures NormalizeStatus(Some(JStr(s))) == Some(s)
  {
    TrimOfTrimmed(s);
  }

  // ---------------------------------------------------------------- ticket rows

  datatype Field = Title | Description | Status

  function FieldName(f: Field): string {
    match f
    case Title => "title"
    case Description => "description"
    case Status => "status"
  }

  /** One entry of the applier's `updates` list. */
  datatype Update = Update(field: Field, value: string)

  /** What a PUT or PATCH on an existing ticket decides before anything is updated: an
      early rejection, the title to raise a conflict for, the field updates, and whether a
      status change was blocked by the "done wins" rule. */
  datatype TicketPlan = TicketPlan(rejection: Option<string>, conflictTitle: Option<string>, updates: seq<Update>, blocked: bool)

  /** The trimmed title an operation carries, if it carries one. */
  function NextTitle(data: map<string, Json>): Option<string> {
    if "title" in data then Some(Trim(AsText(Some(data["title"])))) else None
  }

  /** A non-blank title that differs from the stored one is not written but raises a conflict. */
  function ConflictingTitle(current: Ticket, data: map<string, Json>): Option<string> {
    var next := NextTitle(data);
    if next.Some? && next.value != "" && next != current.title then next else None
  }

  /** The title (when it matches the stored one) and the description, in that order. */
  function TextUpdates(current: Ticket, data: map<string, Json>): seq<Update> {
    var next := NextTitle(data);
    (if next.Some? && next == current.title then [Update(Title, next.value)] else [])
      + (if "description" in data then [Update(Description, AsText(Some(data["description"])))] else [])
  }

  function PlanTicketUpdate(current: Ticket, data: map<string, Json>): TicketPlan
  {
    if NextTitle(data) == Some("") then TicketPlan(Some("missing_title"), None, [], false)
    else
      var conflictTitle := ConflictingTitle(current, data);
      var updates := TextUpdates(current, data);
      if "status" in data then
        var next := NormalizeStatus(Some(data["status"]));
        if next == None then TicketPlan(Some("invalid_status"), conflictTitle, [], false)
        else if current.status == Some("done") && next.value != "done" then TicketPlan(None, conflictTitle, updates, true)
        else TicketPlan(None, conflictTitle, updates + [Update(Status, next.value)], false)
      else TicketPlan(None, conflictTitle, updates, false)
  }

  /** Past the blank-title check, the plan is built from its three stages. */
  lemma PlanStages(current: Ticket, data: map<string, Json>)
    requires NextTitle(data) != Some("")
    ensures var plan := PlanTicketUpdate(current, data);
      && plan.conflictTitle == ConflictingTitle(current, data)
      && ("status" !in data ==> plan.rejection == None && plan.updates == TextUpdates(current, data) && !plan.blocked)
  {
  }

  /** The outcome of a PUT or PATCH on an existing ticket, given its plan and the id of the
      conflict row raised for it (if any). */
  function TicketVerdict(plan: TicketPlan, conflictId: string): (v: Verdict)
    ensures v.reasonCode.Some?
    ensures v.result == NeedsReview <==> plan.rejection == None && plan.conflictTitle.Some?
    ensures v.conflictId == (if v.result == NeedsReview then Some(conflictId) else None)
    ensures v.result == Merged <==> plan.rejection == None && plan.conflictTitle == None && plan.blocked
    ensures v.result == Applied <==> plan.rejection == None && plan.conflictTitle == None && !plan.blocked && |plan.updates| > 0
  {
    if plan.rejection.Some? then Reason(Rejected, plan.rejection.value)
    else if plan.conflictTitle.Some? then Verdict(NeedsReview, Some("manual_title_conflict"), Some(conflictId))
    else if plan.blocked && |plan.updates| == 0 then Reason(Merged, "domain_done_wins")
    else if |plan.updates| == 0 then Reason(Rejected, "no_supported_fields")
    else if plan.blocked then Reason(Merged, "domain_done_wins")
    else Reason(Applied, "ticket_updated")
  }

  /** `UPDATE ticket SET <field> = <value>, ...`. */
  function ApplyUpdates(t: Ticket, updates: seq<Update>): (r: Ticket)
    ensures r.deletedAt == t.deletedAt && r.createdAt == t.createdAt
    ensures r.updatedAt == t.updatedAt && r.version == t.version
    ensures !Touches(updates, Title) ==> r.title == t.title
    ensures !Touches(updates, Description) ==> r.description == t.description
    ensures !Touches(updates, Status) ==> r.status == t.status
  {
    if updates == [] then t
    else SetField(ApplyUpdates(t, updates[..|updates| - 1]), updates[|updates| - 1])
  }

  /** `<field> = <value>` on one row. */
  function SetField(t: Ticket, u: Update): Ticket {
    match u.field
    case Title => t.(title := Some(u.value))
    case Description => t.(description := Some(u.value))
    case Status => t.(status := Some(u.value))
  }

  lemma ApplyUpdatesSnoc(t: Ticket, updates: seq<Update>, u: Update)
    ensures ApplyUpdates(t, updates + [u]) == SetField(ApplyUpdates(t, updates), u)
  {
    assert (updates + [u])[..|updates|] == updates;
  }

  predicate Touches(updates: seq<Update>, f: Field) {
    exists i :: 0 <= i < |updates| && updates[i].field == f
  }

  /** The updates a plan carries: the title, the description and the status, each at most
      once and in that order. */
  lemma PlanUpdates(current: Ticket, data: map<string, Json>)
    requires PlanTicketUpdate(current, data).rejection == None
    ensures var plan := PlanTicketUpdate(current, data);
      var text := TextUpdates(current, data);
      var next := NormalizeStatus(Get(data, "status"));
      && plan.updates == text + (if "status" in data && !plan.blocked then [Update(Status, next.value)] else [])
      && ("status" in data ==> next.Some?)
      && !Touches(text, Status)
  {
  }

  /** What a successful PUT or PATCH leaves in the ticket row: the description when one is
      sent, the status unless the "done wins" rule blocks it, the title only when it matches
      the stored one; every other column as it was. */
  lemma {:induction false} PlanOutcome(current: Ticket, data: map<string, Json>)
    requires PlanTicketUpdate(current, data).rejection == None
    ensures var plan := PlanTicketUpdate(current, data);
      var t := ApplyUpdates(current, plan.updates);
      && t.title == current.title
      && t.description == (if "description" in data then Some(AsText(Some(data["description"]))) else current.description)
      && t.status == (if "status" in data && !plan.blocked then NormalizeStatus(Some(data["status"])) else current.status)
      && t.deletedAt == current.deletedAt && t.version == current.version && t.updatedAt == current.updatedAt
  {
    var plan := PlanTicketUpdate(current, data);
    var text := TextUpdates(current, data);
    PlanUpdates(current, data);
    TextOutcome(current, data);
    var before := ApplyUpdates(current, text);
    if "status" in data && !plan.blocked {
      var next := NormalizeStatus(Some(data["status"]));
      var u := Update(Status, next.value);
      assert plan.updates == text + [u];
      ApplyUpdatesSnoc(current, text, u);
      assert ApplyUpdates(current, plan.updates) == before.(status := next);
    } else {
      assert plan.updates == text;
    }
  }

  /** The title and description updates leave the title as it was (it is only rewritten
      with the value it already has) and set the description when one is sent. */
  lemma TextOutcome(current: Ticket, data: map<string, Json>)
    ensures var t := ApplyUpdates(current, TextUpdates(current, data));
      && t.title == current.title && t.status == current.status
      && t.description == (if "description" in data then Some(AsText(Some(data["description"]))) else current.description)
  {
    var next := NextTitle(data);
    var titled := if next.Some? && next == current.title then [Update(Title, next.value)] else [];
    assert ApplyUpdates(current, titled) == current by {
      if titled != [] {
        ApplyUpdatesSnoc(current, [], titled[0]);
        assert [] + [titled[0]] == titled;
      }
    }
    if "description" in data {
      ApplyUpdatesSnoc(current, titled, Update(Description, AsText(Some(data["description"]))));
    } else {
      assert TextUpdates(current, data) == titled;
    }
  }

  /** Done wins: once a ticket is done, no operation moves it back to another status. */
  lemma DoneWins(current: Ticket, data: map<string, Json>)
    requires current.status == Some("done")
    ensures var plan := PlanTicketUpdate(current, data);
      plan.rejection == None ==> ApplyUpdates(current, plan.updates).status == Some("done")
  {
    if PlanTicketUpdate(current, data).rejection == None {
      PlanOutcome(current, data);
    }
  }

  /** A title conflict is raised exactly when a non-blank title that differs from the stored
      one is sent, and then the title is not written. */
  lemma TitleConflictIff(current: Ticket, data: map<string, Json>)
    ensures var plan := PlanTicketUpdate(current, data);
      && (plan.conflictTitle.Some? <==>
            "title" in data && Trim(AsText(Some(data["title"]))) != "" && Some(Trim(AsText(Some(data["title"])))) != current.title)
      && (plan.conflictTitle.Some? ==> plan.conflictTitle == Some(Trim(AsText(Some(data["title"])))) && !Touches(plan.updates, Title))
  {
    if NextTitle(data) != Some("") {
      PlanStages(current, data);
      if ConflictingTitle(current, data).Some? {
        ConflictLeavesTitle(current, data);
      }
    }
  }

  /** With a conflicting title, no update of the plan writes the title. */
  lemma ConflictLeavesTitle(current: Ticket, data: map<string, Json>)
    requires ConflictingTitle(current, data).Some?
    ensures !Touches(PlanTicketUpdate(current, data).updates, Title)
  {
    var plan := PlanTicketUpdate(current, data);
    if plan.rejection == None {
      var text := TextUpdates(current, data);
      assert forall i :: 0 <= i < |text| ==> text[i].field == Description;
      PlanUpdates(current, data);
      assert forall i :: 0 <= i < |plan.updates| ==> plan.updates[i].field != Title;
    } else {
      assert plan.updates == [];
    }
  }

  /** One `ticket_field_updated` activity per update, in order. */
  function FieldActivities(ticketId: string, updates: seq<Update>, userId: string): (r: seq<Activity>)
    ensures |r| == |updates|
  {
    if updates == [] then []
    else
      var u := updates[|updates| - 1];
      FieldActivities(ticketId, updates[..|updates| - 1], userId)
        + [Activity(ticketId, "ticket_field_updated", Some(FieldName(u.field)), map["value" := JStr(u.value)], Some(userId))]
  }

  /** The activity a PUT or PATCH on an existing ticket logs: nothing when it is rejected,
      otherwise the field updates followed by the conflict, if one was raised. */
  function PlanActivity(ticketId: string, plan: TicketPlan, userId: string, conflictId: string): seq<Activity> {
    if plan.rejection.Some? then []
    else
      FieldActivities(ticketId, plan.updates, userId)
        + (if plan.conflictTitle.Some? then [ConflictLogged(ticketId, conflictId, userId)] else [])
  }

  function ConflictLogged(ticketId: string, conflictId: string, userId: string): Activity {
    Activity(ticketId, "ticket_conflict_created", Some("title"), map["conflictId" := JStr(conflictId)], Some(userId))
  }

  function TitleConflict(ticketId: string, local: string, server: Option<string>): TicketConflict {
    TicketConflict(ticketId, "title", ValueObject(Some(local)), ValueObject(server), "open", None, None, None)
  }

  /** Appends one `ticket_field_updated` activity per update, in order. */
  method LogFieldUpdates(db: TicketDatabase, ticketId: string, updates: seq<Update>, userId: string)
    modifies db`activity
    ensures db.activity == old(db.activity) + FieldActivities(ticketId, updates, userId)
  {
    var i := 0;
    while i < |updates|
      invariant 0 <= i <= |updates|
      invariant db.activity == old(db.activity) + FieldActivities(ticketId, updates[..i], userId)
    {
      var u := updates[i];
      assert updates[..i + 1][..i] == updates[..i];
      db.activity := db.activity
        + [Activity(ticketId, "ticket_field_updated", Some(FieldName(u.field)), map["value" := JStr(u.value)], Some(userId))];
      i := i + 1;
    }
    assert updates[..i] == updates;
  }

  /** The field checks of a PUT or PATCH on an existing ticket (title, then description,
      then status), computing the plan the writes below follow. */
  method CheckFields(current: Ticket, opData: map<string, Json>) returns (plan: TicketPlan)
    ensures plan == PlanTicketUpdate(current, opData)
  {
    var updates: seq<Update> := [];
    var blockedStatus := false;
    var conflictTitle: Option<string> := None;

    if "title" in opData {
      var nextTitle := Trim(AsText(Some(opData["title"])));
      if nextTitle == "" {
        return TicketPlan(Some("missing_title"), None, [], false);
      }
      assert NextTitle(opData) == Some(nextTitle);
      if Some(nextTitle) != current.title {
        conflictTitle := Some(nextTitle);
      } else {
        updates := updates + [Update(Title, nextTitle)];
      }
    }
    assert conflictTitle == ConflictingTitle(current, opData);

    if "description" in opData {
      updates := updates + [Update(Description, AsText(Some(opData["description"])))];
    }

    assert updates == TextUpdates(current, opData);
    PlanStages(current, opData);

    if "status" in opData {
      var nextStatus := NormalizeStatus(Some(opData["status"]));
      if nextStatus == None {
        return TicketPlan(Some("invalid_status"), conflictTitle, [], false);
      }
      if current.status == Some("done") && nextStatus.value != "done" {
        blockedStatus := true;
      } else {
        updates := updates + [Update(Status, nextStatus.value)];
      }
    }
    return TicketPlan(None, conflictTitle, updates, blockedStatus);
  }

  /** The writes of a PUT or PATCH on a ticket that exists (soft-deleted or not), once
      its fields have been checked: the conflict row (even when the status is then
      rejected), the field updates with one activity each, and the conflict activity. */
  method WritePlan(db: TicketDatabase, ticketId: string, current: Ticket, plan: TicketPlan, userId: string, freshId: string)
    returns (v: Verdict)
    modifies db`tickets, db`conflicts, db`activity
    ensures v == TicketVerdict(plan, freshId)
    ensures db.conflicts == (if plan.conflictTitle.Some? then old(db.conflicts)[freshId := TitleConflict(ticketId, plan.conflictTitle.value, current.title)] else old(db.conflicts))
    ensures db.tickets == (if plan.rejection == None && |plan.updates| > 0 then old(db.tickets)[ticketId := ApplyUpdates(current, plan.updates)] else old(db.tickets))
    ensures db.activity == old(db.activity) + PlanActivity(ticketId, plan, userId, freshId)
  {
    if plan.conflictTitle.Some? {
      db.conflicts := db.conflicts[freshId := TitleConflict(ticketId, plan.conflictTitle.value, current.title)];
    }
    if plan.rejection == None {
      if |plan.updates| > 0 {
        db.tickets := db.tickets[ticketId := ApplyUpdates(current, plan.updates)];
      }
      LogFieldUpdates(db, ticketId, plan.updates, userId);
      if plan.conflictTitle.Some? {
        db.activity := db.activity + [ConflictLogged(ticketId, freshId, userId)];
      }
    } else {
      assert db.activity == old(db.activity) + [];
    }
    v := TicketVerdict(plan, freshId);
  }

  /** What an applier leaves behind: the tables, and the verdict it answered or what it threw. */
  datatype Effect = Effect(tables: TicketTables, outcome: Result<Verdict>)

  /** What `applyTicketOperation` does to the tables `b`. */
  ghost function TicketEffect(b: TicketTables, op: Operation, userId: string, now: string, freshId: string): Effect {
    if op.op == Delete then
      // soft delete (if the row exists) and always log it
      Effect(b.(tickets := if op.id in b.tickets then b.tickets[op.id := b.tickets[op.id].(deletedAt := Some(now))] else b.tickets,
                activity := b.activity + [Activity(op.id, "ticket_deleted", None, map[], Some(userId))]),
             Ok(Reason(Applied, "ticket_soft_deleted")))
    else if op.id !in b.tickets then CreateEffect(b, op, userId, now)
    else UpdateEffect(b, op, userId, freshId)
  }

  /** A PUT or PATCH on a missing id: only a PUT with a non-blank title creates. */
  ghost function CreateEffect(b: TicketTables, op: Operation, userId: string, now: string): Effect {
    var title := Trim(AsText(Get(Data(op), "title")));
    var status := NormalizeStatus(Get(Data(op), "status")).GetOr("pending");
    if op.op != Put then Effect(b, Ok(Reason(Rejected, "ticket_not_found")))
    else if title == "" then Effect(b, Ok(Reason(Rejected, "missing_title")))
    else
      Effect(b.(tickets := b.tickets[op.id := Ticket(Some(title), Some(AsText(Get(Data(op), "description"))), Some(status), None, now, now, 0)],
                activity := b.activity + [Activity(op.id, "ticket_created", None, map["title" := JStr(title), "status" := JStr(status)], Some(userId))]),
             Ok(Reason(Applied, "ticket_created")))
  }

  /** A PUT or PATCH on an existing id, as planned by `PlanTicketUpdate`. */
  ghost function UpdateEffect(b: TicketTables, op: Operation, userId: string, freshId: string): Effect
    requires op.id in b.tickets
  {
    var current := b.tickets[op.id];
    var plan := PlanTicketUpdate(current, Data(op));
    var written := plan.rejection == None && |plan.updates| > 0;
    Effect(b.(conflicts := if plan.conflictTitle.Some? then b.conflicts[freshId := TitleConflict(op.id, plan.conflictTitle.value, current.title)] else b.conflicts,
              tickets := if written then b.tickets[op.id := ApplyUpdates(current, plan.updates)] else b.tickets,
              activity := b.activity + PlanActivity(op.id, plan, userId, freshId)),
           Ok(TicketVerdict(plan, freshId)))
  }

  /** `applyTicketOperation` against the database. */
  method ApplyTicket(db: TicketDatabase, op: Operation, userId: string, now: string, freshId: string)
    returns (v: Verdict)
    modifies db`tickets, db`conflicts, db`activity
    ensures Effect(db.Snapshot(), Ok(v)) == TicketEffect(old(db.Snapshot()), op, userId, now, freshId)
    ensures db.conflicts.Keys <= old(db.conflicts.Keys) + {freshId}
  {
    if op.op == Delete {
      if op.id in db.tickets {
        db.tickets := db.tickets[op.id := db.tickets[op.id].(deletedAt := Some(now))];
      }
      db.activity := db.activity + [Activity(op.id, "ticket_deleted", None, map[], Some(userId))];
      return Reason(Applied, "ticket_soft_deleted");
    }
    if op.id !in db.tickets {
      v := CreateTicket(db, op, userId, now);
    } else {
      v := UpdateTicket(db, op, userId, freshId);
    }
  }

  /** The missing-id branch of `applyTicketOperation`. */
  method CreateTicket(db: TicketDatabase, op: Operation, userId: string, now: string) returns (v: Verdict)
    requires op.id !in db.tickets
    modifies db`tickets, db`activity
    ensures Effect(db.Snapshot(), Ok(v)) == CreateEffect(old(db.Snapshot()), op, userId, now)
  {
    var opData := Data(op);
    if op.op != Put {
      return Reason(Rejected, "ticket_not_found");
    }
    var title := Trim(AsText(Get(opData, "title")));
    if title == "" {
      return Reason(Rejected, "missing_title");
    }
    var description := AsText(Get(opData, "description"));
    var status := NormalizeStatus(Get(opData, "status")).GetOr("pending");
    db.tickets := db.tickets[op.id := Ticket(Some(title), Some(description), Some(status), None, now, now, 0)];
    db.activity := db.activity + [Activity(op.id, "ticket_created", None, map["title" := JStr(title), "status" := JStr(status)], Some(userId))];
    return Reason(Applied, "ticket_created");
  }

  /** The existing-id branch of `applyTicketOperation`: check the fields, then write the plan. */
  method UpdateTicket(db: TicketDatabase, op: Operation, userId: string, freshId: string) returns (v: Verdict)
    requires op.id in db.tickets
    modifies db`tickets, db`conflicts, db`activity
    ensures Effect(db.Snapshot(), Ok(v)) == UpdateEffect(old(db.Snapshot()), op, userId, freshId)
    ensures db.conflicts.Keys <= old(db.conflicts.Keys) + {freshId}
  {
    var current := db.tickets[op.id];
    var plan := CheckFields(current, Data(op));
    v := WritePlan(db, op.id, current, plan, userId, freshId);
  }

  // ---------------------------------------------------------------- child rows

  /** The error the database raises when an insert reuses a primary key outside the
      conflict target of its `ON CONFLICT` clause. */
  const PrimaryKeyViolation := "duplicate key value violates unique constraint"

  /** `asText(opData[key]).trim()`. */
  function TextField(data: map<string, Json>, key: string): string {
    Trim(AsText(Get(data, key)))
  }

  /** The row a PUT or PATCH upserts, or `None` when its ticket id or user id is blank. */
  function AssignmentRow(data: map<string, Json>, now: string): Option<Assignment> {
    var ticketId, assignee := TextField(data, "ticket_id"), TextField(data, "user_id");
    if ticketId == "" || assignee == "" then None else Some(Assignment(ticketId, assignee, None, now))
  }

  /** What `applyTicketAssignmentOperation` does to the tables `b`: an upsert on (ticket_id,
      user_id) that revives a removed assignment. */
  ghost function AssignmentEffect(b: TicketTables, op: Operation, userId: string, now: string): Effect {
    if op.op == Delete then
      Effect(b.(assignments := SoftDelete(b.assignments, op.id, AssignmentRemoved(now))),
             Ok(Reason(Applied, "assignment_removed")))
    else
      match AssignmentRow(Data(op), now)
      case None => Effect(b, Ok(Reason(Rejected, "invalid_assignment_payload")))
      case Some(row) =>
        if Holder(b.assignments, AssignmentKey, AssignmentKey(row)).None? && op.id in b.assignments then
          Effect(b, Throws(PrimaryKeyViolation))
        else
          Effect(b.(assignments := Upsert(b.assignments, op.id, row, AssignmentKey, RevivedAssignment),
                    activity := b.activity + [Activity(row.ticketId, "assignment_added", Some("assignee"), map["userId" := JStr(row.userId)], Some(userId))]),
                 Ok(Reason(Applied, "assignment_upserted")))
  }

  /** `applyTicketAssignmentOperation` against the database. */
  method ApplyAssignment(db: TicketDatabase, op: Operation, userId: string, now: string) returns (r: Result<Verdict>)
    requires db.Valid()
    modifies db`assignments, db`activity
    ensures db.Valid()
    ensures Effect(db.Snapshot(), r) == AssignmentEffect(old(db.Snapshot()), op, userId, now)
  {
    if op.op == Delete {
      SoftDeleteKeepsUnique(db.assignments, op.id, AssignmentRemoved(now), AssignmentKey);
      db.assignments := SoftDelete(db.assignments, op.id, AssignmentRemoved(now));
      return Ok(Reason(Applied, "assignment_removed"));
    }
    var row := AssignmentRow(Data(op), now);
    if row.None? {
      return Ok(Reason(Rejected, "invalid_assignment_payload"));
    }
    var upserted := UpsertRow(db.assignments, op.id, row.value, AssignmentKey, RevivedAssignment);
    if upserted.None? {
      return Throws(PrimaryKeyViolation);
    }
    db.assignments := upserted.value;
    db.activity := db.activity + [Activity(row.value.ticketId, "assignment_added", Some("assignee"), map["userId" := JStr(row.value.userId)], Some(userId))];
    return Ok(Reason(Applied, "assignment_upserted"));
  }

  /** What `applyTicketCommentOperation` does to the tables `b`: an upsert on id, where a
      repeated id takes the new body and is revived. */
  ghost function CommentEffect(b: TicketTables, op: Operation, userId: string, now: string): Effect {
    if op.op == Delete then
      Effect(b.(comments := SoftDelete(b.comments, op.id, CommentRemoved(now))),
             Ok(Reason(Applied, "comment_removed")))
    else
      var ticketId, body := TextField(Data(op), "ticket_id"), TextField(Data(op), "body");
      if ticketId == "" || body == "" then Effect(b, Ok(Reason(Rejected, "invalid_comment_payload")))
      else
        Effect(b.(comments := b.comments[op.id :=
                    if op.id in b.comments then b.comments[op.id].(body := body, deletedAt := None)
                    else Comment(ticketId, body, userId, None, now)],
                  activity := b.activity + [Activity(ticketId, "comment_added", Some("comment"), map["commentId" := JStr(op.id)], Some(userId))]),
               Ok(Reason(Applied, "comment_upserted")))
  }

  /** `applyTicketCommentOperation` against the database. */
  method ApplyComment(db: TicketDatabase, op: Operation, userId: string, now: string) returns (v: Verdict)
    modifies db`comments, db`activity
    ensures Effect(db.Snapshot(), Ok(v)) == CommentEffect(old(db.Snapshot()), op, userId, now)
  {
    if op.op == Delete {
      db.comments := SoftDelete(db.comments, op.id, CommentRemoved(now));
      return Reason(Applied, "comment_removed");
    }
    var opData := Data(op);
    var ticketId := TextField(opData, "ticket_id");
    var body := TextField(opData, "body");
    if ticketId == "" || body == "" {
      return Reason(Rejected, "invalid_comment_payload");
    }
    if op.id in db.comments {
      db.comments := db.comments[op.id := db.comments[op.id].(body := body, deletedAt := None)];
    } else {
      db.comments := db.comments[op.id := Comment(ticketId, body, userId, None, now)];
    }
    db.activity := db.activity + [Activity(ticketId, "comment_added", Some("comment"), map["commentId" := JStr(op.id)], Some(userId))];
    return Reason(Applied, "comment_upserted");
  }

  /** The stored hash of an attachment url: the client's `url_hash` if it is not blank, else the MD5 hex digest of the url. */
  function UrlHash(data: map<string, Json>, url: string, md5: string -> string): string {
    var given := TextField(data, "url_hash");
    if given != "" then given else md5(url)
  }

  /** The row a PUT or PATCH upserts, or `None` when its ticket id or url is blank. */
  function AttachmentRow(data: map<string, Json>, userId: string, now: string, md5: string -> string): Option<AttachmentUrl> {
    var ticketId, url := TextField(data, "ticket_id"), TextField(data, "url");
    if ticketId == "" || url == "" then None
    else Some(AttachmentUrl(ticketId, url, UrlHash(data, url, md5), userId, None, now))
  }

  /** What `applyTicketAttachmentUrlOperation` does to the tables `b`: an upsert on
      (ticket_id, url_hash) that takes the new url. */
  ghost function AttachmentEffect(b: TicketTables, op: Operation, userId: string, now: string, md5: string -> string): Effect {
    if op.op == Delete then
      Effect(b.(attachments := SoftDelete(b.attachments, op.id, AttachmentRemoved(now))),
             Ok(Reason(Applied, "attachment_removed")))
    else
      match AttachmentRow(Data(op), userId, now, md5)
      case None => Effect(b, Ok(Reason(Rejected, "invalid_attachment_payload")))
      case Some(row) =>
        if Holder(b.attachments, AttachmentKey, AttachmentKey(row)).None? && op.id in b.attachments then
          Effect(b, Throws(PrimaryKeyViolation))
        else
          Effect(b.(attachments := Upsert(b.attachments, op.id, row, AttachmentKey, RevivedAttachment),
                    activity := b.activity + [Activity(row.ticketId, "attachment_added", Some("attachment_url"), map["url" := JStr(row.url)], Some(userId))]),
                 Ok(Reason(Applied, "attachment_upserted")))
  }

  /** `applyTicketAttachmentUrlOperation` against the database. */
  method ApplyAttachmentUrl(db: TicketDatabase, op: Operation, userId: string, now: string, md5: string -> string)
    returns (r: Result<Verdict>)
    requires db.Valid()
    modifies db`attachments, db`activity
    ensures db.Valid()
    ensures Effect(db.Snapshot(), r) == AttachmentEffect(old(db.Snapshot()), op, userId, now, md5)
  {
    if op.op == Delete {
      SoftDeleteKeepsUnique(db.attachments, op.id, AttachmentRemoved(now), AttachmentKey);
      db.attachments := SoftDelete(db.attachments, op.id, AttachmentRemoved(now));
      return Ok(Reason(Applied, "attachment_removed"));
    }
    var row := AttachmentRow(Data(op), userId, now, md5);
    if row.None? {
      return Ok(Reason(Rejected, "invalid_attachment_payload"));
    }
    var upserted := UpsertRow(db.attachments, op.id, row.value, AttachmentKey, RevivedAttachment);
    if upserted.None? {
      return Throws(PrimaryKeyViolation);
    }
    db.attachments := upserted.value;
    db.activity := db.activity + [Activity(row.value.ticketId, "attachment_added", Some("attachment_url"), map["url" := JStr(row.value.url)], Some(userId))];
    return Ok(Reason(Applied, "attachment_upserted"));
  }

  /** What `applyTicketLinkOperation` does to the tables `b`: an upsert on id, where a repeated
      id takes the new url and is revived. */
  ghost function LinkEffect(b: TicketTables, op: Operation, userId: string, now: string): Effect {
    if op.op == Delete then
      Effect(b.(links := SoftDelete(b.links, op.id, LinkRemoved(now))),
             Ok(Reason(Applied, "link_removed")))
    else
      var ticketId, url := TextField(Data(op), "ticket_id"), TextField(Data(op), "url");
      if ticketId == "" || url == "" then Effect(b, Ok(Reason(Rejected, "invalid_link_payload")))
      else
        Effect(b.(links := b.links[op.id :=
                    if op.id in b.links then b.links[op.id].(url := url, deletedAt := None)
                    else Link(ticketId, url, userId, None, now)],
                  activity := b.activity + [Activity(ticketId, "link_added", Some("link"), map["url" := JStr(url)], Some(userId))]),
               Ok(Reason(Applied, "link_upserted")))
  }

  /** `applyTicketLinkOperation` against the database. */
  method ApplyLink(db: TicketDatabase, op: Operation, userId: string, now: string) returns (v: Verdict)
    modifies db`links, db`activity
    ensures Effect(db.Snapshot(), Ok(v)) == LinkEffect(old(db.Snapshot()), op, userId, now)
  {
    if op.op == Delete {
      db.links := SoftDelete(db.links, op.id, LinkRemoved(now));
      return Reason(Applied, "link_removed");
    }
    var opData := Data(op);
    var ticketId := TextField(opData, "ticket_id");
    var url := TextField(opData, "url");
    if ticketId == "" || url == "" {
      return Reason(Rejected, "invalid_link_payload");
    }
    if op.id in db.links {
      db.links := db.links[op.id := db.links[op.id].(url := url, deletedAt := None)];
    } else {
      db.links := db.links[op.id := Link(ticketId, url, userId, None, now)];
    }
    db.activity := db.activity + [Activity(ticketId, "link_added", Some("link"), map["url" := JStr(url)], Some(userId))];
    return Reason(Applied, "link_upserted");
  }

  /** What `applyTicketDescriptionUpdateOperation` does to the tables `b`: insert-only, where a
      repeated id leaves the stored update as it is. */
  ghost function DescriptionUpdateEffect(b: TicketTables, op: Operation, userId: string, now: string): Effect {
    if op.op == Delete then Effect(b, Ok(Reason(Rejected, "description_update_delete_not_supported")))
    else
      var ticketId, updateB64 := TextField(Data(op), "ticket_id"), TextField(Data(op), "update_b64");
      if ticketId == "" || updateB64 == "" then Effect(b, Ok(Reason(Rejected, "invalid_description_update_payload")))
      else if op.id in b.descriptionUpdates then Effect(b, Ok(Reason(Applied, "description_update_duplicate")))
      else
        Effect(b.(descriptionUpdates := b.descriptionUpdates[op.id := DescriptionUpdate(ticketId, updateB64, userId, now)]),
               Ok(Reason(Applied, "description_update_inserted")))
  }

  /** `applyTicketDescriptionUpdateOperation` against the database. */
  method ApplyDescriptionUpdate(db: TicketDatabase, op: Operation, userId: string, now: string) returns (v: Verdict)
    modifies db`descriptionUpdates
    ensures Effect(db.Snapshot(), Ok(v)) == DescriptionUpdateEffect(old(db.Snapshot()), op, userId, now)
  {
    if op.op == Delete {
      return Reason(Rejected, "description_update_delete_not_supported");
    }
    var opData := Data(op);
    var ticketId := TextField(opData, "ticket_id");
    var updateB64 := TextField(opData, "update_b64");
    if ticketId == "" || updateB64 == "" {
      return Reason(Rejected, "invalid_description_update_payload");
    }
    if op.id in db.descriptionUpdates {
      return Reason(Applied, "description_update_duplicate");
    }
    db.descriptionUpdates := db.descriptionUpdates[op.id := DescriptionUpdate(ticketId, updateB64, userId, now)];
    return Reason(Applied, "description_update_inserted");
  }

  // ---------------------------------------------------------------- dispatch, ledger, batch

  /** The five tables that hang off a ticket. */
  predicate IsChildTable(table: string) {
    table == "ticket_assignment" || table == "ticket_comment" || table == "ticket_attachment_url"
    || table == "ticket_link" || table == "ticket_description_update"
  }

  predicate IsTicketTable(table: string) {
    table == "ticket" || IsChildTable(table)
  }

  /** What the child-table half of `applyOperation` does to the tables `b`: the applier for
      the operation's table; any other table is unsupported. */
  ghost function ChildEffect(b: TicketTables, op: Operation, userId: string, now: string, md5: string -> string): Effect {
    if op.table == "ticket_assignment" then AssignmentEffect(b, op, userId, now)
    else if op.table == "ticket_comment" then CommentEffect(b, op, userId, now)
    else if op.table == "ticket_attachment_url" then AttachmentEffect(b, op, userId, now, md5)
    else if op.table == "ticket_link" then LinkEffect(b, op, userId, now)
    else if op.table == "ticket_description_update" then DescriptionUpdateEffect(b, op, userId, now)
    else Effect(b, Ok(Reason(Rejected, "unsupported_table")))
  }

  /** What `applyOperation` does to the tables `b`: the applier for the operation's table. */
  ghost function OperationEffect(b: TicketTables, op: Operation, userId: string, now: string, freshId: string, md5: string -> string): Effect {
    if op.table == "ticket" then TicketEffect(b, op, userId, now, freshId) else ChildEffect(b, op, userId, now, md5)
  }

  /** The child-table half of `applyOperation`. Only the two upserts on a natural key can
      fail, and they roll back when they do. */
  method ApplyChildOperation(db: TicketDatabase, op: Operation, userId: string, now: string, md5: string -> string)
    returns (r: Result<Verdict>)
    requires db.Valid()
    modifies db`assignments, db`comments, db`attachments, db`links, db`descriptionUpdates, db`activity
    ensures db.Valid()
    ensures Effect(db.Snapshot(), r) == ChildEffect(old(db.Snapshot()), op, userId, now, md5)
    ensures !IsChildTable(op.table) ==> r == Ok(Reason(Rejected, "unsupported_table")) && unchanged(db)
    ensures r.Throws? ==> (op.table == "ticket_assignment" || op.table == "ticket_attachment_url") && unchanged(db)
  {
    if op.table == "ticket_assignment" {
      r := ApplyAssignment(db, op, userId, now);
    } else if op.table == "ticket_comment" {
      var v := ApplyComment(db, op, userId, now);
      r := Ok(v);
    } else if op.table == "ticket_attachment_url" {
      r := ApplyAttachmentUrl(db, op, userId, now, md5);
    } else if op.table == "ticket_link" {
      var v := ApplyLink(db, op, userId, now);
      r := Ok(v);
    } else if op.table == "ticket_description_update" {
      var v := ApplyDescriptionUpdate(db, op, userId, now);
      r := Ok(v);
    } else {
      r := Ok(Reason(Rejected, "unsupported_table"));
    }
  }

  /** `applyOperation`: the applier for the operation's table. */
  method ApplyOperation(db: TicketDatabase, op: Operation, userId: string, now: string, freshId: string, md5: string -> string)
    returns (r: Result<Verdict>)
    requires db.Valid()
    modifies db`tickets, db`assignments, db`comments, db`attachments, db`links, db`descriptionUpdates, db`conflicts, db`activity
    ensures db.Valid()
    ensures db.conflicts.Keys <= old(db.conflicts.Keys) + {freshId}
    ensures forall k :: k in old(db.conflicts) && k != freshId ==> k in db.conflicts && db.conflicts[k] == old(db.conflicts)[k]
    ensures Effect(db.Snapshot(), r) == OperationEffect(old(db.Snapshot()), op, userId, now, freshId, md5)
    ensures !IsTicketTable(op.table) ==> r == Ok(Reason(Rejected, "unsupported_table")) && unchanged(db)
    ensures r.Throws? ==> (op.table == "ticket_assignment" || op.table == "ticket_attachment_url") && unchanged(db)
  {
    if op.table == "ticket" {
      var v := ApplyTicket(db, op, userId, now, freshId);
      r := Ok(v);
    } else {
      r := ApplyChildOperation(db, op, userId, now, md5);
    }
  }

  /** The server between two operations: its tables and its ledger. */
  datatype ServerState = ServerState(tables: TicketTables, ledger: map<OpKey, Verdict>)

  /** Where a step leaves the server, and what it returned or threw. */
  datatype Outcome<T> = Outcome(server: ServerState, result: Result<T>)

  /** What `resolveWithDedupe` does from the server `s`: a key the ledger knows is answered
      from the ledger and nothing changes; any other operation is applied, and its verdict
      recorded under its key unless it threw. */
  ghost function ResolveStep(s: ServerState, op: Operation, userId: string, now: string, freshId: string, md5: string -> string)
    : Outcome<SyncResult<OpKey>>
  {
    var key := ToOpKey(op, userId);
    if key in s.ledger then Outcome(s, Ok(SyncResult(key, op.table, op.id, s.ledger[key])))
    else
      var e := OperationEffect(s.tables, op, userId, now, freshId, md5);
      match e.outcome
      case Throws(message) => Outcome(ServerState(e.tables, s.ledger), Throws(message))
      case Ok(v) => Outcome(ServerState(e.tables, RecordFirst(s.ledger, key, v)), Ok(SyncResult(key, op.table, op.id, v)))
  }

  /** A step keeps every outcome the ledger held; one that returns records its answer under
      its key, and one that throws leaves the ledger as it was. */
  lemma StepRecords(s: ServerState, op: Operation, userId: string, now: string, freshId: string, md5: string -> string)
    ensures var step := ResolveStep(s, op, userId, now, freshId, md5);
      var key := ToOpKey(op, userId);
      && (forall k :: k in s.ledger ==> k in step.server.ledger && step.server.ledger[k] == s.ledger[k])
      && (step.result.Ok? ==>
            && key in step.server.ledger
            && step.result.value == SyncResult(key, op.table, op.id, step.server.ledger[key])
            && step.server.ledger.Keys == s.ledger.Keys + {key})
      && (step.result.Throws? ==> step.server.ledger == s.ledger)
      && (key in s.ledger ==> step.server == s && step.result.Ok?)
  {
  }

  /** `resolveWithDedupe`: a key the ledger knows is answered from the ledger without
      touching anything; otherwise the operation is applied and its outcome recorded. */
  method ResolveWithDedupe(db: TicketDatabase, op: Operation, userId: string, now: string, freshId: string, md5: string -> string)
    returns (r: Result<SyncResult<OpKey>>)
    requires db.Valid()
    modifies db
    ensures db.Valid()
    ensures db.conflicts.Keys <= old(db.conflicts.Keys) + {freshId}
    ensures forall k :: k in old(db.conflicts) && k != freshId ==> k in db.conflicts && db.conflicts[k] == old(db.conflicts)[k]
    ensures var key := ToOpKey(op, userId);
      && (key in old(db.ledger) ==> r == Ok(SyncResult(key, op.table, op.id, old(db.ledger)[key])) && unchanged(db))
      && (r.Ok? ==> key in db.ledger && r.value == SyncResult(key, op.table, op.id, db.ledger[key]))
      && (r.Throws? ==> unchanged(db))
      && db.ledger.Keys == old(db.ledger.Keys) + (if r.Ok? then {key} else {})
    ensures forall k :: k in old(db.ledger) ==> k in db.ledger && db.ledger[k] == old(db.ledger)[k]
    ensures Outcome(ServerState(db.Snapshot(), db.ledger), r) == ResolveStep(ServerState(old(db.Snapshot()), old(db.ledger)), op, userId, now, freshId, md5)
  {
    var key := ToOpKey(op, userId);
    if key in db.ledger {
      return Ok(SyncResult(key, op.table, op.id, db.ledger[key]));
    }
    var resolved := ApplyOperation(db, op, userId, now, freshId, md5);
    if resolved.Throws? {
      return Throws(resolved.message);
    }
    db.ledger := RecordFirst(db.ledger, key, resolved.value);
    return Ok(SyncResult(key, op.table, op.id, resolved.value));
  }

  /** The ledger keys of a batch. */
  function BatchKeys(ops: seq<Operation>, userId: string): set<OpKey> {
    set i | 0 <= i < |ops| :: ToOpKey(ops[i], userId)
  }

  /** The keys of a batch one operation longer. */
  lemma BatchKeysSnoc(ops: seq<Operation>, i: nat, userId: string)
    requires i < |ops|
    ensures ToOpKey(ops[i], userId) in BatchKeys(ops, userId)
    ensures BatchKeys(ops[..i + 1], userId) == BatchKeys(ops[..i], userId) + {ToOpKey(ops[i], userId)}
  {
    var longer, shorter := ops[..i + 1], ops[..i];
    forall k | k in BatchKeys(longer, userId) ensures k in BatchKeys(shorter, userId) + {ToOpKey(ops[i], userId)} {
      var j :| 0 <= j < i + 1 && k == ToOpKey(longer[j], userId);
      if j < i {
        assert longer[j] == shorter[j];
      }
    }
    forall k | k in BatchKeys(shorter, userId) ensures k in BatchKeys(longer, userId) {
      var j :| 0 <= j < i && k == ToOpKey(shorter[j], userId);
      assert shorter[j] == longer[j];
    }
    assert longer[i] == ops[i];
  }

  /** Each result reports the outcome the ledger holds for its operation. */
  ghost predicate Reports(results: seq<SyncResult<OpKey>>, ops: seq<Operation>, userId: string, ledger: map<OpKey, Verdict>) {
    |results| == |ops|
    && forall j :: 0 <= j < |ops| ==>
      ToOpKey(ops[j], userId) in ledger
      && results[j] == SyncResult(ToOpKey(ops[j], userId), ops[j].table, ops[j].id, ledger[ToOpKey(ops[j], userId)])
  }

  /** The reports stay true in a ledger that keeps every outcome, and one more result may be
      added for one more operation. */
  lemma ReportsSnoc(results: seq<SyncResult<OpKey>>, ops: seq<Operation>, i: nat, userId: string,
                    ledger: map<OpKey, Verdict>, ledger': map<OpKey, Verdict>, r: SyncResult<OpKey>)
    requires i < |ops| && Reports(results, ops[..i], userId, ledger)
    requires forall k :: k in ledger ==> k in ledger' && ledger'[k] == ledger[k]
    requires ToOpKey(ops[i], userId) in ledger'
    requires r == SyncResult(ToOpKey(ops[i], userId), ops[i].table, ops[i].id, ledger'[ToOpKey(ops[i], userId)])
    ensures Reports(results + [r], ops[..i + 1], userId, ledger')
  {
    var rs, os := results + [r], ops[..i + 1];
    forall j | 0 <= j < |os|
      ensures ToOpKey(os[j], userId) in ledger'
      ensures rs[j] == SyncResult(ToOpKey(os[j], userId), os[j].table, os[j].id, ledger'[ToOpKey(os[j], userId)])
    {
      if j < i {
        assert os[j] == ops[..i][j] && rs[j] == results[j];
      }
    }
  }

  /** What `processWriteBatch` does from the server `s`: the operations in order, each
      resolved from where the one before left the server; the first error aborts the batch,
      and the operations before it stay applied and recorded. */
  ghost function RunBatch(s: ServerState, ops: seq<Operation>, userId: string, now: string, freshIds: seq<string>, md5: string -> string)
    : Outcome<seq<SyncResult<OpKey>>>
    requires |freshIds| == |ops|
    decreases |ops|, 1
  {
    if ops == [] then Outcome(s, Ok([])) else RunLast(s, ops, userId, now, freshIds, md5)
  }

  /** A non-empty batch: its last operation is resolved where the others left the server,
      unless one of them threw. */
  ghost function RunLast(s: ServerState, ops: seq<Operation>, userId: string, now: string, freshIds: seq<string>, md5: string -> string)
    : Outcome<seq<SyncResult<OpKey>>>
    requires |freshIds| == |ops| && ops != []
    decreases |ops|, 0
  {
    var n := |ops| - 1;
    var before := RunBatch(s, ops[..n], userId, now, freshIds[..n], md5);
    if before.result.Throws? then before
    else
      var step := ResolveStep(before.server, ops[n], userId, now, freshIds[n], md5);
      match step.result
      case Throws(message) => Outcome(step.server, Throws(message))
      case Ok(result) => Outcome(step.server, Ok(before.result.value + [result]))
  }

  /** Once a prefix of the batch has thrown, the operations after it are never resolved. */
  lemma {:induction false} RunBatchAborts(s: ServerState, ops: seq<Operation>, userId: string, now: string,
                                          freshIds: seq<string>, md5: string -> string, k: nat)
    requires |freshIds| == |ops| && k <= |ops|
    requires RunBatch(s, ops[..k], userId, now, freshIds[..k], md5).result.Throws?
    ensures RunBatch(s, ops, userId, now, freshIds, md5) == RunBatch(s, ops[..k], userId, now, freshIds[..k], md5)
    decreases |ops|
  {
    if k < |ops| {
      var n := |ops| - 1;
      assert ops[..n][..k] == ops[..k] && freshIds[..n][..k] == freshIds[..k];
      RunBatchAborts(s, ops[..n], userId, now, freshIds[..n], md5, k);
    } else {
      assert ops[..k] == ops && freshIds[..k] == freshIds;
    }
  }

  /** A batch keeps every outcome the ledger held, and one that completes adds exactly its
      own keys. */
  lemma {:induction false} RunBatchKeys(s: ServerState, ops: seq<Operation>, userId: string, now: string,
                                        freshIds: seq<string>, md5: string -> string)
    requires |freshIds| == |ops|
    ensures var run := RunBatch(s, ops, userId, now, freshIds, md5);
      && (forall k :: k in s.ledger ==> k in run.server.ledger && run.server.ledger[k] == s.ledger[k])
      && (run.result.Ok? ==> run.server.ledger.Keys == s.ledger.Keys + BatchKeys(ops, userId))
    decreases |ops|
  {
    if ops == [] {
      assert BatchKeys(ops, userId) == {};
    } else {
      var n := |ops| - 1;
      var before := RunBatch(s, ops[..n], userId, now, freshIds[..n], md5);
      RunBatchKeys(s, ops[..n], userId, now, freshIds[..n], md5);
      StepRecords(before.server, ops[n], userId, now, freshIds[n], md5);
      BatchKeysSnoc(ops, n, userId);
      assert ops[..n + 1] == ops;
    }
  }

  /** A batch that completes records every result it returns in the ledger, under its
      operation's key. */
  lemma {:induction false} RunBatchReports(s: ServerState, ops: seq<Operation>, userId: string, now: string,
                                           freshIds: seq<string>, md5: string -> string)
    requires |freshIds| == |ops|
    ensures var run := RunBatch(s, ops, userId, now, freshIds, md5);
      run.result.Ok? ==> Reports(run.result.value, ops, userId, run.server.ledger)
    decreases |ops|
  {
    if ops != [] {
      var n := |ops| - 1;
      var before := RunBatch(s, ops[..n], userId, now, freshIds[..n], md5);
      RunBatchReports(s, ops[..n], userId, now, freshIds[..n], md5);
      if before.result.Ok? {
        StepRecords(before.server, ops[n], userId, now, freshIds[n], md5);
        var step := ResolveStep(before.server, ops[n], userId, now, freshIds[n], md5);
        if step.result.Ok? {
          ReportsSnoc(before.result.value, ops, n, userId, before.server.ledger, step.server.ledger, step.result.value);
          assert ops[..n + 1] == ops;
        }
      }
    }
  }

  /** A batch whose every key the ledger knows is answered from the ledger, completes and
      changes nothing. */
  lemma {:induction false} RunBatchReplay(s: ServerState, ops: seq<Operation>, userId: string, now: string,
                                          freshIds: seq<string>, md5: string -> string)
    requires |freshIds| == |ops|
    requires BatchKeys(ops, userId) <= s.ledger.Keys
    ensures var run := RunBatch(s, ops, userId, now, freshIds, md5);
      run.server == s && run.result.Ok? && Reports(run.result.value, ops, userId, s.ledger)
    decreases |ops|
  {
    if ops != [] {
      var n := |ops| - 1;
      BatchKeysSnoc(ops, n, userId);
      var before := RunBatch(s, ops[..n], userId, now, freshIds[..n], md5);
      RunBatchReplay(s, ops[..n], userId, now, freshIds[..n], md5);
      var step := ResolveStep(before.server, ops[n], userId, now, freshIds[n], md5);
      ReportsSnoc(before.result.value, ops, n, userId, s.ledger, s.ledger, step.result.value);
      assert ops[..n + 1] == ops;
    }
  }

  /** The same batch sent again after it completed, later and with other fresh ids, gets
      back exactly the results of the first run and leaves the server where the first run
      left it. */
  lemma RunBatchTwice(s: ServerState, ops: seq<Operation>, userId: string, now: string, later: string,
                      freshIds: seq<string>, retryIds: seq<string>, md5: string -> string)
    requires |freshIds| == |ops| && |retryIds| == |ops|
    ensures var first := RunBatch(s, ops, userId, now, freshIds, md5);
      first.result.Ok? ==> RunBatch(first.server, ops, userId, later, retryIds, md5) == first
  {
    var first := RunBatch(s, ops, userId, now, freshIds, md5);
    if first.result.Ok? {
      RunBatchKeys(s, ops, userId, now, freshIds, md5);
      RunBatchReports(s, ops, userId, now, freshIds, md5);
      RunBatchReplay(first.server, ops, userId, later, retryIds, md5);
      var second := RunBatch(first.server, ops, userId, later, retryIds, md5);
      assert second.result.value == first.result.value;
    }
  }

  /** `processWriteBatch`: the operations in order; the first error aborts the batch (the
      operations before it stay applied and recorded). `freshIds[i]` is the id the database
      generates for a conflict raised by `ops[i]`. */
  method ProcessWriteBatch(db: TicketDatabase, ops: seq<Operation>, userId: string, now: string, freshIds: seq<string>, md5: string -> string)
    returns (r: Result<seq<SyncResult<OpKey>>>)
    requires db.Valid()
    requires |freshIds| == |ops|
    requires forall i :: 0 <= i < |freshIds| ==> freshIds[i] !in db.conflicts
    modifies db
    ensures db.Valid()
    // conflict rows are only ever added
    ensures db.conflicts.Keys <= old(db.conflicts.Keys) + IdsBefore(freshIds, |freshIds|)
    ensures forall k :: k in old(db.conflicts) ==> k in db.conflicts && db.conflicts[k] == old(db.conflicts)[k]
    // the ledger only grows, and never changes an outcome it holds
    ensures forall k :: k in old(db.ledger) ==> k in db.ledger && db.ledger[k] == old(db.ledger)[k]
    ensures r.Ok? ==> db.ledger.Keys == old(db.ledger.Keys) + BatchKeys(ops, userId)
    // every result is the outcome the ledger holds for its operation
    ensures r.Ok? ==> Reports(r.value, ops, userId, db.ledger)
    // a batch the ledger has fully seen changes nothing
    ensures BatchKeys(ops, userId) <= old(db.ledger.Keys) ==> r.Ok? && unchanged(db)
    // the whole new server state and the result, operation by operation
    ensures Outcome(ServerState(db.Snapshot(), db.ledger), r) == RunBatch(ServerState(old(db.Snapshot()), old(db.ledger)), ops, userId, now, freshIds, md5)
  {
    var results: seq<SyncResult<OpKey>> := [];
    ghost var start := ServerState(db.Snapshot(), db.ledger);
    var i := 0;
    while i < |ops|
      invariant 0 <= i <= |ops|
      invariant db.Valid()
      invariant db.conflicts.Keys <= old(db.conflicts.Keys) + IdsBefore(freshIds, i)
      invariant forall k :: k in old(db.conflicts) ==> k in db.conflicts && db.conflicts[k] == old(db.conflicts)[k]
      invariant forall k :: k in old(db.ledger) ==> k in db.ledger && db.ledger[k] == old(db.ledger)[k]
      invariant BatchKeys(ops, userId) <= old(db.ledger.Keys) ==> unchanged(db)
      invariant RanTo(start, ops, i, userId, now, freshIds, md5, ServerState(db.Snapshot(), db.ledger), results)
    {
      BatchKeysSnoc(ops, i, userId);
      var result := ResolveNext(db, ops, i, results, start, userId, now, freshIds, md5);
      if result.Throws? {
        return Throws(result.message);
      }
      IdsBeforeSnoc(freshIds, i);
      results := results + [result.value];
      i := i + 1;
    }
    assert ops[..i] == ops && freshIds[..i] == freshIds;
    RunBatchKeys(start, ops, userId, now, freshIds, md5);
    RunBatchReports(start, ops, userId, now, freshIds, md5);
    return Ok(results);
  }

  /** The first `i` operations of the batch, run from `start`, left the server at `server`
      and returned `results`. */
  ghost predicate RanTo(start: ServerState, ops: seq<Operation>, i: nat, userId: string, now: string, freshIds: seq<string>,
                        md5: string -> string, server: ServerState, results: seq<SyncResult<OpKey>>)
  {
    i <= |ops| == |freshIds| && RunBatch(start, ops[..i], userId, now, freshIds[..i], md5) == Outcome(server, Ok(results))
  }

  /** One round of the loop in `processWriteBatch`: resolves `ops[i]` once the operations
      before it have returned `results`. */
  method ResolveNext(db: TicketDatabase, ops: seq<Operation>, i: nat, results: seq<SyncResult<OpKey>>, ghost start: ServerState,
                     userId: string, now: string, freshIds: seq<string>, md5: string -> string)
    returns (r: Result<SyncResult<OpKey>>)
    requires db.Valid()
    requires i < |ops| && |freshIds| == |ops|
    requires RanTo(start, ops, i, userId, now, freshIds, md5, ServerState(db.Snapshot(), db.ledger), results)
    modifies db
    ensures db.Valid()
    ensures db.conflicts.Keys <= old(db.conflicts.Keys) + {freshIds[i]}
    ensures forall k :: k in old(db.conflicts) && k != freshIds[i] ==> k in db.conflicts && db.conflicts[k] == old(db.conflicts)[k]
    ensures var key := ToOpKey(ops[i], userId);
      && (key in old(db.ledger) ==> r.Ok? && unchanged(db))
      && (r.Ok? ==> key in db.ledger && r.value == SyncResult(key, ops[i].table, ops[i].id, db.ledger[key]))
      && db.ledger.Keys == old(db.ledger.Keys) + (if r.Ok? then {key} else {})
    ensures forall k :: k in old(db.ledger) ==> k in db.ledger && db.ledger[k] == old(db.ledger)[k]
    ensures r.Ok? ==> RanTo(start, ops, i + 1, userId, now, freshIds, md5, ServerState(db.Snapshot(), db.ledger), results + [r.value])
    ensures r.Throws? ==> RunBatch(start, ops, userId, now, freshIds, md5) == Outcome(ServerState(db.Snapshot(), db.ledger), Throws(r.message))
  {
    r := ResolveWithDedupe(db, ops[i], userId, now, freshIds[i], md5);
    assert ops[..i + 1][..i] == ops[..i] && freshIds[..i + 1][..i] == freshIds[..i];
    if r.Throws? {
      RunBatchAborts(start, ops, userId, now, freshIds, md5, i + 1);
    }
  }

  /** `uploadData`: the batch's results wrapped in the `{success, error, results}` envelope. */
  method UploadData(db: TicketDatabase, ops: seq<Operation>, userId: string, now: string, freshIds: seq<string>, md5: string -> string)
    returns (e: Envelope<OpKey>)
    requires db.Valid()
    requires |freshIds| == |ops|
    requires forall i :: 0 <= i < |freshIds| ==> freshIds[i] !in db.conflicts
    modifies db
    ensures db.Valid()
    ensures e.success ==> |e.results| == |ops|
    ensures e.success ==> forall i :: 0 <= i < |ops| ==>
      ToOpKey(ops[i], userId) in db.ledger && e.results[i].verdict == db.ledger[ToOpKey(ops[i], userId)]
    ensures !e.success ==> e.results == [] && e.error.Some? && e.error.value != ""
    // the batch as ProcessWriteBatch runs it, wrapped
    ensures var run := RunBatch(ServerState(old(db.Snapshot()), old(db.ledger)), ops, userId, now, freshIds, md5);
      ServerState(db.Snapshot(), db.ledger) == run.server && e == Wrap(run.result)
  {
    var batch := ProcessWriteBatch(db, ops, userId, now, freshIds, md5);
    e := Wrap(batch);
  }

  /** A client that sends the same batch again (its upload was not acknowledged) gets back
      exactly the results of the first run, and nothing is applied twice. */
  method Retransmit(db: TicketDatabase, ops: seq<Operation>, userId: string, now: string, later: string,
                    freshIds: seq<string>, retryIds: seq<string>, md5: string -> string)
    returns (first: Result<seq<SyncResult<OpKey>>>, second: Result<seq<SyncResult<OpKey>>>)
    requires db.Valid()
    requires |freshIds| == |ops| && |retryIds| == |ops|
    requires forall i :: 0 <= i < |ops| ==> freshIds[i] !in db.conflicts && retryIds[i] !in db.conflicts
    requires forall i, j :: 0 <= i < |ops| && 0 <= j < |ops| ==> freshIds[i] != retryIds[j]
    modifies db
    ensures first.Ok? ==> second == first
  {
    ghost var before := db.conflicts.Keys;
    first := ProcessWriteBatch(db, ops, userId, now, freshIds, md5);
    forall i | 0 <= i < |ops| ensures retryIds[i] !in db.conflicts {
      assert retryIds[i] !in before;
      assert retryIds[i] !in IdsBefore(freshIds, |freshIds|);
    }
    if first.Ok? {
      ghost var afterFirst := db.ledger;
      assert BatchKeys(ops, userId) <= afterFirst.Keys;
      second := ProcessWriteBatch(db, ops, userId, later, retryIds, md5);
      assert db.ledger == afterFirst;
      assert |second.value| == |first.value|;
      forall i | 0 <= i < |ops| ensures second.value[i] == first.value[i] {
      }
      assert second.value == first.value;
    } else {
      second := ProcessWriteBatch(db, ops, userId, later, retryIds, md5);
    }
  }
}
