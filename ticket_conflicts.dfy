/**
  Resolution of a ticket conflict (`resolveTicketConflict`): the stored local or server
  value, or a custom one, is written to the conflicting ticket field, the conflict is
  closed, and a `conflict_resolved` activity is logged, all in one transaction.
*/
module TicketConflicts {
  import opened Wrappers
  import opened Js
  import opened SyncCore
  import opened TicketStore
  import opened TicketWriteBatch

  /** `value == null ? null : String(value)`. */
  function Unwrap(v: Json): (r: Option<string>)
    ensures r.None? <==> v == JNull
    ensures v.JStr? ==> r == Some(v.s)
  {
    if v == JNull then None else Some(ToJsString(v))
  }

  /** An object that has a `value` member. */
  predicate HasValue(v: Json) {
    v.JObj? && "value" in v.fields
  }

  /** The text a stored conflict value stands for. `JNull` stands for SQL NULL as well as
      JSON null (the driver returns `null` for both); `parse` is `JSON.parse`, `None` when
      it throws. */
  function ParseConflictValue(raw: Json, parse: string -> Option<Json>): (r: Option<string>)
    ensures r.None? <==>
      || raw == JNull
      || (HasValue(raw) && raw.fields["value"] == JNull)
      || (raw.JStr? && parse(raw.s).Some? && HasValue(parse(raw.s).value) && parse(raw.s).value.fields["value"] == JNull)
    ensures raw.JStr? && (parse(raw.s).None? || !HasValue(parse(raw.s).value)) ==> r == Some(raw.s)
  {
    if raw == JNull then None
    else if HasValue(raw) then Unwrap(raw.fields["value"])
    else if raw.JStr? then
      var parsed := parse(raw.s);
      if parsed.Some? && HasValue(parsed.value) then Unwrap(parsed.value.fields["value"]) else Some(raw.s)
    else Some(ToJsString(raw))
  }

  /** A `{value}` document, as the engine stores conflict values and as a resolution stores
      its resolved value, reads back as the value it wraps. */
  lemma ValueObjectRoundTrip(x: Option<string>, parse: string -> Option<Json>)
    ensures ParseConflictValue(ValueObject(x), parse) == x
  {
  }

  /** The field a `field_name` column names, if it is one a conflict may be resolved on. */
  function FieldOf(name: string): (f: Option<Field>)
    ensures f.Some? <==> name == "title" || name == "description" || name == "status"
    ensures f.Some? ==> FieldName(f.value) == name
  {
    if name == "title" then Some(Title)
    else if name == "description" then Some(Description)
    else if name == "status" then Some(Status)
    else None
  }

  lemma FieldOfName(f: Field)
    ensures FieldOf(FieldName(f)) == Some(f)
  {
  }

  /** `UPDATE ticket SET <field> = $1`: one nullable column. */
  function SetColumn(t: Ticket, f: Field, v: Option<string>): (r: Ticket)
    ensures f == Title ==> r == t.(title := v)
    ensures f == Description ==> r == t.(description := v)
    ensures f == Status ==> r == t.(status := v)
  {
    match f
    case Title => t.(title := v)
    case Description => t.(description := v)
    case Status => t.(status := v)
  }

  function StrategyName(s: Strategy): string {
    match s
    case Local => "local"
    case Server => "server"
    case Custom => "custom"
  }

  /** The value a strategy picks: the unwrapped local or server value, or the custom value
      (null when none was given). */
  function ChosenValue(c: TicketConflict, strategy: Strategy, customValue: Option<string>, parse: string -> Option<Json>): Option<string> {
    match strategy
    case Local => ParseConflictValue(c.localValue, parse)
    case Server => ParseConflictValue(c.serverValue, parse)
    case Custom => customValue
  }

  /** What `resolveTicketConflict` returns: `{id, ticketId, field, value}`. */
  datatype Resolution = Resolution(id: string, ticketId: string, field: string, value: Option<string>)

  /** The outcome of a resolution request against the conflicts table: the three errors,
      checked in this order, or the resolution. */
  function Resolve(conflicts: map<string, TicketConflict>, conflictId: string, strategy: Strategy,
                   customValue: Option<string>, parse: string -> Option<Json>): (r: Result<Resolution>)
    ensures r.Ok? <==>
      conflictId in conflicts && conflicts[conflictId].status == "open" && FieldOf(conflicts[conflictId].fieldName).Some?
    ensures conflictId !in conflicts ==> r == Throws("Conflict not found")
    ensures conflictId in conflicts && conflicts[conflictId].status != "open" ==> r == Throws("Conflict is not open")
    ensures r.Ok? ==> r.value.id == conflictId && r.value.ticketId == conflicts[conflictId].ticketId
    ensures r.Ok? ==> r.value.field == conflicts[conflictId].fieldName
    ensures r.Ok? ==> r.value.value == ChosenValue(conflicts[conflictId], strategy, customValue, parse)
  {
    if conflictId !in conflicts then Throws("Conflict not found")
    else
      var c := conflicts[conflictId];
      if c.status != "open" then Throws("Conflict is not open")
      else if FieldOf(c.fieldName).None? then Throws("Unsupported conflict field: " + c.fieldName)
      else Ok(Resolution(conflictId, c.ticketId, c.fieldName, ChosenValue(c, strategy, customValue, parse)))
  }

  /** The ticket table after the resolution's `UPDATE ticket`; a missing ticket matches no row. */
  function ResolvedTickets(tickets: map<string, Ticket>, res: Resolution): map<string, Ticket>
    requires FieldOf(res.field).Some?
  {
    if res.ticketId in tickets
    then tickets[res.ticketId := SetColumn(tickets[res.ticketId], FieldOf(res.field).value, res.value)]
    else tickets
  }

  /** The conflict row after it is marked resolved. */
  function MarkResolved(c: TicketConflict, value: Option<string>, resolvedBy: string, now: string): TicketConflict {
    c.(status := "resolved", resolvedValue := Some(ValueObject(value)), resolvedBy := Some(resolvedBy), resolvedAt := Some(now))
  }

  function ResolvedActivity(res: Resolution, strategy: Strategy, resolvedBy: string): Activity {
    Activity(res.ticketId, "conflict_resolved", Some(res.field),
      map["strategy" := JStr(StrategyName(strategy)), "value" := if res.value.Some? then JStr(res.value.value) else JNull],
      Some(resolvedBy))
  }

  /** `resolveTicketConflict`: a failed check throws before the transaction writes anything;
      otherwise the field, the conflict row and the activity log are written together. */
  method ResolveTicketConflict(db: TicketDatabase, conflictId: string, strategy: Strategy, resolvedBy: string,
                               customValue: Option<string>, now: string, parse: string -> Option<Json>)
    returns (r: Result<Resolution>)
    modifies db`tickets, db`conflicts, db`activity
    ensures r == Resolve(old(db.conflicts), conflictId, strategy, customValue, parse)
    ensures r.Throws? ==> unchanged(db)
    ensures r.Ok? ==> db.tickets == ResolvedTickets(old(db.tickets), r.value)
    ensures r.Ok? ==> db.conflicts == old(db.conflicts)[conflictId := MarkResolved(old(db.conflicts)[conflictId], r.value.value, resolvedBy, now)]
    ensures r.Ok? ==> db.activity == old(db.activity) + [ResolvedActivity(r.value, strategy, resolvedBy)]
  {
    if conflictId !in db.conflicts {
      return Throws("Conflict not found");
    }
    var conflict := db.conflicts[conflictId];
    if conflict.status != "open" {
      return Throws("Conflict is not open");
    }
    var resolvedValue: Option<string>;
    match strategy {
      case Local => resolvedValue := ParseConflictValue(conflict.localValue, parse);
      case Server => resolvedValue := ParseConflictValue(conflict.serverValue, parse);
      case Custom => resolvedValue := customValue;
    }
    var field := FieldOf(conflict.fieldName);
    if field.None? {
      return Throws("Unsupported conflict field: " + conflict.fieldName);
    }
    if conflict.ticketId in db.tickets {
      db.tickets := db.tickets[conflict.ticketId := SetColumn(db.tickets[conflict.ticketId], field.value, resolvedValue)];
    }
    db.conflicts := db.conflicts[conflictId := MarkResolved(conflict, resolvedValue, resolvedBy, now)];
    r := Ok(Resolution(conflictId, conflict.ticketId, conflict.fieldName, resolvedValue));
    db.activity := db.activity + [ResolvedActivity(r.value, strategy, resolvedBy)];
  }

  /** The ticket app's `resolveConflict` server call: no role check; the session user is
      recorded as the resolver and the result is passed through (`success: true` on return,
      a thrown error propagates). */
  method ResolveConflict(db: TicketDatabase, id: string, strategy: Strategy, customValue: Option<string>,
                         sessionUserId: string, now: string, parse: string -> Option<Json>)
    returns (r: Result<Resolution>)
    modifies db`tickets, db`conflicts, db`activity
    ensures r == Resolve(old(db.conflicts), id, strategy, customValue, parse)
    ensures r.Throws? ==> unchanged(db)
    ensures r.Ok? ==> id in db.conflicts && db.conflicts[id].resolvedBy == Some(sessionUserId)
    ensures r.Ok? ==> db.activity == old(db.activity) + [ResolvedActivity(r.value, strategy, sessionUserId)]
  {
    r := ResolveTicketConflict(db, id, strategy, sessionUserId, customValue, now, parse);
  }

  /** A resolved conflict cannot be resolved again, whatever strategy the second request uses. */
  lemma ResolveOnce(conflicts: map<string, TicketConflict>, conflictId: string, strategy: Strategy, customValue: Option<string>,
                    resolvedBy: string, now: string, strategy2: Strategy, customValue2: Option<string>, parse: string -> Option<Json>)
    requires Resolve(conflicts, conflictId, strategy, customValue, parse).Ok?
    ensures var v := Resolve(conflicts, conflictId, strategy, customValue, parse).value.value;
      Resolve(conflicts[conflictId := MarkResolved(conflicts[conflictId], v, resolvedBy, now)], conflictId, strategy2, customValue2, parse)
        == Throws("Conflict is not open")
  {
  }

  /** The stored resolved value reads back as the value that was written to the ticket. */
  lemma ResolvedValueReadsBack(c: TicketConflict, value: Option<string>, resolvedBy: string, now: string, parse: string -> Option<Json>)
    ensures ParseConflictValue(MarkResolved(c, value, resolvedBy, now).resolvedValue.value, parse) == value
  {
    ValueObjectRoundTrip(value, parse);
  }

  /** For a title conflict the write engine opened, "local" writes the incoming title and
      "server" puts back the title the ticket had when the conflict was raised. */
  lemma EngineConflictChoices(conflicts: map<string, TicketConflict>, conflictId: string, tickets: map<string, Ticket>,
                              ticketId: string, local: string, server: Option<string>, parse: string -> Option<Json>)
    requires conflictId in conflicts && conflicts[conflictId] == TitleConflict(ticketId, local, server)
    requires ticketId in tickets
    ensures Resolve(conflicts, conflictId, Local, None, parse).Ok?
    ensures ResolvedTickets(tickets, Resolve(conflicts, conflictId, Local, None, parse).value)[ticketId].title == Some(local)
    ensures ResolvedTickets(tickets, Resolve(conflicts, conflictId, Server, None, parse).value)[ticketId].title == server
  {
    ValueObjectRoundTrip(Some(local), parse);
    ValueObjectRoundTrip(server, parse);
  }
}
