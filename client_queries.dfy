/**
  Facts about the live queries of the clients: a query orders its rows by one column, and
  the lists shown filter those rows without reordering them.
*/
module QueryFacts {
  import opened Wrappers
  import opened Ordering

  /** `!row.deleted_at`: a row is shown unless its deletion time is set to a non-empty text. */
  predicate Live(deletedAt: Option<string>) {
    deletedAt.None? || deletedAt.value == ""
  }

  /** An ordered query holds exactly the rows of its table, in key order. */
  lemma {:induction false} OrderedQuery<T>(rows: seq<T>, key: T -> string, desc: bool)
    ensures SortedBy(SortBy(rows, key, desc), key, desc)
    ensures multiset(SortBy(rows, key, desc)) == multiset(rows)
    ensures forall x :: x in SortBy(rows, key, desc) <==> x in rows
  {
    SortBySorted(rows, key, desc);
    forall x
      ensures x in SortBy(rows, key, desc) <==> x in rows
    {
      assert x in SortBy(rows, key, desc) <==> x in multiset(SortBy(rows, key, desc));
      assert x in rows <==> x in multiset(rows);
    }
  }

  /** Filtering an ordered query keeps exactly the rows that pass, still in key order. */
  lemma {:induction false} FilteredQuery<T>(rows: seq<T>, key: T -> string, desc: bool, p: T -> bool)
    ensures SortedBy(Filter(SortBy(rows, key, desc), p), key, desc)
    ensures forall x :: x in Filter(SortBy(rows, key, desc), p) <==> x in rows && p(x)
  {
    var q := SortBy(rows, key, desc);
    OrderedQuery(rows, key, desc);
    FilterSorted(q, p, key, desc);
    forall x
      ensures x in Filter(q, p) <==> x in rows && p(x)
    {
      FilterMembers(q, p, x);
    }
  }
}

/**
  The work-order list (`useVisibleWorkOrders`): the work orders newest first, without the
  deleted ones, and for a technician only those assigned to them.
*/
module WorkOrderList {
  import opened Wrappers
  import opened Ordering
  import opened SyncCore
  import opened QueryFacts

  /** The columns the list selects. */
  datatype WorkOrderRow = WorkOrderRow(
    id: string, title: string, priority: string, status: string,
    assigneeId: Option<string>, updatedAt: string, deletedAt: Option<string>)

  /** The signed-in user as the list sees the session. */
  datatype Session = Session(userId: string, role: Role)

  function UpdatedKey(row: WorkOrderRow): string {
    row.updatedAt
  }

  /** The live query: the table ordered by `updated_at`, newest first. */
  function OrdersQuery(table: seq<WorkOrderRow>): seq<WorkOrderRow> {
    SortBy(table, UpdatedKey, true)
  }

  predicate AssignedTo(row: WorkOrderRow, userId: string) {
    row.assigneeId == Some(userId)
  }

  /** `visibleOrders`: the rows that are not deleted, all of them for a manager and the
      ones assigned to the session user otherwise. */
  function VisibleOrders(table: seq<WorkOrderRow>, session: Session): seq<WorkOrderRow> {
    var all := Filter(OrdersQuery(table), (row: WorkOrderRow) => Live(row.deletedAt));
    if session.role == Manager then all
    else Filter(all, (row: WorkOrderRow) => AssignedTo(row, session.userId))
  }

  /** Who sees what: a deleted row never; a manager every other row; a technician the other
      rows assigned to them. The list keeps the query's newest-first order. */
  lemma VisibleOrdersShape(table: seq<WorkOrderRow>, session: Session)
    ensures SortedBy(VisibleOrders(table, session), UpdatedKey, true)
    ensures forall row :: row in VisibleOrders(table, session) <==>
      && row in table && Live(row.deletedAt)
      && (session.role == Manager || AssignedTo(row, session.userId))
  {
    var live := (row: WorkOrderRow) => Live(row.deletedAt);
    var mine := (row: WorkOrderRow) => AssignedTo(row, session.userId);
    var all := Filter(OrdersQuery(table), live);
    FilteredQuery(table, UpdatedKey, true, live);
    if session.role != Manager {
      FilterSorted(all, mine, UpdatedKey, true);
      forall row
        ensures row in VisibleOrders(table, session) <==> row in table && Live(row.deletedAt) && AssignedTo(row, session.userId)
      {
        FilterMembers(all, mine, row);
      }
    }
  }

  /** `autoSelectId`: the first visible work order's id, if there is one. */
  function AutoSelectId(visible: seq<WorkOrderRow>): (r: Option<string>)
    ensures r.None? <==> visible == []
    ensures r.Some? ==> r.value == visible[0].id
  {
    if visible == [] then None else Some(visible[0].id)
  }

  /** The work order selected on its own is a visible one that no other visible order was
      updated after. */
  lemma AutoSelectedIsNewest(table: seq<WorkOrderRow>, session: Session)
    requires VisibleOrders(table, session) != []
    ensures var v := VisibleOrders(table, session);
      && AutoSelectId(v) == Some(v[0].id)
      && v[0] in table && Live(v[0].deletedAt)
      && forall k :: 0 <= k < |v| ==> Le(v[k].updatedAt, v[0].updatedAt)
  {
    var v := VisibleOrders(table, session);
    VisibleOrdersShape(table, session);
    assert v[0] in v;
    forall k | 0 <= k < |v|
      ensures Le(v[k].updatedAt, v[0].updatedAt)
    {
      if k > 0 {
        assert InOrder(UpdatedKey(v[0]), UpdatedKey(v[k]), true);
      } else {
        LeTotal(v[0].updatedAt, v[0].updatedAt);
      }
    }
  }
}

/**
  The ticket app's client queries: the ticket list, a ticket's child lists, the open
  conflicts and a ticket's description updates.
*/
module ClientQueries {
  import opened Wrappers
  import opened Ordering
  import opened QueryFacts

  /** The columns `useTicketList` selects. */
  datatype TicketRow = TicketRow(
    id: string, title: string, description: Option<string>, status: string,
    deletedAt: Option<string>, updatedAt: string, version: int)

  function TicketUpdatedKey(t: TicketRow): string {
    t.updatedAt
  }

  /** `visibleTickets`: the tickets newest first, without the deleted ones. */
  function VisibleTickets(tickets: seq<TicketRow>): seq<TicketRow> {
    Filter(SortBy(tickets, TicketUpdatedKey, true), (t: TicketRow) => Live(t.deletedAt))
  }

  lemma VisibleTicketsShape(tickets: seq<TicketRow>)
    ensures SortedBy(VisibleTickets(tickets), TicketUpdatedKey, true)
    ensures forall t :: t in VisibleTickets(tickets) <==> t in tickets && Live(t.deletedAt)
  {
    FilteredQuery(tickets, TicketUpdatedKey, true, (t: TicketRow) => Live(t.deletedAt));
  }

  /** `autoSelectTicketId`: the first visible ticket's id, undefined when none is visible. */
  function AutoSelectTicketId(tickets: seq<TicketRow>): (r: Option<string>)
    ensures r.None? <==> forall t :: t in tickets ==> !Live(t.deletedAt)
    ensures r.Some? ==> exists t :: t in tickets && Live(t.deletedAt) && t.id == r.value
    ensures r.Some? <==> VisibleTickets(tickets) != []
    ensures r.Some? ==> r.value == VisibleTickets(tickets)[0].id
  {
    var v := VisibleTickets(tickets);
    VisibleTicketsShape(tickets);
    if v == [] then None
    else
      assert v[0] in v;
      Some(v[0].id)
  }

  /** The auto-selected ticket is live and no live ticket was updated after it. */
  lemma AutoSelectedTicketIsNewest(tickets: seq<TicketRow>)
    requires AutoSelectTicketId(tickets).Some?
    ensures var t := VisibleTickets(tickets)[0];
      && AutoSelectTicketId(tickets) == Some(t.id) && t in tickets && Live(t.deletedAt)
      && forall u :: u in tickets && Live(u.deletedAt) ==> Le(u.updatedAt, t.updatedAt)
  {
    var v := VisibleTickets(tickets);
    VisibleTicketsShape(tickets);
    assert v[0] in v;
    forall u | u in tickets && Live(u.deletedAt)
      ensures Le(u.updatedAt, v[0].updatedAt)
    {
      assert u in v;
      var k :| 0 <= k < |v| && v[k] == u;
      if k > 0 {
        assert InOrder(TicketUpdatedKey(v[0]), TicketUpdatedKey(v[k]), true);
      } else {
        LeTotal(u.updatedAt, u.updatedAt);
      }
    }
  }

  /** A row of one of a ticket's child lists (assignments, comments, attachment URLs,
      links): its own columns are carried along untouched. */
  datatype ChildRow<D> = ChildRow(id: string, ticketId: string, deletedAt: Option<string>, createdAt: string, data: D)

  function ChildCreatedKey<D>(row: ChildRow<D>): string {
    row.createdAt
  }

  /** `useTicketAssignments`, `useTicketComments`, `useTicketAttachmentUrls` and
      `useTicketLinks`: the ticket's rows, newest first, without the deleted ones. */
  function ChildList<D>(rows: seq<ChildRow<D>>, ticketId: string): seq<ChildRow<D>> {
    Filter(SortBy(Filter(rows, (r: ChildRow<D>) => r.ticketId == ticketId), ChildCreatedKey, true),
           (r: ChildRow<D>) => Live(r.deletedAt))
  }

  lemma ChildListShape<D>(rows: seq<ChildRow<D>>, ticketId: string)
    ensures SortedBy(ChildList(rows, ticketId), ChildCreatedKey, true)
    ensures forall r :: r in ChildList(rows, ticketId) <==> r in rows && r.ticketId == ticketId && Live(r.deletedAt)
  {
    var ofTicket := (r: ChildRow<D>) => r.ticketId == ticketId;
    var own := Filter(rows, ofTicket);
    FilteredQuery(own, ChildCreatedKey, true, (r: ChildRow<D>) => Live(r.deletedAt));
    forall r
      ensures r in own <==> r in rows && r.ticketId == ticketId
    {
      FilterMembers(rows, ofTicket, r);
    }
  }

  /** A row of `ticket_activities`. */
  datatype ActivityRow = ActivityRow(
    id: string, ticketId: string, action: string, fieldName: Option<string>,
    details: Option<string>, createdBy: string, createdAt: string)

  function ActivityCreatedKey(a: ActivityRow): string {
    a.createdAt
  }

  /** `useTicketActivities`: the ticket's activity, newest first; nothing is filtered out. */
  function TicketActivities(rows: seq<ActivityRow>, ticketId: string): seq<ActivityRow> {
    SortBy(Filter(rows, (a: ActivityRow) => a.ticketId == ticketId), ActivityCreatedKey, true)
  }

  lemma TicketActivitiesShape(rows: seq<ActivityRow>, ticketId: string)
    ensures SortedBy(TicketActivities(rows, ticketId), ActivityCreatedKey, true)
    ensures forall a :: a in TicketActivities(rows, ticketId) <==> a in rows && a.ticketId == ticketId
  {
    var ofTicket := (a: ActivityRow) => a.ticketId == ticketId;
    FilteredQuery(rows, ActivityCreatedKey, true, ofTicket);
    OrderedQuery(Filter(rows, ofTicket), ActivityCreatedKey, true);
    forall a
      ensures a in Filter(rows, ofTicket) <==> a in rows && a.ticketId == ticketId
    {
      FilterMembers(rows, ofTicket, a);
    }
  }

  /** A row of `ticket_conflicts` as the inbox selects it. */
  datatype ConflictRow = ConflictRow(
    id: string, ticketId: string, fieldName: string, localValue: string,
    serverValue: string, status: string, createdAt: string)

  function ConflictCreatedKey(c: ConflictRow): string {
    c.createdAt
  }

  /** `useOpenTicketConflicts`: the open conflicts, newest first. */
  function OpenTicketConflicts(rows: seq<ConflictRow>): seq<ConflictRow> {
    SortBy(Filter(rows, (c: ConflictRow) => c.status == "open"), ConflictCreatedKey, true)
  }

  lemma OpenTicketConflictsShape(rows: seq<ConflictRow>)
    ensures SortedBy(OpenTicketConflicts(rows), ConflictCreatedKey, true)
    ensures forall c :: c in OpenTicketConflicts(rows) <==> c in rows && c.status == "open"
  {
    var open := (c: ConflictRow) => c.status == "open";
    OrderedQuery(Filter(rows, open), ConflictCreatedKey, true);
    forall c
      ensures c in Filter(rows, open) <==> c in rows && c.status == "open"
    {
      FilterMembers(rows, open, c);
    }
  }

  /** A row of `ticket_description_updates`. */
  datatype DescriptionUpdateRow = DescriptionUpdateRow(
    id: string, ticketId: string, updateB64: string, createdBy: string, createdAt: string)

  function UpdateCreatedKey(u: DescriptionUpdateRow): string {
    u.createdAt
  }

  /** `useTicketDescriptionUpdates`: the ticket's updates, oldest first. */
  function TicketDescriptionUpdates(rows: seq<DescriptionUpdateRow>, ticketId: string): seq<DescriptionUpdateRow> {
    SortBy(Filter(rows, (u: DescriptionUpdateRow) => u.ticketId == ticketId), UpdateCreatedKey, false)
  }

  lemma TicketDescriptionUpdatesShape(rows: seq<DescriptionUpdateRow>, ticketId: string)
    ensures SortedBy(TicketDescriptionUpdates(rows, ticketId), UpdateCreatedKey, false)
    ensures multiset(TicketDescriptionUpdates(rows, ticketId)) == multiset(Filter(rows, (u: DescriptionUpdateRow) => u.ticketId == ticketId))
    ensures forall u :: u in TicketDescriptionUpdates(rows, ticketId) <==> u in rows && u.ticketId == ticketId
  {
    var ofTicket := (u: DescriptionUpdateRow) => u.ticketId == ticketId;
    OrderedQuery(Filter(rows, ofTicket), UpdateCreatedKey, false);
    forall u
      ensures u in Filter(rows, ofTicket) <==> u in rows && u.ticketId == ticketId
    {
      FilterMembers(rows, ofTicket, u);
    }
  }
}
