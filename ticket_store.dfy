/**
  The ticket app's server tables. Each table is a map from row id to row; the activity
  log is a sequence in insertion order; `sync_operation` maps an operation key to the
  outcome recorded for it. Timestamps are opaque texts.
*/
module TicketStore {
  import opened Wrappers
  import opened Js
  import opened SyncCore

  /** A `ticket` row. The three text fields are nullable because conflict resolution may set them to null. */
  datatype Ticket = Ticket(
    title: Option<string>,
    description: Option<string>,
    status: Option<string>,
    deletedAt: Option<string>,
    createdAt: string,
    updatedAt: string,
    version: int)

  datatype Assignment = Assignment(ticketId: string, userId: string, deletedAt: Option<string>, createdAt: string)

  datatype Comment = Comment(ticketId: string, body: string, createdBy: string, deletedAt: Option<string>, createdAt: string)

  datatype AttachmentUrl = AttachmentUrl(
    ticketId: string, url: string, urlHash: string, createdBy: string, deletedAt: Option<string>, createdAt: string)

  datatype Link = Link(ticketId: string, url: string, createdBy: string, deletedAt: Option<string>, createdAt: string)

  datatype DescriptionUpdate = DescriptionUpdate(ticketId: string, updateB64: string, createdBy: string, createdAt: string)

  /** A `ticket_conflict` row; local and server values are the stored jsonb documents. */
  datatype TicketConflict = TicketConflict(
    ticketId: string,
    fieldName: string,
    localValue: Json,
    serverValue: Json,
    status: string,
    resolvedValue: Option<Json>,
    resolvedBy: Option<string>,
    resolvedAt: Option<string>)

  /** A `ticket_activity` row (its generated id is not modelled). */
  datatype Activity = Activity(ticketId: string, action: string, fieldName: Option<string>, details: map<string, Json>, createdBy: Option<string>)

  /** The key the ticket engine hashes: op, table, id, `opData ?? {}` and the session user. */
  datatype OpKey = OpKey(op: CrudOp, table: string, id: string, opData: map<string, Json>, userId: string)

  /** No two rows of `m` share the natural key `nk`. */
  ghost predicate UniqueBy<V, N>(m: map<string, V>, nk: V -> N) {
    forall a, b :: a in m && b in m && nk(m[a]) == nk(m[b]) ==> a == b
  }

  /** `UPDATE <table> SET deleted_at = now() WHERE id = $1`: marks the row, if there is one. */
  function SoftDelete<V>(m: map<string, V>, id: string, mark: V -> V): (r: map<string, V>)
    ensures r.Keys == m.Keys
    ensures id in m ==> r[id] == mark(m[id])
    ensures forall k :: k in m && k != id ==> r[k] == m[k]
  {
    if id in m then m[id := mark(m[id])] else m
  }

  /** The row of `m` that holds the natural key `key`, if one does (with unique keys there is
      at most one, so which one is never in doubt). */
  ghost function Holder<V, N>(m: map<string, V>, nk: V -> N, key: N): (h: Option<string>)
    ensures h.Some? ==> h.value in m && nk(m[h.value]) == key
    ensures h.None? <==> forall k :: k in m ==> nk(m[k]) != key
  {
    if exists k :: k in m && nk(m[k]) == key then
      var k :| k in m && nk(m[k]) == key;
      Some(k)
    else None
  }

  /** `INSERT ... ON CONFLICT (<natural key>) DO UPDATE`: the row that already has the new
      row's natural key is merged with it; otherwise the new row is inserted under `id`
      (callers rule out an `id` that is already taken, which the database refuses). */
  ghost function Upsert<V, N>(m: map<string, V>, id: string, row: V, nk: V -> N, merge: (V, V) -> V): map<string, V>
  {
    match Holder(m, nk, nk(row))
    case Some(k) => m[k := merge(m[k], row)]
    case None => m[id := row]
  }

  /** Marking a row in a way that keeps its natural key keeps the keys unique. */
  lemma SoftDeleteKeepsUnique<V, N>(m: map<string, V>, id: string, mark: V -> V, nk: V -> N)
    requires UniqueBy(m, nk)
    requires id in m ==> nk(mark(m[id])) == nk(m[id])
    ensures UniqueBy(SoftDelete(m, id, mark), nk)
  {
    var r := SoftDelete(m, id, mark);
    forall a, b | a in r && b in r && nk(r[a]) == nk(r[b]) ensures a == b {
      assert nk(r[a]) == nk(m[a]) && nk(r[b]) == nk(m[b]);
    }
  }

  /** Merging the new row into the row that has its natural key is an upsert, and keeps the
      keys unique when the merge keeps the key. */
  lemma UpsertMerge<V, N>(m: map<string, V>, id: string, k: string, row: V, nk: V -> N, merge: (V, V) -> V)
    requires UniqueBy(m, nk) && k in m && nk(m[k]) == nk(row) && nk(merge(m[k], row)) == nk(m[k])
    ensures Upsert(m, id, row, nk, merge) == m[k := merge(m[k], row)]
    ensures UniqueBy(m[k := merge(m[k], row)], nk)
  {
    var h := Holder(m, nk, nk(row));
    assert h.Some? && h.value == k;
    var r := m[k := merge(m[k], row)];
    forall a, b | a in r && b in r && nk(r[a]) == nk(r[b]) ensures a == b {
      assert nk(r[a]) == nk(m[a]) && nk(r[b]) == nk(m[b]);
    }
  }

  /** Inserting a row whose natural key no row has, under a free id, is an upsert and keeps
      the keys unique. */
  lemma UpsertInsert<V, N>(m: map<string, V>, id: string, row: V, nk: V -> N, merge: (V, V) -> V)
    requires UniqueBy(m, nk) && id !in m
    requires forall k :: k in m ==> nk(m[k]) != nk(row)
    ensures Upsert(m, id, row, nk, merge) == m[id := row]
    ensures UniqueBy(m[id := row], nk)
  {
  }

  /** `INSERT ... ON CONFLICT (<natural key>) DO UPDATE` on the rows `m`: the rows after the
      upsert, or `None` when the insert would take an `id` that a row with another natural
      key holds, which the database refuses. */
  method UpsertRow<V, N(==)>(m: map<string, V>, id: string, row: V, nk: V -> N, merge: (V, V) -> V)
    returns (r: Option<map<string, V>>)
    requires UniqueBy(m, nk)
    requires forall v :: nk(merge(v, row)) == nk(v)
    ensures r == (if Holder(m, nk, nk(row)).None? && id in m then None else Some(Upsert(m, id, row, nk, merge)))
    ensures r.Some? ==> UniqueBy(r.value, nk)
  {
    if k :| k in m && nk(m[k]) == nk(row) {
      UpsertMerge(m, id, k, row, nk, merge);
      r := Some(m[k := merge(m[k], row)]);
    } else if id in m {
      r := None;
    } else {
      UpsertInsert(m, id, row, nk, merge);
      r := Some(m[id := row]);
    }
  }

  function AssignmentKey(a: Assignment): (string, string) {
    (a.ticketId, a.userId)
  }

  function AttachmentKey(a: AttachmentUrl): (string, string) {
    (a.ticketId, a.urlHash)
  }

  /** `deleted_at = now()`, for each child table. */
  function AssignmentRemoved(now: string): Assignment -> Assignment {
    (a: Assignment) => a.(deletedAt := Some(now))
  }

  function CommentRemoved(now: string): Comment -> Comment {
    (c: Comment) => c.(deletedAt := Some(now))
  }

  function AttachmentRemoved(now: string): AttachmentUrl -> AttachmentUrl {
    (a: AttachmentUrl) => a.(deletedAt := Some(now))
  }

  function LinkRemoved(now: string): Link -> Link {
    (l: Link) => l.(deletedAt := Some(now))
  }

  /** The `DO UPDATE` of an assignment: the existing row is revived. */
  function RevivedAssignment(existing: Assignment, incoming: Assignment): Assignment {
    existing.(deletedAt := None)
  }

  /** The `DO UPDATE` of an attachment url: the existing row takes the new url and is revived. */
  function RevivedAttachment(existing: AttachmentUrl, incoming: AttachmentUrl): AttachmentUrl {
    existing.(url := incoming.url, deletedAt := None)
  }

  /** The contents of every table but the ledger, as one value. */
  datatype TicketTables = TicketTables(
    tickets: map<string, Ticket>,
    assignments: map<string, Assignment>,
    comments: map<string, Comment>,
    attachments: map<string, AttachmentUrl>,
    links: map<string, Link>,
    descriptionUpdates: map<string, DescriptionUpdate>,
    conflicts: map<string, TicketConflict>,
    activity: seq<Activity>)

  class TicketDatabase {
    var tickets: map<string, Ticket>
    var assignments: map<string, Assignment>
    var comments: map<string, Comment>
    var attachments: map<string, AttachmentUrl>
    var links: map<string, Link>
    var descriptionUpdates: map<string, DescriptionUpdate>
    var conflicts: map<string, TicketConflict>
    var activity: seq<Activity>
    var ledger: map<OpKey, Verdict>

    /** The unique indexes the upserts rely on: (ticket_id, user_id) for assignments and
        (ticket_id, url_hash) for attachment urls. */
    ghost predicate Valid()
      reads this
    {
      UniqueBy(assignments, AssignmentKey) && UniqueBy(attachments, AttachmentKey)
    }

    /** The tables as they stand. */
    function Snapshot(): TicketTables
      reads this
    {
      TicketTables(tickets, assignments, comments, attachments, links, descriptionUpdates, conflicts, activity)
    }

    constructor ()
      ensures Valid()
      ensures tickets == map[] && assignments == map[] && comments == map[] && attachments == map[]
      ensures links == map[] && descriptionUpdates == map[] && conflicts == map[]
      ensures activity == [] && ledger == map[]
    {
      tickets, assignments, comments, attachments := map[], map[], map[], map[];
      links, descriptionUpdates, conflicts := map[], map[], map[];
      activity, ledger := [], map[];
    }
  }
}
