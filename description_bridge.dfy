/**
  The collaborative ticket description (`TicketDescriptionYjsBridge`): a Yjs document kept
  in step with the `ticket_description_update` rows. Remote rows are replayed once each,
  in `created_at` order; every local edit is stored as one new row. The Yjs document is
  abstract here: its text, the updates merged into it, and an `apply` that may refuse an
  update.
*/
module DescriptionBridge {
  import opened Wrappers
  import opened Utf8
  import Base64
  import opened Ordering

  /** The document: what it reads as, and the updates it has integrated. */
  datatype DocState = DocState(text: string, log: seq<seq<Byte>>)

  const EmptyDoc := DocState("", [])

  /** `Y.applyUpdateV2` after decoding the base 64 text of an update: the new document, or
      None when it throws. */
  type Apply = (DocState, string) -> Option<DocState>

  /** The update Yjs emits for the transaction that replaces the whole text. */
  type EncodeEdit = (DocState, string) -> seq<Byte>

  /** A `ticket_description_update` row as the bridge receives it. */
  datatype UpdateRow = UpdateRow(id: string, ticketId: Option<string>, updateB64: Option<string>, createdAt: Option<string>)

  /** A row the bridge hands to the updates collection. */
  datatype StoredUpdate = StoredUpdate(id: string, ticketId: string, updateB64: string, createdBy: string, createdAt: string)

  /** The transaction origins the document reports. */
  datatype Origin = RemoteOrigin | LocalOrigin

  /** Rows of this ticket with a non-empty id and update are replayed. */
  predicate Relevant(ticketId: string, row: UpdateRow) {
    row.ticketId == Some(ticketId) && row.id != "" && row.updateB64.Some? && row.updateB64.value != ""
  }

  /** `String(row.created_at ?? "")`. */
  function CreatedKey(row: UpdateRow): string {
    row.createdAt.GetOr("")
  }

  /** The rows a replay walks: this ticket's usable rows, oldest first. */
  function Pending(rows: seq<UpdateRow>, ticketId: string): seq<UpdateRow> {
    SortBy(Filter(rows, row => Relevant(ticketId, row)), CreatedKey, false)
  }

  /** The pending rows are exactly the relevant rows, each as often as it occurs, in
      ascending `created_at` order. */
  lemma PendingShape(rows: seq<UpdateRow>, ticketId: string)
    ensures var p := Pending(rows, ticketId);
      && SortedBy(p, CreatedKey, false)
      && (forall row :: row in p <==> row in rows && Relevant(ticketId, row))
      && multiset(p) == multiset(Filter(rows, row => Relevant(ticketId, row)))
  {
    var f := Filter(rows, row => Relevant(ticketId, row));
    SortBySorted(f, CreatedKey, false);
    forall row
      ensures row in Pending(rows, ticketId) <==> row in rows && Relevant(ticketId, row)
    {
      FilterMembers(rows, row => Relevant(ticketId, row), row);
      assert row in Pending(rows, ticketId) <==> row in multiset(Pending(rows, ticketId));
      assert row in f <==> row in multiset(f);
    }
  }

  /** What a replay acts on: the document, the seen ids and the number of failures reported. */
  datatype Replayed = Replayed(doc: DocState, seen: set<string>, errors: nat)

  /** One row of the replay loop: a seen id is skipped; otherwise the update is applied and
      the id marked seen, or the failure is reported and the id stays unseen. */
  function Step(r: Replayed, row: UpdateRow, apply: Apply): (s: Replayed)
    ensures row.id in r.seen ==> s == r
    ensures row.id in s.seen <==> row.id in r.seen || apply(r.doc, row.updateB64.GetOr("")).Some?
    ensures s.seen == r.seen || s.seen == r.seen + {row.id}
    ensures s.errors == r.errors || (s.errors == r.errors + 1 && s.doc == r.doc && s.seen == r.seen)
  {
    if row.id in r.seen then r
    else
      var next := apply(r.doc, row.updateB64.GetOr(""));
      if next.Some? then Replayed(next.value, r.seen + {row.id}, r.errors)
      else Replayed(r.doc, r.seen, r.errors + 1)
  }

  /** The replay loop over `rows`, first to last. */
  function Replay(r: Replayed, rows: seq<UpdateRow>, apply: Apply): Replayed {
    if rows == [] then r else Step(Replay(r, rows[..|rows| - 1], apply), rows[|rows| - 1], apply)
  }

  /** A replay only ever adds ids, and only ids of the rows it walked. */
  lemma {:induction false} ReplaySeen(r: Replayed, rows: seq<UpdateRow>, apply: Apply)
    ensures r.seen <= Replay(r, rows, apply).seen
    ensures forall x :: x in Replay(r, rows, apply).seen && x !in r.seen ==> exists i :: 0 <= i < |rows| && rows[i].id == x
    ensures r.errors <= Replay(r, rows, apply).errors
  {
    if rows != [] {
      var init := rows[..|rows| - 1];
      ReplaySeen(r, init, apply);
      forall x | x in Replay(r, rows, apply).seen && x !in r.seen
        ensures exists i :: 0 <= i < |rows| && rows[i].id == x
      {
        if x in Replay(r, init, apply).seen {
          var i :| 0 <= i < |init| && init[i].id == x;
          assert rows[i].id == x;
        } else {
          assert rows[|rows| - 1].id == x;
        }
      }
    }
  }

  /** A replay that reported no failure has marked every row it walked as seen. */
  lemma {:induction false} ReplayWithoutErrors(r: Replayed, rows: seq<UpdateRow>, apply: Apply)
    requires Replay(r, rows, apply).errors == r.errors
    ensures forall i :: 0 <= i < |rows| ==> rows[i].id in Replay(r, rows, apply).seen
  {
    if rows != [] {
      var init := rows[..|rows| - 1];
      ReplaySeen(r, init, apply);
      ReplayWithoutErrors(r, init, apply);
      forall i | 0 <= i < |rows|
        ensures rows[i].id in Replay(r, rows, apply).seen
      {
        if i < |rows| - 1 {
          assert rows[i] == init[i];
        }
      }
    }
  }

  /** Rows whose ids are all seen are all skipped. */
  lemma {:induction false} ReplaySkipsSeen(r: Replayed, rows: seq<UpdateRow>, apply: Apply)
    requires forall i :: 0 <= i < |rows| ==> rows[i].id in r.seen
    ensures Replay(r, rows, apply) == r
  {
    if rows != [] {
      ReplaySkipsSeen(r, rows[..|rows| - 1], apply);
    }
  }

  /** Replaying the same rows again after a replay without failures changes nothing: no
      update is applied twice. */
  lemma ReplayAgain(r: Replayed, rows: seq<UpdateRow>, apply: Apply)
    requires Replay(r, rows, apply).errors == r.errors
    ensures Replay(Replay(r, rows, apply), rows, apply) == Replay(r, rows, apply)
  {
    ReplayWithoutErrors(r, rows, apply);
    ReplaySkipsSeen(Replay(r, rows, apply), rows, apply);
  }

  /** A row whose update fails stays unseen and is tried again by the next replay. */
  lemma FailedRowRetried(r: Replayed, row: UpdateRow, apply: Apply)
    requires row.id !in r.seen && apply(r.doc, row.updateB64.GetOr("")).None?
    ensures Replay(r, [row], apply) == Replayed(r.doc, r.seen, r.errors + 1)
    ensures row.id !in Replay(r, [row], apply).seen
  {
    assert [row][..0] == [];
  }

  /** The bridge for one ticket. */
  class TicketDescriptionYjsBridge {
    const ticketId: string
    const userId: string
    var started: bool
    /** The Yjs document; present exactly while started. */
    var doc: Option<DocState>
    var seen: set<string>
    /** The rows handed to the updates collection, oldest first. */
    var stored: seq<StoredUpdate>
    /** How often `onError` was called. */
    var errors: nat
    /** The last text passed to `onTextChange`. */
    var shownText: string

    ghost predicate Valid()
      reads this
    {
      && (started <==> doc.Some?)
      && (started ==> shownText == doc.value.text)
      && (!started ==> seen == {})
    }

    constructor (ticketId: string, userId: string)
      ensures Valid()
      ensures this.ticketId == ticketId && this.userId == userId
      ensures !started && seen == {} && stored == [] && errors == 0 && shownText == ""
    {
      this.ticketId, this.userId := ticketId, userId;
      started, doc, seen, stored, errors, shownText := false, None, {}, [], 0, "";
    }

    /** `start`: a fresh, empty document; the empty text is shown. */
    method Start()
      requires Valid()
      modifies this
      ensures Valid()
      ensures old(started) ==> unchanged(this)
      ensures !old(started) ==> started && doc == Some(EmptyDoc) && seen == {} && shownText == ""
      ensures stored == old(stored) && errors == old(errors)
    {
      if started {
        return;
      }
      started := true;
      doc := Some(EmptyDoc);
      shownText := doc.value.text;
    }

    /** `stop`: the document and the seen ids are dropped. */
    method Stop()
      requires Valid()
      modifies this
      ensures Valid()
      ensures !old(started) ==> unchanged(this)
      ensures !started && doc == None && seen == {}
      ensures stored == old(stored) && errors == old(errors) && shownText == old(shownText)
    {
      if !started {
        return;
      }
      started := false;
      doc := None;
      seen := {};
    }

    /** `applyRemoteUpdates`: the pending rows replayed into the document; nothing is
      stored, so remote updates are never echoed back. */
    method ApplyRemoteUpdates(rows: seq<UpdateRow>, apply: Apply)
      requires Valid()
      modifies this
      ensures Valid()
      ensures !old(started) ==> unchanged(this)
      ensures old(started) ==>
        var r := Replay(Replayed(old(doc).value, old(seen), old(errors)), Pending(rows, ticketId), apply);
        started && doc == Some(r.doc) && seen == r.seen && errors == r.errors
      ensures stored == old(stored)
    {
      if doc.None? {
        return;
      }
      var updates := Pending(rows, ticketId);
      ghost var start := Replayed(doc.value, seen, errors);
      var i := 0;
      while i < |updates|
        invariant 0 <= i <= |updates|
        invariant started && doc.Some? && shownText == doc.value.text
        invariant Replayed(doc.value, seen, errors) == Replay(start, updates[..i], apply)
        invariant stored == old(stored)
      {
        var row := updates[i];
        assert updates[..i + 1][..i] == updates[..i];
        if row.id !in seen {
          var next := apply(doc.value, row.updateB64.GetOr(""));
          if next.Some? {
            // the document reports a remote-origin update, which `HandleLocalUpdate` ignores
            doc := next;
            shownText := doc.value.text;
            seen := seen + {row.id};
          } else {
            errors := errors + 1;
          }
        }
        i := i + 1;
      }
      assert updates[..i] == updates;
    }

    /** `handleLocalUpdate`: an update of local origin is stored as a new row under a fresh
      id, which is marked seen so that its own row is not replayed; `persisted` is whether
      the collection's write went through (a failed one is reported). */
    method HandleLocalUpdate(update: seq<Byte>, origin: Origin, updateId: string, now: string, persisted: bool)
      modifies this`seen, this`stored, this`errors
      ensures origin == RemoteOrigin ==> unchanged(this)
      ensures origin == LocalOrigin ==>
        && seen == old(seen) + {updateId}
        && stored == old(stored) + [StoredUpdate(updateId, ticketId, Base64.Encode(update), userId, now)]
        && errors == old(errors) + (if persisted then 0 else 1)
    {
      if origin == RemoteOrigin {
        return;
      }
      seen := seen + {updateId};
      stored := stored + [StoredUpdate(updateId, ticketId, Base64.Encode(update), userId, now)];
      if !persisted {
        errors := errors + 1;
      }
    }

    /** `setTextFromTextarea`: when started and the text differs, one local transaction
      replaces the whole text, and the update it emits is stored. */
    method SetTextFromTextarea(nextText: string, encodeEdit: EncodeEdit, updateId: string, now: string, persisted: bool)
      requires Valid()
      modifies this
      ensures Valid()
      ensures !old(started) || old(doc).value.text == nextText ==> unchanged(this)
      ensures old(started) && old(doc).value.text != nextText ==>
        var update := encodeEdit(old(doc).value, nextText);
        && doc == Some(DocState(nextText, old(doc).value.log + [update]))
        && shownText == nextText
        && seen == old(seen) + {updateId}
        && stored == old(stored) + [StoredUpdate(updateId, ticketId, Base64.Encode(update), userId, now)]
        && errors == old(errors) + (if persisted then 0 else 1)
    {
      if doc.None? {
        return;
      }
      var prevText := doc.value.text;
      if prevText == nextText {
        return;
      }
      var update := encodeEdit(doc.value, nextText);
      doc := Some(DocState(nextText, doc.value.log + [update]));
      shownText := nextText;
      HandleLocalUpdate(update, LocalOrigin, updateId, now, persisted);
    }
  }

  /** The two scenarios of the bridge's own tests: one local edit stores exactly one row for
      the ticket and shows the new text; a remote row is shown and nothing is stored. */
  method EditThenRemote(ticketId: string, userId: string, encodeEdit: EncodeEdit, apply: Apply,
                        row: UpdateRow, remoteDoc: DocState, now: string)
    returns (b: TicketDescriptionYjsBridge, c: TicketDescriptionYjsBridge)
    requires Relevant(ticketId, row) && apply(EmptyDoc, row.updateB64.value) == Some(remoteDoc)
    ensures |b.stored| == 1 && b.stored[0].ticketId == ticketId && b.shownText == "hello yjs"
    ensures c.stored == [] && c.shownText == remoteDoc.text
  {
    b := new TicketDescriptionYjsBridge(ticketId, userId);
    b.Start();
    b.SetTextFromTextarea("hello yjs", encodeEdit, "local-1", now, true);

    c := new TicketDescriptionYjsBridge(ticketId, userId);
    c.Start();
    assert Pending([row], ticketId) == [row] by {
      assert Filter([row], r => Relevant(ticketId, r)) == [row] + Filter([row][1..], r => Relevant(ticketId, r));
      assert [row][1..] == [];
      assert Filter([row], r => Relevant(ticketId, r)) == [row];
      assert SortBy([row], CreatedKey, false) == Insert(row, SortBy([row][1..], CreatedKey, false), CreatedKey, false);
    }
    assert [row][..0] == [];
    c.ApplyRemoteUpdates([row], apply);
  }
}
