/**
  The description editor component (`TicketDescriptionCrdt`): the same bridge written as
  closures over `started`, `activeTicketId`, the document and the seen ids, restarted
  whenever the selected ticket changes.
*/
module DescriptionCrdt {
  import opened Wrappers
  import opened Utf8
  import Base64
  import opened DescriptionBridge

  /** What `onError` is called with. */
  const SyncFailed := "Failed to sync collaborative description"

  class TicketDescriptionCrdt {
    const userId: string
    var started: bool
    var activeTicketId: Option<string>
    var doc: Option<DocState>
    var seen: set<string>
    /** The `text` signal the textarea shows. */
    var text: string
    var stored: seq<StoredUpdate>
    /** The messages passed to `onError`, oldest first. */
    var errors: seq<string>

    ghost predicate Valid()
      reads this
    {
      && (started <==> doc.Some?)
      && (started <==> activeTicketId.Some?)
      && (started ==> text == doc.value.text)
      && (!started ==> seen == {})
    }

    constructor (userId: string)
      ensures Valid()
      ensures this.userId == userId
      ensures !started && activeTicketId == None && seen == {} && text == "" && stored == [] && errors == []
    {
      this.userId := userId;
      started, activeTicketId, doc, seen, text, stored, errors := false, None, None, {}, "", [], [];
    }

    /** `startBridge`: does nothing when started; otherwise records the ticket and starts
      from an empty document. */
    method StartBridge(ticketId: string)
      requires Valid()
      modifies this
      ensures Valid()
      ensures old(started) ==> unchanged(this)
      ensures !old(started) ==>
        started && activeTicketId == Some(ticketId) && doc == Some(EmptyDoc) && seen == {} && text == ""
      ensures stored == old(stored) && errors == old(errors)
    {
      if started {
        return;
      }
      started := true;
      activeTicketId := Some(ticketId);
      doc := Some(EmptyDoc);
      text := doc.value.text;
    }

    /** `stopBridge`: does nothing when stopped; otherwise drops the ticket, the document and
      the seen ids. */
    method StopBridge()
      requires Valid()
      modifies this
      ensures Valid()
      ensures !old(started) ==> unchanged(this)
      ensures !started && activeTicketId == None && doc == None && seen == {}
      ensures text == old(text) && stored == old(stored) && errors == old(errors)
    {
      if !started {
        return;
      }
      started := false;
      doc := None;
      activeTicketId := None;
      seen := {};
    }

    /** The effect on a change of the selected ticket: the current bridge is stopped, then a
      bridge for the new ticket is started; no ticket leaves it stopped with an empty text. */
    method TicketChanged(ticketId: string)
      requires Valid()
      modifies this
      ensures Valid()
      ensures ticketId == "" ==> !started && text == ""
      ensures ticketId != "" ==>
        started && activeTicketId == Some(ticketId) && doc == Some(EmptyDoc) && seen == {} && text == ""
      ensures stored == old(stored) && errors == old(errors)
    {
      StopBridge();
      if ticketId == "" {
        text := "";
        return;
      }
      StartBridge(ticketId);
    }

    /** `applyRemoteUpdates`: the active ticket's pending rows replayed into the document;
      nothing is stored. */
    method ApplyRemoteUpdates(rows: seq<UpdateRow>, apply: Apply)
      requires Valid()
      modifies this
      ensures Valid()
      ensures !old(started) || old(activeTicketId) == Some("") ==> unchanged(this)
      ensures old(started) && old(activeTicketId) != Some("") ==>
        var r := Replay(Replayed(old(doc).value, old(seen), |old(errors)|), Pending(rows, old(activeTicketId).value), apply);
        && started && activeTicketId == old(activeTicketId)
        && doc == Some(r.doc) && seen == r.seen && |errors| == r.errors
        && |old(errors)| <= |errors| && errors[..|old(errors)|] == old(errors)
        && (forall k :: |old(errors)| <= k < |errors| ==> errors[k] == SyncFailed)
      ensures stored == old(stored)
    {
      if doc.None? || activeTicketId.None? || activeTicketId.value == "" {
        return;
      }
      var updates := Pending(rows, activeTicketId.value);
      ghost var start := Replayed(doc.value, seen, |errors|);
      var i := 0;
      while i < |updates|
        invariant 0 <= i <= |updates|
        invariant started && doc.Some? && text == doc.value.text && activeTicketId == old(activeTicketId)
        invariant Replayed(doc.value, seen, |errors|) == Replay(start, updates[..i], apply)
        invariant |old(errors)| <= |errors| && errors[..|old(errors)|] == old(errors)
        invariant forall k :: |old(errors)| <= k < |errors| ==> errors[k] == SyncFailed
        invariant stored == old(stored)
      {
        var row := updates[i];
        assert updates[..i + 1][..i] == updates[..i];
        if row.id !in seen {
          var next := apply(doc.value, row.updateB64.GetOr(""));
          if next.Some? {
            doc := next;
            text := doc.value.text;
            seen := seen + {row.id};
          } else {
            errors := errors + [SyncFailed];
          }
        }
        i := i + 1;
      }
      assert updates[..i] == updates;
      ReplaySeen(start, updates, apply);
    }

    /** `handleLocalUpdate`: ignored for a remote origin or when no ticket is active;
      otherwise stored as a new row of the active ticket under a fresh, seen id. */
    method HandleLocalUpdate(update: seq<Byte>, origin: Origin, updateId: string, now: string, persisted: bool)
      modifies this`seen, this`stored, this`errors
      ensures origin == RemoteOrigin || activeTicketId.None? || activeTicketId == Some("") ==> unchanged(this)
      ensures origin == LocalOrigin && activeTicketId.Some? && activeTicketId.value != "" ==>
        && seen == old(seen) + {updateId}
        && stored == old(stored) + [StoredUpdate(updateId, activeTicketId.value, Base64.Encode(update), userId, now)]
        && errors == old(errors) + (if persisted then [] else [SyncFailed])
    {
      if origin == RemoteOrigin || activeTicketId.None? || activeTicketId.value == "" {
        return;
      }
      seen := seen + {updateId};
      stored := stored + [StoredUpdate(updateId, activeTicketId.value, Base64.Encode(update), userId, now)];
      if !persisted {
        errors := errors + [SyncFailed];
      }
    }

    /** The textarea's input handler: the text signal takes the typed text, and when the
      bridge is started and the document's text differs, one local transaction replaces it
      and its update is stored. */
    method OnInput(nextText: string, encodeEdit: EncodeEdit, updateId: string, now: string, persisted: bool)
      requires Valid()
      modifies this
      ensures Valid()
      ensures text == nextText && started == old(started) && activeTicketId == old(activeTicketId)
      ensures !old(started) || old(doc).value.text == nextText ==>
        doc == old(doc) && seen == old(seen) && stored == old(stored) && errors == old(errors)
      ensures old(started) && old(doc).value.text != nextText ==>
        var update := encodeEdit(old(doc).value, nextText);
        && doc == Some(DocState(nextText, old(doc).value.log + [update]))
        && seen == old(seen) + (if old(activeTicketId).value != "" then {updateId} else {})
        && stored == old(stored) + (if old(activeTicketId).value != "" then [StoredUpdate(updateId, old(activeTicketId).value, Base64.Encode(update), userId, now)] else [])
        && errors == old(errors) + (if old(activeTicketId).value != "" && !persisted then [SyncFailed] else [])
    {
      text := nextText;
      if doc.None? {
        return;
      }
      var prevText := doc.value.text;
      if prevText == nextText {
        return;
      }
      var update := encodeEdit(doc.value, nextText);
      doc := Some(DocState(nextText, doc.value.log + [update]));
      HandleLocalUpdate(update, LocalOrigin, updateId, now, persisted);
    }
  }
}
