/**
  Work-order notes (`applyWorkOrderNoteOperation`): the note text travels as a `\x`-prefixed
  hex `bytea` literal or as plain text, and an incoming note is merged with the stored one
  line by line, keeping each distinct trimmed line once.
*/
module WorkOrderNote {
  import opened Wrappers
  import opened Js
  import opened Utf8
  import Hex
  import opened Ordering
  import opened SyncCore
  import opened WorkOrderStore

  // ---------------------------------------------------------------- bytea text

  const HexPrefix: string := "\\x"

  predicate HasHexPrefix(value: string) {
    |value| >= 2 && value[..2] == HexPrefix
  }

  /** `normalizeByteaInput`: "" stays "", a `\x` literal is hex-decoded and read as UTF-8,
      anything else is taken as the text itself. */
  function NormalizeByteaInput(value: string): (r: string)
    ensures value == "" ==> r == ""
    ensures !HasHexPrefix(value) ==> r == value
  {
    if value == "" then ""
    else if HasHexPrefix(value) then Decode(Hex.NodeHexDecode(value[2..]))
    else value
  }

  /** `toHexBytea`: the `\x` literal of the text's UTF-8 bytes. */
  function ToHexBytea(value: string): (r: string)
    ensures HasHexPrefix(r) && |r| == 2 + 2 * |Encode(value)|
  {
    HexPrefix + Hex.EncodeHex(Encode(value))
  }

  /** Normalising a `\x` literal gives back the text it was made from. */
  lemma NormalizeToHexBytea(s: string)
    ensures NormalizeByteaInput(ToHexBytea(s)) == s
  {
    var r := ToHexBytea(s);
    assert r[2..] == Hex.EncodeHex(Encode(s));
    Hex.NodeHexDecodeEncode(Encode(s));
    DecodeEncode(s);
  }

  /** The bytes `decode(substr(literal, 3), 'hex')` stores for a `\x` literal. */
  function StoredBytes(literal: string): seq<Byte>
    requires HasHexPrefix(literal)
  {
    Hex.NodeHexDecode(literal[2..])
  }

  /** A stored note read back (`encode(payload, 'hex')`, then `Buffer.from(hex, "hex")` read as UTF-8). */
  function StoredText(n: Note): string {
    Decode(Hex.NodeHexDecode(Hex.EncodeHex(n.payload)))
  }

  /** What is stored for a merged text reads back as that text. */
  lemma StoredTextRoundTrip(wo: string, merged: string, updatedBy: string, updatedAt: string)
    ensures StoredText(Note(wo, StoredBytes(ToHexBytea(merged)), updatedBy, updatedAt)) == merged
  {
    Hex.NodeHexDecodeEncode(Encode(merged));
    var lit := ToHexBytea(merged);
    assert lit[2..] == Hex.EncodeHex(Encode(merged));
    DecodeEncode(merged);
  }

  // ---------------------------------------------------------------- line merge

  function TrimAll(parts: seq<string>): (r: seq<string>)
    ensures |r| == |parts|
    ensures forall i :: 0 <= i < |parts| ==> r[i] == Trim(parts[i])
  {
    seq(|parts|, i requires 0 <= i < |parts| => Trim(parts[i]))
  }

  predicate NonEmpty(line: string) {
    line != ""
  }

  /** `value.split("\n").map(line => line.trim()).filter(Boolean)`. */
  function Lines(value: string): seq<string> {
    Filter(TrimAll(Split(value, '\n')), NonEmpty)
  }

  /** A line as the merge keeps it: not empty, trimmed, with no line break. */
  predicate IsLine(line: string) {
    line != "" && Trim(line) == line && '\n' !in line
  }

  lemma LinesAreLines(value: string)
    ensures forall i :: 0 <= i < |Lines(value)| ==> IsLine(Lines(value)[i])
  {
    var pieces := Split(value, '\n');
    var trimmed := TrimAll(pieces);
    FilterAll(trimmed, NonEmpty);
    forall i | 0 <= i < |Lines(value)|
      ensures IsLine(Lines(value)[i])
    {
      var line := Lines(value)[i];
      FilterMembers(trimmed, NonEmpty, line);
      var j :| 0 <= j < |trimmed| && trimmed[j] == line;
      TrimIdempotent(pieces[j]);
      if '\n' in line {
        TrimChars(pieces[j], '\n');
      }
    }
  }

  /** Keeps the first occurrence of each element, in order. */
  function Dedup(s: seq<string>): (r: seq<string>)
    ensures forall x :: x in r <==> x in s
    ensures Distinct(r)
  {
    if s == [] then []
    else
      var d := Dedup(s[..|s| - 1]);
      assert forall x :: x in s <==> x in s[..|s| - 1] || x == s[|s| - 1] by {
        assert s == s[..|s| - 1] + [s[|s| - 1]];
      }
      if s[|s| - 1] in d then d else d + [s[|s| - 1]]
  }

  predicate Distinct(s: seq<string>) {
    forall i, j :: 0 <= i < j < |s| ==> s[i] != s[j]
  }

  /** The merged lines: the stored ones first, then the new incoming ones. */
  function MergedLines(serverValue: string, clientValue: string): seq<string> {
    Dedup(Lines(serverValue) + Lines(clientValue))
  }

  function Merge(serverValue: string, clientValue: string): string {
    Join(MergedLines(serverValue, clientValue), '\n')
  }

  /** `mergeCrdtPayload`: walks the stored lines and then the incoming ones, keeping a line
      the first time it is seen. */
  method MergeCrdtPayload(serverValue: string, clientValue: string) returns (r: string)
    ensures r == Merge(serverValue, clientValue)
  {
    var items := Lines(serverValue) + Lines(clientValue);
    var seen: set<string> := {};
    var merged: seq<string> := [];
    var i := 0;
    while i < |items|
      invariant 0 <= i <= |items|
      invariant merged == Dedup(items[..i])
      invariant forall x :: x in seen <==> x in merged
    {
      var item := items[i];
      assert items[..i + 1][..i] == items[..i];
      if item !in seen {
        seen := seen + {item};
        merged := merged + [item];
      }
      i := i + 1;
    }
    assert items[..i] == items;
    r := Join(merged, '\n');
  }

  /** Every merged line is a trimmed, non-empty line, and no line is kept twice. */
  lemma MergedLinesShape(serverValue: string, clientValue: string)
    ensures var m := MergedLines(serverValue, clientValue);
      && Distinct(m)
      && (forall i :: 0 <= i < |m| ==> IsLine(m[i]))
  {
    var l := Lines(serverValue);
    var c := Lines(clientValue);
    LinesAreLines(serverValue);
    LinesAreLines(clientValue);
    var m := MergedLines(serverValue, clientValue);
    forall i | 0 <= i < |m|
      ensures IsLine(m[i])
    {
      assert m[i] in l + c;
      var j :| 0 <= j < |l + c| && (l + c)[j] == m[i];
      if j >= |l| {
        assert c[j - |l|] == m[i];
      }
    }
  }

  /** A line is in the merge exactly when it is a line of either side. */
  lemma MergedMembers(serverValue: string, clientValue: string, x: string)
    ensures x in MergedLines(serverValue, clientValue) <==> x in Lines(serverValue) || x in Lines(clientValue)
  {
  }

  lemma ConcatAssoc(a: seq<string>, b: seq<string>, c: seq<string>)
    ensures (a + b) + c == a + (b + c)
  {
  }

  /** Appending one element to a list deduplicates like appending it to the deduplicated list. */
  lemma DedupSnoc(s: seq<string>, y: string)
    ensures Dedup(s + [y]) == if y in Dedup(s) then Dedup(s) else Dedup(s) + [y]
  {
    assert (s + [y])[..|s|] == s;
  }

  /** Deduplicating a concatenation: the first part deduplicated, then the second part's
      elements that the first part does not have, deduplicated. */
  lemma {:induction false} DedupAppend(s: seq<string>, t: seq<string>)
    ensures Dedup(s + t) == Dedup(s) + Dedup(Filter(t, x => x !in s))
  {
    var p := x => x !in s;
    if t == [] {
      assert s + t == s;
    } else {
      var t', y := t[..|t| - 1], t[|t| - 1];
      assert t == t' + [y];
      assert s + t == (s + t') + [y];
      DedupAppend(s, t');
      DedupSnoc(s + t', y);
      FilterAppend(t', [y], p);
      var ds, ft := Dedup(s), Filter(t', p);
      var dft := Dedup(ft);
      assert Dedup(s + t') == ds + dft;
      assert Filter([y], p) == (if p(y) then [y] else []) + Filter([y][1..], p);
      if y !in s {
        assert Filter(t, p) == ft + [y];
        DedupSnoc(ft, y);
        assert y !in ds;
        assert y in ds + dft <==> y in dft;
        if y in dft {
          assert Dedup(s + t) == ds + dft;
        } else {
          ConcatAssoc(ds, dft, [y]);
        }
      } else {
        assert Filter(t, p) == ft + [];
        assert ft + [] == ft;
        assert y in ds + dft;
      }
    }
  }

  lemma {:induction false} DedupOfDistinct(s: seq<string>)
    requires Distinct(s)
    ensures Dedup(s) == s
  {
    if s != [] {
      DedupOfDistinct(s[..|s| - 1]);
    }
  }

  /** The merge lists the stored lines first, in first-seen order, then the incoming lines
      the stored text does not have, in their order. */
  lemma MergedOrder(serverValue: string, clientValue: string)
    ensures MergedLines(serverValue, clientValue)
      == Dedup(Lines(serverValue)) + Dedup(Filter(Lines(clientValue), x => x !in Lines(serverValue)))
  {
    DedupAppend(Lines(serverValue), Lines(clientValue));
  }

  /** Reading the lines of a joined list of lines gives the list back. */
  lemma LinesOfJoin(m: seq<string>)
    requires forall i :: 0 <= i < |m| ==> IsLine(m[i])
    ensures Lines(Join(m, '\n')) == m
  {
    if m == [] {
      NoLines();
    } else {
      SplitJoin(m, '\n');
      TrimAllOfLines(m);
      FilterEvery(m, NonEmpty);
    }
  }

  /** The empty text has no lines. */
  lemma NoLines()
    ensures Lines("") == []
  {
    assert Split("", '\n') == [""];
    assert TrimAll([""]) == [""];
  }

  lemma TrimAllOfLines(m: seq<string>)
    requires forall i :: 0 <= i < |m| ==> IsLine(m[i])
    ensures TrimAll(m) == m
  {
  }

  /** Merging the same incoming text again changes nothing. */
  lemma MergeIdempotent(serverValue: string, clientValue: string)
    ensures Merge(Merge(serverValue, clientValue), clientValue) == Merge(serverValue, clientValue)
  {
    var m := MergedLines(serverValue, clientValue);
    var c := Lines(clientValue);
    MergedLinesShape(serverValue, clientValue);
    LinesOfJoin(m);
    DedupAppend(m, c);
    forall i | 0 <= i < |c|
      ensures c[i] in m
    {
      MergedMembers(serverValue, clientValue, c[i]);
    }
    FilterNone(c, x => x !in m);
    DedupOfDistinct(m);
    assert Dedup([]) == [];
    assert m + [] == m;
  }

  /** Merging with an empty incoming text gives the stored text normalised. */
  lemma MergeWithEmpty(serverValue: string)
    ensures Merge(serverValue, "") == Join(Dedup(Lines(serverValue)), '\n')
  {
    assert Split("", '\n') == [""];
    assert TrimAll([""]) == [""];
    assert Lines("") == [];
    assert Lines(serverValue) + [] == Lines(serverValue);
  }

  // ---------------------------------------------------------------- the applier

  /** `k` may be the note the lookup of `workOrderId`'s notes returns first: one of that
      work order's notes, and none only when it has none. */
  predicate FirstOf(notes: map<string, Note>, workOrderId: string, k: Option<string>) {
    match k
    case Some(id) => id in notes && notes[id].workOrderId == workOrderId
    case None => forall id :: id in notes ==> notes[id].workOrderId != workOrderId
  }

  /** The lookup has no `ORDER BY`, so the row the database returns first is an input of the
      model: `firstNote(notes, workOrderId)` names it, for every state of the table. */
  type RowOrder = (map<string, Note>, string) -> Option<string>

  ghost predicate IsRowOrder(firstNote: RowOrder) {
    forall notes, workOrderId :: FirstOf(notes, workOrderId, firstNote(notes, workOrderId))
  }

  /** The text of the note the lookup returns first, or "" when it returns none. */
  function ExistingText(notes: map<string, Note>, workOrderId: string, firstNote: RowOrder): string {
    match firstNote(notes, workOrderId)
    case Some(id) => if id in notes then StoredText(notes[id]) else ""
    case None => ""
  }

  /** Whatever the row order, the text read is that of some stored note of the work order,
      or "" when it has none. */
  ghost predicate ReadsExisting(notes: map<string, Note>, workOrderId: string, existing: string) {
    if exists k :: k in notes && notes[k].workOrderId == workOrderId
    then exists k :: k in notes && notes[k].workOrderId == workOrderId && existing == StoredText(notes[k])
    else existing == ""
  }

  lemma ExistingTextReads(notes: map<string, Note>, workOrderId: string, firstNote: RowOrder)
    requires IsRowOrder(firstNote)
    ensures ReadsExisting(notes, workOrderId, ExistingText(notes, workOrderId, firstNote))
  {
    assert FirstOf(notes, workOrderId, firstNote(notes, workOrderId));
  }

  /** `String(opData.work_order_id ?? op.id)`. */
  function NoteWorkOrderId(op: Operation, data: map<string, Json>): string {
    StringOr(Get(data, "work_order_id"), op.id)
  }

  /** The incoming note text. */
  function IncomingNote(data: map<string, Json>): string {
    NormalizeByteaInput(StringOr(Get(data, "crdt_payload"), ""))
  }

  function NoteVerdict(existing: string): Verdict {
    if existing != "" then Reason(Merged, "crdt_merge") else Reason(Applied, "note_upsert")
  }

  /** What `applyWorkOrderNoteOperation` does to the tables `b`, the database returning rows
      in the order `firstNote`. `Throws` is the TypeError raised by reading the missing
      payload of a non-delete operation. */
  ghost function NoteEffect(b: WoTables, op: Operation, userId: string, now: string,
                            firstNote: RowOrder): Effect {
    if op.op == Delete then Effect(b, Ok(Reason(Rejected, "restricted_note_delete")))
    else if op.opData == None then Effect(b, Throws(MissingOpData))
    else
      var data := op.opData.value;
      var wo := NoteWorkOrderId(op, data);
      var existing := ExistingText(b.notes, wo, firstNote);
      Effect(b.(notes := b.notes[op.id := Note(wo, StoredBytes(ToHexBytea(Merge(existing, IncomingNote(data)))), userId, now)]),
             Ok(NoteVerdict(existing)))
  }

  /** The note applier throws exactly for a payload-less write and then writes nothing; it
      otherwise upserts the operation's note, which then holds the merge of the text read
      and the incoming text, and it answers `merged` exactly when that text read was not empty. */
  lemma NoteOutcome(b: WoTables, op: Operation, userId: string, now: string, firstNote: RowOrder)
    ensures var e := NoteEffect(b, op, userId, now, firstNote);
      && (e.outcome.Throws? <==> op.op != Delete && op.opData == None)
      && (e.outcome.Throws? || op.op == Delete ==> e.tables == b)
      && (op.op != Delete && op.opData.Some? ==>
            var wo := NoteWorkOrderId(op, op.opData.value);
            var existing := ExistingText(b.notes, wo, firstNote);
            && e.tables == b.(notes := e.tables.notes)
            && op.id in e.tables.notes && e.tables.notes[op.id].workOrderId == wo
            && StoredText(e.tables.notes[op.id]) == Merge(existing, IncomingNote(op.opData.value))
            && (e.outcome == Ok(Reason(Merged, "crdt_merge")) <==> existing != ""))
  {
    if op.op != Delete && op.opData.Some? {
      var wo := NoteWorkOrderId(op, op.opData.value);
      var merged := Merge(ExistingText(b.notes, wo, firstNote), IncomingNote(op.opData.value));
      StoredTextRoundTrip(wo, merged, userId, now);
    }
  }

  /** `applyWorkOrderNoteOperation` against the database. */
  method ApplyWorkOrderNote(db: WorkOrderDatabase, op: Operation, userId: string, now: string,
                            firstNote: RowOrder)
    returns (r: Result<Verdict>)
    requires IsRowOrder(firstNote)
    modifies db`notes
    ensures Effect(db.Snapshot(), r) == NoteEffect(old(db.Snapshot()), op, userId, now, firstNote)
  {
    if op.op == Delete {
      return Ok(Reason(Rejected, "restricted_note_delete"));
    }
    if op.opData == None {
      return Throws(MissingOpData);
    }
    var data := op.opData.value;
    var noteId := op.id;
    var workOrderId := StringOr(Get(data, "work_order_id"), op.id);
    var incomingPayload := NormalizeByteaInput(StringOr(Get(data, "crdt_payload"), ""));
    var existingPayload := "";
    var first := firstNote(db.notes, workOrderId);
    if first.Some? {
      assert FirstOf(db.notes, workOrderId, first);
      existingPayload := StoredText(db.notes[first.value]);
    }
    var mergedPayload := MergeCrdtPayload(existingPayload, incomingPayload);
    var byteaHex := ToHexBytea(mergedPayload);
    db.notes := db.notes[noteId := Note(workOrderId, StoredBytes(byteaHex), userId, now)];
    r := Ok(NoteVerdict(existingPayload));
  }

  /** What reading the missing payload of a non-delete operation raises. */
  const MissingOpData := "TypeError: Cannot read properties of undefined"
}
