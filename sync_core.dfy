/**
  What both write-reconciliation engines share: the CRUD entries a client uploads, the
  outcome each entry gets, the `sync_operation` ledger that remembers outcomes by
  operation key, and the envelope `uploadData` wraps a batch's results in.
*/
module SyncCore {
  import opened Wrappers
  import opened Js

  /** PowerSync's UpdateType. */
  datatype CrudOp = Put | Patch | Delete

  /** One uploaded CRUD entry; `opData` is absent on deletes. */
  datatype Operation = Operation(op: CrudOp, table: string, id: string, opData: Option<map<string, Json>>)

  /** `op.opData ?? {}`. */
  function Data(op: Operation): map<string, Json> {
    op.opData.GetOr(map[])
  }

  /** The four result codes ("applied", "merged", "rejected", "needs_review"). */
  datatype Code = Applied | Merged | Rejected | NeedsReview

  /** What an applier decides for one operation; this is also what a `sync_operation` row stores. */
  datatype Verdict = Verdict(result: Code, reasonCode: Option<string>, conflictId: Option<string>)

  function Reason(code: Code, reason: string): Verdict {
    Verdict(code, Some(reason), None)
  }

  /** The result returned to the client for one operation, tagged with its key, table and id. */
  datatype SyncResult<K> = SyncResult(opKey: K, table: string, id: string, verdict: Verdict)

  /** Recording an outcome under a key: `INSERT ... ON CONFLICT (op_key) DO NOTHING`. */
  function RecordFirst<K>(ledger: map<K, Verdict>, key: K, v: Verdict): (l: map<K, Verdict>)
    ensures l.Keys == ledger.Keys + {key}
    ensures forall k :: k in ledger ==> l[k] == ledger[k]
    ensures key !in ledger ==> l[key] == v
  {
    if key in ledger then ledger else ledger[key := v]
  }

  /** Recording twice under the same key keeps the first outcome. */
  lemma FirstWriteWins<K>(ledger: map<K, Verdict>, key: K, v1: Verdict, v2: Verdict)
    ensures RecordFirst(RecordFirst(ledger, key, v1), key, v2) == RecordFirst(ledger, key, v1)
  {
  }

  /** The ids the first `i` operations of a batch may give new conflict rows. */
  function IdsBefore(ids: seq<string>, i: nat): set<string>
    requires i <= |ids|
  {
    set j | 0 <= j < i :: ids[j]
  }

  lemma IdsBeforeSnoc(ids: seq<string>, i: nat)
    requires i < |ids|
    ensures IdsBefore(ids, i + 1) == IdsBefore(ids, i) + {ids[i]}
  {
  }

  /** The `uploadData` envelope: `{success, error?, results}`. */
  datatype Envelope<K> = Envelope(success: bool, error: Option<string>, results: seq<SyncResult<K>>)

  /** Wraps a batch that either completed or threw: a thrown error becomes `success: false`
      with its message (or "write_batch_failed" when the message is empty) and no results. */
  function Wrap<K>(batch: Result<seq<SyncResult<K>>>): (e: Envelope<K>)
    ensures e.success <==> batch.Ok?
    ensures batch.Ok? ==> e.results == batch.value && e.error == None
    ensures batch.Throws? ==> e.results == [] && e.error.Some? && e.error.value != ""
    ensures batch.Throws? && batch.message != "" ==> e.error == Some(batch.message)
  {
    match batch
    case Ok(results) => Envelope(true, None, results)
    case Throws(message) => Envelope(false, Some(if message == "" then "write_batch_failed" else message), [])
  }

  /** Conflict resolution strategies. */
  datatype Strategy = Local | Server | Custom

  /** The role a work-order session carries. */
  datatype Role = Tech | Manager
}
