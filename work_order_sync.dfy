/**
  The work-order app's write engine (`processWriteBatch`): every uploaded operation is keyed
  by its content, the session user and the session role; a key the `sync_operation` ledger
  knows is answered from the ledger, anything else is dispatched to its table's applier. An
  applier that throws is answered `rejected`/`server_error`, and that answer is recorded
  like any other.
*/
module WorkOrderSync {
  import opened Wrappers
  import opened Js
  import opened SyncCore
  import opened WorkOrderStore
  import WorkOrderWrite
  import WorkOrderNote
  import PartUsage

  /** `toOpKey`: the operation (a missing payload as `{}`), the user and the role. */
  function ToOpKey(op: Operation, userId: string, role: Role): (k: OpKey)
    ensures k.op == op.op && k.table == op.table && k.id == op.id && k.userId == userId && k.role == role
    ensures op.opData.Some? ==> k.opData == op.opData.value
    ensures op.opData.None? ==> k.opData == map[]
  {
    OpKey(op.op, op.table, op.id, Data(op), userId, role)
  }

  /** The same upload by a technician and by a manager is two different ledger entries. */
  lemma RoleSeparatesKeys(op: Operation, userId: string)
    ensures ToOpKey(op, userId, Tech) != ToOpKey(op, userId, Manager)
  {
  }

  const ServerError := Reason(Rejected, "server_error")

  /** The `catch` around the appliers. */
  function Caught(r: Result<Verdict>): (v: Verdict)
    ensures r.Ok? ==> v == r.value
    ensures r.Throws? ==> v == Reason(Rejected, "server_error")
  {
    if r.Ok? then r.value else ServerError
  }

  predicate IsWorkOrderTable(table: string) {
    table == "work_order" || table == "work_order_note" || table == "part_usage_event"
  }

  /** The tables an applier leaves and the verdict answered once its throw is caught. */
  datatype Answer = Answer(tables: WoTables, verdict: Verdict)

  function Catch(e: Effect): (a: Answer)
    ensures a.tables == e.tables && a.verdict == Caught(e.outcome)
  {
    Answer(e.tables, Caught(e.outcome))
  }

  /** What `applyOperation` does to the tables `b`: the applier for the operation's table,
      inside the `catch`; any other table is unsupported. */
  ghost function OperationEffect(b: WoTables, op: Operation, userId: string, role: Role, now: string, freshId: string,
                                 parseDate: string -> Option<int>, firstNote: WorkOrderNote.RowOrder): Answer
  {
    if op.table == "work_order" then Catch(WorkOrderWrite.WorkOrderEffect(b, op, role, now, freshId, parseDate))
    else if op.table == "work_order_note" then Catch(WorkOrderNote.NoteEffect(b, op, userId, now, firstNote))
    else if op.table == "part_usage_event" then
      var s := PartUsage.PlanUsage(b.events, b.inventory, op, userId);
      Answer(b.(events := s.events, inventory := s.inventory), Caught(s.verdict))
    else Answer(b, Reason(Rejected, "unsupported_table"))
  }

  /** `applyOperation`: dispatch on the table; whatever an applier throws becomes
      `server_error`, and an applier throws only before it writes. */
  method ApplyOperation(db: WorkOrderDatabase, op: Operation, userId: string, role: Role, now: string, freshId: string,
                        parseDate: string -> Option<int>, firstNote: WorkOrderNote.RowOrder)
    returns (v: Verdict)
    requires db.Valid() && WorkOrderNote.IsRowOrder(firstNote)
    modifies db`workOrders, db`notes, db`events, db`inventory, db`conflicts
    ensures db.Valid()
    ensures db.conflicts.Keys <= old(db.conflicts).Keys + {freshId}
    ensures forall k :: k in old(db.conflicts) && k != freshId ==> k in db.conflicts && db.conflicts[k] == old(db.conflicts)[k]
    ensures v == ServerError ==> unchanged(db)
    ensures !IsWorkOrderTable(op.table) ==> v == Reason(Rejected, "unsupported_table") && unchanged(db)
    ensures op.table != "work_order" ==> db.workOrders == old(db.workOrders) && db.conflicts == old(db.conflicts)
    ensures op.table != "work_order_note" ==> db.notes == old(db.notes)
    ensures op.table != "part_usage_event" ==> db.events == old(db.events) && db.inventory == old(db.inventory)
    // a payload-less operation the appliers read throws
    ensures op.table == "work_order_note" && op.op != Delete && op.opData == None ==> v == ServerError
    ensures op.table == "part_usage_event" && op.op == Put && op.opData == None ==> v == ServerError
    ensures op.table == "work_order" && op.op != Delete && op.opData == None ==>
      (v == ServerError <==> op.id in old(db.workOrders) || (op.op == Put && role == Manager))
    // each table's applier, its throws caught
    ensures Answer(db.Snapshot(), v) == OperationEffect(old(db.Snapshot()), op, userId, role, now, freshId, parseDate, firstNote)
  {
    if op.table == "work_order" {
      v := WorkOrderCaught(db, op, role, now, freshId, parseDate);
    } else if op.table == "work_order_note" {
      v := NoteCaught(db, op, userId, now, firstNote);
    } else if op.table == "part_usage_event" {
      v := PartUsageCaught(db, op, userId);
    } else {
      v := Reason(Rejected, "unsupported_table");
    }
  }

  /** The work-order applier inside the `catch`: it throws exactly for a payload-less
      update of an existing row or creation by a manager, and then writes nothing. */
  method WorkOrderCaught(db: WorkOrderDatabase, op: Operation, role: Role, now: string, freshId: string,
                         parseDate: string -> Option<int>)
    returns (v: Verdict)
    modifies db`workOrders, db`conflicts
    ensures db.conflicts.Keys <= old(db.conflicts).Keys + {freshId}
    ensures forall k :: k in old(db.conflicts) && k != freshId ==> k in db.conflicts && db.conflicts[k] == old(db.conflicts)[k]
    ensures Answer(db.Snapshot(), v) == Catch(WorkOrderWrite.WorkOrderEffect(old(db.Snapshot()), op, role, now, freshId, parseDate))
    ensures v == ServerError <==>
      op.op != Delete && op.opData == None && (op.id in old(db.workOrders) || (op.op == Put && role == Manager))
    ensures v == ServerError ==> unchanged(db)
  {
    WorkOrderWrite.WorkOrderThrows(db.Snapshot(), op, role, now, freshId, parseDate);
    var r := WorkOrderWrite.ApplyWorkOrder(db, op, role, now, freshId, parseDate);
    v := Caught(r);
  }

  /** The note applier inside the `catch`: it throws exactly for a payload-less write, and
      then writes nothing. */
  method NoteCaught(db: WorkOrderDatabase, op: Operation, userId: string, now: string, firstNote: WorkOrderNote.RowOrder) returns (v: Verdict)
    requires WorkOrderNote.IsRowOrder(firstNote)
    modifies db`notes
    ensures Answer(db.Snapshot(), v) == Catch(WorkOrderNote.NoteEffect(old(db.Snapshot()), op, userId, now, firstNote))
    ensures v == ServerError <==> op.op != Delete && op.opData == None
    ensures v == ServerError ==> unchanged(db)
  {
    var r := WorkOrderNote.ApplyWorkOrderNote(db, op, userId, now, firstNote);
    v := Caught(r);
  }

  /** The part-usage applier inside the `catch`. */
  method PartUsageCaught(db: WorkOrderDatabase, op: Operation, userId: string) returns (v: Verdict)
    requires db.Valid()
    modifies db`events, db`inventory
    ensures db.Valid()
    ensures var s := PartUsage.PlanUsage(old(db.events), old(db.inventory), op, userId);
      v == Caught(s.verdict) && db.events == s.events && db.inventory == s.inventory
    ensures v == ServerError ==> unchanged(db)
  {
    var r := PartUsage.ApplyPartUsageEvent(db, op, userId);
    v := Caught(r);
  }

  /** The server between two operations: its tables and its ledger. */
  datatype ServerState = ServerState(tables: WoTables, ledger: map<OpKey, Verdict>)

  /** Where one operation leaves the server, and the answer it returns. */
  datatype Step = Step(server: ServerState, result: SyncResult<OpKey>)

  /** What `resolveWithDedupe` does from the server `s`: a key the ledger knows is answered
      from the ledger and nothing changes; any other operation is applied and its answer
      recorded under its key. */
  ghost function ResolveStep(s: ServerState, op: Operation, userId: string, role: Role, now: string, freshId: string,
                             parseDate: string -> Option<int>, firstNote: WorkOrderNote.RowOrder): Step
  {
    var key := ToOpKey(op, userId, role);
    if key in s.ledger then Step(s, SyncResult(key, op.table, op.id, s.ledger[key]))
    else
      var a := OperationEffect(s.tables, op, userId, role, now, freshId, parseDate, firstNote);
      Step(ServerState(a.tables, RecordFirst(s.ledger, key, a.verdict)), SyncResult(key, op.table, op.id, a.verdict))
  }

  /** A step records its answer under its key, and keeps every answer the ledger held. */
  lemma StepRecords(s: ServerState, op: Operation, userId: string, role: Role, now: string, freshId: string,
                    parseDate: string -> Option<int>, firstNote: WorkOrderNote.RowOrder)
    ensures var step := ResolveStep(s, op, userId, role, now, freshId, parseDate, firstNote);
      var key := ToOpKey(op, userId, role);
      && key in step.server.ledger
      && step.result == SyncResult(key, op.table, op.id, step.server.ledger[key])
      && step.server.ledger.Keys == s.ledger.Keys + {key}
      && (forall k :: k in s.ledger ==> step.server.ledger[k] == s.ledger[k])
      && (key in s.ledger ==> step.server == s)
  {
  }

  /** `resolveWithDedupe`: a key the ledger knows is answered from the ledger without
      touching anything; otherwise the operation is applied and its answer recorded. */
  method ResolveWithDedupe(db: WorkOrderDatabase, op: Operation, userId: string, role: Role, now: string, freshId: string,
                           parseDate: string -> Option<int>, firstNote: WorkOrderNote.RowOrder)
    returns (r: SyncResult<OpKey>)
    requires db.Valid() && WorkOrderNote.IsRowOrder(firstNote)
    modifies db
    ensures db.Valid()
    ensures db.conflicts.Keys <= old(db.conflicts).Keys + {freshId}
    ensures forall k :: k in old(db.conflicts) && k != freshId ==> k in db.conflicts && db.conflicts[k] == old(db.conflicts)[k]
    ensures var key := ToOpKey(op, userId, role);
      && (key in old(db.ledger) ==> r == SyncResult(key, op.table, op.id, old(db.ledger)[key]) && unchanged(db))
      && key in db.ledger && r == SyncResult(key, op.table, op.id, db.ledger[key])
      && db.ledger.Keys == old(db.ledger).Keys + {key}
    ensures forall k :: k in old(db.ledger) ==> k in db.ledger && db.ledger[k] == old(db.ledger)[k]
    ensures Step(ServerState(db.Snapshot(), db.ledger), r)
         == ResolveStep(ServerState(old(db.Snapshot()), old(db.ledger)), op, userId, role, now, freshId, parseDate, firstNote)
  {
    var key := ToOpKey(op, userId, role);
    if key in db.ledger {
      return SyncResult(key, op.table, op.id, db.ledger[key]);
    }
    var resolved := ApplyOperation(db, op, userId, role, now, freshId, parseDate, firstNote);
    db.ledger := RecordFirst(db.ledger, key, resolved);
    r := SyncResult(key, op.table, op.id, resolved);
  }

  /** The ledger keys of a batch. */
  function BatchKeys(ops: seq<Operation>, userId: string, role: Role): set<OpKey> {
    set i | 0 <= i < |ops| :: ToOpKey(ops[i], userId, role)
  }

  lemma BatchKeysSnoc(ops: seq<Operation>, i: nat, userId: string, role: Role)
    requires i < |ops|
    ensures ToOpKey(ops[i], userId, role) in BatchKeys(ops, userId, role)
    ensures BatchKeys(ops[..i + 1], userId, role) == BatchKeys(ops[..i], userId, role) + {ToOpKey(ops[i], userId, role)}
  {
    forall k | k in BatchKeys(ops[..i + 1], userId, role)
      ensures k in BatchKeys(ops[..i], userId, role) + {ToOpKey(ops[i], userId, role)}
    {
      var j :| 0 <= j < i + 1 && k == ToOpKey(ops[..i + 1][j], userId, role);
      if j < i {
        assert ops[..i + 1][j] == ops[..i][j];
      }
    }
    forall k | k in BatchKeys(ops[..i], userId, role)
      ensures k in BatchKeys(ops[..i + 1], userId, role)
    {
      var j :| 0 <= j < i && k == ToOpKey(ops[..i][j], userId, role);
      assert ops[..i][j] == ops[..i + 1][j];
    }
  }

  /** Each answer is the one the ledger holds for its operation. */
  ghost predicate Reports(results: seq<SyncResult<OpKey>>, ops: seq<Operation>, userId: string, role: Role,
                          ledger: map<OpKey, Verdict>) {
    |results| == |ops|
    && forall j :: 0 <= j < |ops| ==>
      ToOpKey(ops[j], userId, role) in ledger
      && results[j] == SyncResult(ToOpKey(ops[j], userId, role), ops[j].table, ops[j].id, ledger[ToOpKey(ops[j], userId, role)])
  }

  /** The answers stay true in a ledger that keeps every answer, and one more answer may be
      added for one more operation. */
  lemma ReportsSnoc(results: seq<SyncResult<OpKey>>, ops: seq<Operation>, i: nat, userId: string, role: Role,
                    ledger: map<OpKey, Verdict>, ledger': map<OpKey, Verdict>, r: SyncResult<OpKey>)
    requires i < |ops| && Reports(results, ops[..i], userId, role, ledger)
    requires forall k :: k in ledger ==> k in ledger' && ledger'[k] == ledger[k]
    requires ToOpKey(ops[i], userId, role) in ledger'
    requires r == SyncResult(ToOpKey(ops[i], userId, role), ops[i].table, ops[i].id, ledger'[ToOpKey(ops[i], userId, role)])
    ensures Reports(results + [r], ops[..i + 1], userId, role, ledger')
  {
    var rs, os := results + [r], ops[..i + 1];
    forall j | 0 <= j < |os|
      ensures ToOpKey(os[j], userId, role) in ledger'
      ensures rs[j] == SyncResult(ToOpKey(os[j], userId, role), os[j].table, os[j].id, ledger'[ToOpKey(os[j], userId, role)])
    {
      if j < i {
        assert os[j] == ops[..i][j] && rs[j] == results[j];
      }
    }
  }

  /** Where a batch leaves the server, and its answers. */
  datatype Run = Run(server: ServerState, results: seq<SyncResult<OpKey>>)

  /** What `processWriteBatch` does from the server `s`: the operations in order, each
      resolved from where the one before left the server. */
  ghost function RunBatch(s: ServerState, ops: seq<Operation>, userId: string, role: Role, now: string, freshIds: seq<string>,
                          parseDate: string -> Option<int>, firstNote: WorkOrderNote.RowOrder): Run
    requires |freshIds| == |ops|
    decreases |ops|, 1
  {
    if ops == [] then Run(s, []) else RunLast(s, ops, userId, role, now, freshIds, parseDate, firstNote)
  }

  /** A non-empty batch: its last operation is resolved where the others left the server. */
  ghost function RunLast(s: ServerState, ops: seq<Operation>, userId: string, role: Role, now: string, freshIds: seq<string>,
                         parseDate: string -> Option<int>, firstNote: WorkOrderNote.RowOrder): Run
    requires |freshIds| == |ops| && ops != []
    decreases |ops|, 0
  {
    var n := |ops| - 1;
    var before := RunBatch(s, ops[..n], userId, role, now, freshIds[..n], parseDate, firstNote);
    var step := ResolveStep(before.server, ops[n], userId, role, now, freshIds[n], parseDate, firstNote);
    Run(step.server, before.results + [step.result])
  }

  /** A batch adds exactly its own keys to the ledger, and keeps every answer the ledger
      held. */
  lemma {:induction false} RunBatchKeys(s: ServerState, ops: seq<Operation>, userId: string, role: Role, now: string,
                                        freshIds: seq<string>, parseDate: string -> Option<int>, firstNote: WorkOrderNote.RowOrder)
    requires |freshIds| == |ops|
    ensures var run := RunBatch(s, ops, userId, role, now, freshIds, parseDate, firstNote);
      && run.server.ledger.Keys == s.ledger.Keys + BatchKeys(ops, userId, role)
      && (forall k :: k in s.ledger ==> run.server.ledger[k] == s.ledger[k])
    decreases |ops|
  {
    if ops == [] {
      assert BatchKeys(ops, userId, role) == {};
    } else {
      var n := |ops| - 1;
      var before := RunBatch(s, ops[..n], userId, role, now, freshIds[..n], parseDate, firstNote);
      RunBatchKeys(s, ops[..n], userId, role, now, freshIds[..n], parseDate, firstNote);
      StepRecords(before.server, ops[n], userId, role, now, freshIds[n], parseDate, firstNote);
      BatchKeysSnoc(ops, n, userId, role);
      assert ops[..n + 1] == ops;
    }
  }

  /** A batch records every answer it returns in the ledger, under its operation's key. */
  lemma {:induction false} RunBatchReports(s: ServerState, ops: seq<Operation>, userId: string, role: Role, now: string,
                                           freshIds: seq<string>, parseDate: string -> Option<int>, firstNote: WorkOrderNote.RowOrder)
    requires |freshIds| == |ops|
    ensures var run := RunBatch(s, ops, userId, role, now, freshIds, parseDate, firstNote);
      Reports(run.results, ops, userId, role, run.server.ledger)
    decreases |ops|
  {
    if ops != [] {
      var n := |ops| - 1;
      var before := RunBatch(s, ops[..n], userId, role, now, freshIds[..n], parseDate, firstNote);
      RunBatchReports(s, ops[..n], userId, role, now, freshIds[..n], parseDate, firstNote);
      StepRecords(before.server, ops[n], userId, role, now, freshIds[n], parseDate, firstNote);
      var step := ResolveStep(before.server, ops[n], userId, role, now, freshIds[n], parseDate, firstNote);
      ReportsSnoc(before.results, ops, n, userId, role, before.server.ledger, step.server.ledger, step.result);
      assert ops[..n + 1] == ops;
    }
  }

  /** A batch whose every key the ledger knows is answered from the ledger and changes
      nothing. */
  lemma {:induction false} RunBatchReplay(s: ServerState, ops: seq<Operation>, userId: string, role: Role, now: string,
                                          freshIds: seq<string>, parseDate: string -> Option<int>, firstNote: WorkOrderNote.RowOrder)
    requires |freshIds| == |ops|
    requires BatchKeys(ops, userId, role) <= s.ledger.Keys
    ensures var run := RunBatch(s, ops, userId, role, now, freshIds, parseDate, firstNote);
      run.server == s && Reports(run.results, ops, userId, role, s.ledger)
    decreases |ops|
  {
    if ops != [] {
      var n := |ops| - 1;
      BatchKeysSnoc(ops, n, userId, role);
      var before := RunBatch(s, ops[..n], userId, role, now, freshIds[..n], parseDate, firstNote);
      RunBatchReplay(s, ops[..n], userId, role, now, freshIds[..n], parseDate, firstNote);
      var step := ResolveStep(before.server, ops[n], userId, role, now, freshIds[n], parseDate, firstNote);
      ReportsSnoc(before.results, ops, n, userId, role, s.ledger, s.ledger, step.result);
      assert ops[..n + 1] == ops;
    }
  }

  /** The same batch sent again, later and with other fresh ids, gets back exactly the
      answers of the first run and leaves the server where the first run left it. */
  lemma RunBatchTwice(s: ServerState, ops: seq<Operation>, userId: string, role: Role, now: string, later: string,
                      freshIds: seq<string>, retryIds: seq<string>, parseDate: string -> Option<int>, firstNote: WorkOrderNote.RowOrder)
    requires |freshIds| == |ops| && |retryIds| == |ops|
    ensures var first := RunBatch(s, ops, userId, role, now, freshIds, parseDate, firstNote);
      RunBatch(first.server, ops, userId, role, later, retryIds, parseDate, firstNote) == first
  {
    var first := RunBatch(s, ops, userId, role, now, freshIds, parseDate, firstNote);
    RunBatchKeys(s, ops, userId, role, now, freshIds, parseDate, firstNote);
    RunBatchReports(s, ops, userId, role, now, freshIds, parseDate, firstNote);
    RunBatchReplay(first.server, ops, userId, role, later, retryIds, parseDate, firstNote);
    var second := RunBatch(first.server, ops, userId, role, later, retryIds, parseDate, firstNote);
    assert second.results == first.results;
  }

  /** `processWriteBatch`: the operations in order, one answer each. `freshIds[i]` is the id
      the database generates for a conflict raised by `ops[i]`. */
  method ProcessWriteBatch(db: WorkOrderDatabase, ops: seq<Operation>, userId: string, role: Role, now: string,
                           freshIds: seq<string>, parseDate: string -> Option<int>, firstNote: WorkOrderNote.RowOrder)
    returns (results: seq<SyncResult<OpKey>>)
    requires db.Valid() && WorkOrderNote.IsRowOrder(firstNote)
    requires |freshIds| == |ops|
    requires forall i :: 0 <= i < |freshIds| ==> freshIds[i] !in db.conflicts
    modifies db
    ensures db.Valid()
    // conflict rows are only ever added
    ensures db.conflicts.Keys <= old(db.conflicts).Keys + IdsBefore(freshIds, |freshIds|)
    ensures forall k :: k in old(db.conflicts) ==> k in db.conflicts && db.conflicts[k] == old(db.conflicts)[k]
    // the ledger only grows, by this batch's keys, and never changes an answer it holds
    ensures forall k :: k in old(db.ledger) ==> k in db.ledger && db.ledger[k] == old(db.ledger)[k]
    ensures db.ledger.Keys == old(db.ledger).Keys + BatchKeys(ops, userId, role)
    // every answer is the one the ledger holds for its operation
    ensures Reports(results, ops, userId, role, db.ledger)
    // a batch the ledger has fully seen changes nothing
    ensures BatchKeys(ops, userId, role) <= old(db.ledger).Keys ==> unchanged(db)
    // the whole new server state and the answers, operation by operation
    ensures Run(ServerState(db.Snapshot(), db.ledger), results)
         == RunBatch(ServerState(old(db.Snapshot()), old(db.ledger)), ops, userId, role, now, freshIds, parseDate, firstNote)
  {
    results := [];
    ghost var start := ServerState(db.Snapshot(), db.ledger);
    var i := 0;
    while i < |ops|
      invariant 0 <= i <= |ops|
      invariant db.Valid()
      invariant db.conflicts.Keys <= old(db.conflicts).Keys + IdsBefore(freshIds, i)
      invariant forall k :: k in old(db.conflicts) ==> k in db.conflicts && db.conflicts[k] == old(db.conflicts)[k]
      invariant BatchKeys(ops, userId, role) <= old(db.ledger).Keys ==> unchanged(db)
      invariant RanTo(start, ops, i, userId, role, now, freshIds, parseDate, firstNote, ServerState(db.Snapshot(), db.ledger), results)
    {
      BatchKeysSnoc(ops, i, userId, role);
      var result := ResolveNext(db, ops, i, results, start, userId, role, now, freshIds, parseDate, firstNote);
      IdsBeforeSnoc(freshIds, i);
      results := results + [result];
      i := i + 1;
    }
    assert ops[..i] == ops && freshIds[..i] == freshIds;
    RunBatchKeys(start, ops, userId, role, now, freshIds, parseDate, firstNote);
    RunBatchReports(start, ops, userId, role, now, freshIds, parseDate, firstNote);
  }

  /** The first `i` operations of the batch, run from `start`, left the server at `server`
      and answered `results`. */
  ghost predicate RanTo(start: ServerState, ops: seq<Operation>, i: nat, userId: string, role: Role, now: string, freshIds: seq<string>,
                        parseDate: string -> Option<int>, firstNote: WorkOrderNote.RowOrder, server: ServerState, results: seq<SyncResult<OpKey>>)
  {
    i <= |ops| == |freshIds| && RunBatch(start, ops[..i], userId, role, now, freshIds[..i], parseDate, firstNote) == Run(server, results)
  }

  /** One round of the loop in `processWriteBatch`: resolves `ops[i]` once the operations
      before it have answered `results`. */
  method ResolveNext(db: WorkOrderDatabase, ops: seq<Operation>, i: nat, results: seq<SyncResult<OpKey>>, ghost start: ServerState,
                     userId: string, role: Role, now: string, freshIds: seq<string>, parseDate: string -> Option<int>, firstNote: WorkOrderNote.RowOrder)
    returns (r: SyncResult<OpKey>)
    requires db.Valid() && WorkOrderNote.IsRowOrder(firstNote)
    requires i < |ops| && |freshIds| == |ops|
    requires RanTo(start, ops, i, userId, role, now, freshIds, parseDate, firstNote, ServerState(db.Snapshot(), db.ledger), results)
    modifies db
    ensures db.Valid()
    ensures db.conflicts.Keys <= old(db.conflicts).Keys + {freshIds[i]}
    ensures forall k :: k in old(db.conflicts) && k != freshIds[i] ==> k in db.conflicts && db.conflicts[k] == old(db.conflicts)[k]
    ensures var key := ToOpKey(ops[i], userId, role);
      && (key in old(db.ledger) ==> unchanged(db))
      && key in db.ledger && r == SyncResult(key, ops[i].table, ops[i].id, db.ledger[key])
      && db.ledger.Keys == old(db.ledger).Keys + {key}
    ensures forall k :: k in old(db.ledger) ==> k in db.ledger && db.ledger[k] == old(db.ledger)[k]
    ensures RanTo(start, ops, i + 1, userId, role, now, freshIds, parseDate, firstNote, ServerState(db.Snapshot(), db.ledger), results + [r])
  {
    r := ResolveWithDedupe(db, ops[i], userId, role, now, freshIds[i], parseDate, firstNote);
    assert ops[..i + 1][..i] == ops[..i] && freshIds[..i + 1][..i] == freshIds[..i];
  }

  /** `uploadData`: the batch's answers in the `{success, error, results}` envelope; the
      appliers' errors are all caught, so the batch itself does not fail. */
  method UploadData(db: WorkOrderDatabase, ops: seq<Operation>, userId: string, role: Role, now: string,
                    freshIds: seq<string>, parseDate: string -> Option<int>, firstNote: WorkOrderNote.RowOrder)
    returns (e: Envelope<OpKey>)
    requires db.Valid() && WorkOrderNote.IsRowOrder(firstNote)
    requires |freshIds| == |ops|
    requires forall i :: 0 <= i < |freshIds| ==> freshIds[i] !in db.conflicts
    modifies db
    ensures db.Valid()
    ensures e.success && e.error == None && |e.results| == |ops|
    ensures forall i :: 0 <= i < |ops| ==>
      ToOpKey(ops[i], userId, role) in db.ledger && e.results[i].verdict == db.ledger[ToOpKey(ops[i], userId, role)]
    // the batch as ProcessWriteBatch runs it, wrapped
    ensures var run := RunBatch(ServerState(old(db.Snapshot()), old(db.ledger)), ops, userId, role, now, freshIds, parseDate, firstNote);
      ServerState(db.Snapshot(), db.ledger) == run.server && e == Wrap(Ok(run.results))
  {
    var results := ProcessWriteBatch(db, ops, userId, role, now, freshIds, parseDate, firstNote);
    e := Wrap(Ok(results));
  }

  /** A client that sends the same batch again gets back exactly the answers of the first
      run, `server_error` answers included, and nothing is applied twice. */
  method Retransmit(db: WorkOrderDatabase, ops: seq<Operation>, userId: string, role: Role, now: string, later: string,
                    freshIds: seq<string>, retryIds: seq<string>, parseDate: string -> Option<int>, firstNote: WorkOrderNote.RowOrder)
    returns (first: seq<SyncResult<OpKey>>, second: seq<SyncResult<OpKey>>)
    requires db.Valid() && WorkOrderNote.IsRowOrder(firstNote)
    requires |freshIds| == |ops| && |retryIds| == |ops|
    requires forall i :: 0 <= i < |ops| ==> freshIds[i] !in db.conflicts && retryIds[i] !in db.conflicts
    requires forall i, j :: 0 <= i < |ops| && 0 <= j < |ops| ==> freshIds[i] != retryIds[j]
    modifies db
    ensures second == first
  {
    ghost var before := db.conflicts.Keys;
    first := ProcessWriteBatch(db, ops, userId, role, now, freshIds, parseDate, firstNote);
    forall i | 0 <= i < |ops| ensures retryIds[i] !in db.conflicts {
      assert retryIds[i] !in before;
      assert retryIds[i] !in IdsBefore(freshIds, |freshIds|);
    }
    ghost var afterFirst := db.ledger;
    second := ProcessWriteBatch(db, ops, userId, role, later, retryIds, parseDate, firstNote);
    assert db.ledger == afterFirst;
  }
}
