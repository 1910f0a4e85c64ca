# Offline-first write reconciliation, modelled in Dafny

This project models the server-side core of two offline-first demo apps.

- **The ticket app.** Clients queue writes to tickets and their assignments, comments,
  attachment URLs, links and collaborative-description updates. A write batch is
  uploaded, and the server applies each operation exactly once through a ledger keyed
  by the operation. A stale ticket title opens a conflict record instead of overwriting
  the title. A conflict can later be resolved with the local, the server or a custom value.
- **The work-order app.** It has the same dedupe ledger and batch loop. Its key also
  carries the caller's role, and it has three appliers:
  - work orders: last-writer-wins on PUT, role-gated status changes on PATCH, and a
    phone conflict when a PATCH was made against an older copy of the row;
  - work-order notes: a line-set merge stored as a hex `bytea`;
  - part usage events: stock that never goes below zero, and idempotent replays.
- **The Yjs description bridge.** It has two versions: a class and the editor
  component that rewrites it as closures. It replays a ticket's stored updates in
  creation order, each update once. It stores every local edit as a new update row.
- **The client helpers.**
  - the conflict-value unwrappers of the ticket screen and of the conflict inbox;
  - the attachment-URL hash;
  - the `bytea` hex decoder of the work-order screen;
  - the base64url normalisation of the token signing secret and the token grant;
  - the sync activity feed;
  - the pause switch;
  - the demo users;
  - the visibility filters and orderings of the client's live queries.

How the Dafny is organised:

- **Databases are classes.** `TicketStore.TicketDatabase` and
  `WorkOrderStore.WorkOrderDatabase` each hold one `map` field per table, and the
  appliers are methods that modify exactly the tables they write.
- **Each applier's decision is a function.** `PlanTicketUpdate`, `PlanPatch` and
  `PlanUsage` compute it, and each method is proved to compute the same result.
- **Each applier's effect is a function.** `TicketEffect`, `AssignmentEffect`,
  `WorkOrderEffect`, `NoteEffect` and the others give the tables and the verdict (or
  the error thrown) of one operation. The dispatchers, `ResolveStep` (one deduplicated
  operation) and `RunBatch` (a batch, stopping at the first throw) are built from them,
  and every method is proved to leave exactly the state its function describes.
- **Inputs from outside are parameters.** These are the clock (`now`), fresh UUIDs,
  MD5, `JSON.parse`, `Date.parse` and the Yjs document operations.
- **The shared text helpers are their own modules.** These are `Js` (JavaScript
  `trim`, `split`, `join`, decimal and UTF-16 code units), `Utf8`, `Hex`, `Base64` and
  `Ordering` (a stable sort and a filter). Their round trips are proved there.

### Behaviour of the code worth knowing

- No applier increments a row's `version`. Every write keeps the version it read
  (`ApplyUpdates`, `ApplyWoUpdates`).
- A work-order operation that throws is caught and answered as `rejected/server_error`.
  That answer is recorded in the ledger like any other, so retransmitting the
  operation returns the recorded error.
- In both bridges, a remote update that fails to apply is not marked as seen. A later
  replay tries it again (`FailedRowRetried`).
- A ticket title conflict is inserted before the status is validated. A PATCH that
  changes the title and sends an invalid status is rejected, but the conflict it
  opened stays.
- The caller's role is an explicit input: `Role` is `Tech` or `Manager`.
- A ticket PUT on a soft-deleted row goes through the update path. It does not clear
  `deleted_at`.
- `TextDecoder` drops a leading U+FEFF. A note whose text starts with that character
  is shown without it (`WorkOrderDetail.ByteaTextOfHexBytea`). A merged note never
  starts with it, because merging trims every line (`WorkOrderDetail.ShowsMergedNote`).

## Model

| member | source | states |
|---|---|---|
| SyncCore.RecordFirst | src/data/server/write-batch.ts:648-660 | the ledger gains the key; an outcome it already holds is kept |
| SyncCore.FirstWriteWins | src/data/server/write-batch.ts:648-660 | recording a second outcome under a recorded key changes nothing (ON CONFLICT DO NOTHING) |
| SyncCore.Wrap | src/slices/sync-engine/mutation.upload.server.ts:6-25 | the upload envelope: success iff the batch returned; then its results and no error; else no results and the thrown message, or a non-empty default when the message is empty |
| TicketStore.SoftDelete | src/data/server/write-batch.ts:62-80 | a soft delete keeps every key, marks only the named row and leaves the others as they were |
| TicketStore.SoftDeleteKeepsUnique | src/data/server/write-batch.ts:292-305 | soft-deleting keeps the natural-key uniqueness of a child table |
| TicketStore.UpsertMerge | src/data/server/write-batch.ts:321-328 | an upsert whose natural key is taken revives and updates that row, keeping the key unique |
| TicketStore.UpsertInsert | src/data/server/write-batch.ts:321-328 | an upsert with a fresh id and a free natural key inserts the row, keeping the key unique |
| TicketWriteBatch.AsText | src/data/server/write-batch.ts:22-25 | null or undefined reads as ""; a string reads as itself |
| TicketWriteBatch.NormalizeStatus | src/data/server/write-batch.ts:27-33 | the result is always a valid ticket status; a missing value gives none |
| TicketWriteBatch.NormalizeStatusKeeps | src/data/server/write-batch.ts:27-33 | a valid status is kept as it is |
| TicketWriteBatch.PlanStages | src/data/server/write-batch.ts:150-208 | the title check runs whatever the status is; without a status the plan is exactly the text updates |
| TicketWriteBatch.TicketVerdict | src/data/server/write-batch.ts:248-284 | needs_review iff a title conflict was raised and nothing was rejected, with the conflict's id; merged iff the move out of `done` was blocked; applied iff some field was written |
| TicketWriteBatch.ApplyUpdates | src/data/server/write-batch.ts:209-221 | writing the updates never changes version, timestamps or deletion, and leaves every untouched field as it was |
| TicketWriteBatch.ApplyUpdatesSnoc | src/data/server/write-batch.ts:209-221 | the fields are written in order, one update at a time |
| TicketWriteBatch.PlanUpdates | src/data/server/write-batch.ts:187-208 | the written fields are the text updates, then the normalised status unless the status was blocked |
| TicketWriteBatch.PlanOutcome | src/data/server/write-batch.ts:150-237 | after an accepted PATCH: the title is unchanged, the description is the sent one when one was sent, and the status is the normalised one unless blocked |
| TicketWriteBatch.TextOutcome | src/data/server/write-batch.ts:187-189 | the text updates set the description only |
| TicketWriteBatch.DoneWins | src/data/server/write-batch.ts:191-208 | a `done` ticket stays `done` after any accepted update |
| TicketWriteBatch.TitleConflictIff | src/data/server/write-batch.ts:150-185 | a conflict is raised iff the trimmed title is non-empty and differs from the stored one; it carries that title, and the title is not written |
| TicketWriteBatch.ConflictLeavesTitle | src/data/server/write-batch.ts:150-185 | a conflicting title is never written to the ticket |
| TicketWriteBatch.FieldActivities | src/data/server/write-batch.ts:223-235 | one `ticket_field_updated` activity per written field |
| TicketWriteBatch.LogFieldUpdates | src/data/server/write-batch.ts:223-235 | the loop appends exactly those activities, in order |
| TicketWriteBatch.CheckFields | src/data/server/write-batch.ts:150-208 | the checking code computes the same plan as the specification function |
| TicketWriteBatch.WritePlan | src/data/server/write-batch.ts:150-284 | writes the conflict, the ticket row and the activities the plan calls for, and answers its verdict |
| TicketWriteBatch.ApplyTicket | src/data/server/write-batch.ts:55-285 | the tables and verdict are those of the ticket applier: DELETE soft-deletes and logs; a missing id goes to the create branch; an existing id goes to the update branch; at most the one fresh conflict is added |
| TicketWriteBatch.CreateTicket | src/data/server/write-batch.ts:81-137 | on a missing id, a PATCH is `ticket_not_found` and a PUT with a blank trimmed title is `missing_title`, with nothing written; otherwise the ticket is inserted with the trimmed title, the description, the normalised status (default `pending`), version 0, and one `ticket_created` activity |
| TicketWriteBatch.UpdateTicket | src/data/server/write-batch.ts:139-285 | on an existing id, the checked plan decides the conflict row, the written fields, the activities and the verdict |
| TicketWriteBatch.ApplyAssignment | src/data/server/write-batch.ts:287-344 | DELETE soft-deletes; a blank ticket or user is rejected with nothing written; otherwise an upsert on (ticket, user) that revives the row, or the primary-key error when the id is taken by another pair; uniqueness is kept |
| TicketWriteBatch.ApplyComment | src/data/server/write-batch.ts:346-402 | DELETE soft-deletes; a blank ticket or body is rejected; otherwise the comment is inserted, or revived with the new body, and logged |
| TicketWriteBatch.ApplyAttachmentUrl | src/data/server/write-batch.ts:404-472 | as for assignments, on (ticket, url hash), with the hash from the payload or MD5 of the URL |
| TicketWriteBatch.ApplyLink | src/data/server/write-batch.ts:474-530 | DELETE soft-deletes; a blank ticket or URL is rejected; otherwise the link is inserted, or revived with the new URL, and logged |
| TicketWriteBatch.ApplyDescriptionUpdate | src/data/server/write-batch.ts:532-578 | DELETE is rejected; a blank payload is rejected; a known id is a duplicate and writes nothing; otherwise the update is inserted once |
| TicketStore.UpsertRow | src/data/server/write-batch.ts:321-328 | an upsert on a natural key fails with the primary-key error iff the key is free and the id is taken; otherwise it merges into the row holding the key, or inserts; the key stays unique |
| TicketWriteBatch.ApplyChildOperation | src/data/server/write-batch.ts:580-616 | the tables and verdict are exactly those of the applier for the operation's table; an unknown table is rejected with nothing written; only the assignment and attachment appliers can throw, and then nothing was written |
| TicketWriteBatch.ApplyOperation | src/data/server/write-batch.ts:580-616 | the tables and verdict are exactly those of the ticket applier or of the child-table dispatch; it keeps the uniqueness invariant, adds at most the fresh conflict, and never changes an existing conflict |
| TicketWriteBatch.ResolveWithDedupe | src/data/server/write-batch.ts:618-663 | a key the ledger holds is answered from the ledger with nothing written; otherwise the operation's tables and verdict are applied and the verdict recorded under its key; a throw records nothing and writes nothing |
| TicketWriteBatch.StepRecords | src/data/server/write-batch.ts:618-663 | one step keeps every recorded outcome; a success reports the ledger's outcome for the key and adds only that key; a throw leaves the ledger; a recorded key changes nothing |
| TicketWriteBatch.BatchKeysSnoc | src/data/server/write-batch.ts:665-687 | the batch's keys grow by one operation at a time |
| TicketWriteBatch.ReportsSnoc | src/data/server/write-batch.ts:665-687 | each result reports the ledger's outcome for its operation, and later steps keep that true |
| TicketWriteBatch.ProcessWriteBatch | src/data/server/write-batch.ts:665-687 | the new tables, ledger and results are those of resolving the operations in order, stopping at the first throw: the ledger only grows, by the batch's keys, and never changes an outcome; each result is the ledger's outcome; conflicts are only added; a fully seen batch changes nothing |
| TicketWriteBatch.RunBatchAborts | src/data/server/write-batch.ts:665-687 | once an operation throws, the rest of the batch is not run |
| TicketWriteBatch.RunBatchKeys | src/data/server/write-batch.ts:665-687 | a batch keeps every recorded outcome and, when it succeeds, adds exactly its keys |
| TicketWriteBatch.RunBatchReports | src/data/server/write-batch.ts:665-687 | a successful batch answers, for each operation, the outcome the ledger then holds for its key |
| TicketWriteBatch.RunBatchReplay | src/data/server/write-batch.ts:618-687 | a batch whose keys are all recorded changes nothing and answers the recorded outcomes |
| TicketWriteBatch.RunBatchTwice | src/data/server/write-batch.ts:618-687 | running a successful batch again, at any later time and with any fresh ids, gives the same state and results |
| TicketWriteBatch.UploadData | src/server/powersync.ts:50-69 | the new state is the batch run's and the envelope wraps its result: on success one result per operation, each the ledger's outcome; on failure no results and an error message |
| TicketWriteBatch.Retransmit | src/data/server/write-batch.ts:618-687 | retransmitting a batch that succeeded answers exactly the same results |
| TicketConflicts.Unwrap | src/data/server/conflicts.ts:3-25 | null gives no value; a string gives itself |
| TicketConflicts.ParseConflictValue | src/data/server/conflicts.ts:3-25 | the stored value is missing iff it is null or wraps a null `value` (directly or as JSON text); unparseable text is taken as the value itself |
| TicketConflicts.ValueObjectRoundTrip | src/data/server/conflicts.ts:3-25 | a stored `{value}` document reads back as the value it wraps |
| TicketConflicts.FieldOf | src/data/server/conflicts.ts:67-70 | only title, description and status can be resolved, each naming its own column |
| TicketConflicts.FieldOfName | src/data/server/conflicts.ts:67-70 | each field's name maps back to that field |
| TicketConflicts.SetColumn | src/data/server/conflicts.ts:72-77 | the resolution writes exactly the named column |
| TicketConflicts.Resolve | src/data/server/conflicts.ts:27-107 | ok iff the conflict exists, is open and names a resolvable field; the two errors in order; the chosen value is local, server or custom |
| TicketConflicts.ResolveTicketConflict | src/data/server/conflicts.ts:27-107 | a failed check writes nothing; success writes the field, closes the conflict and logs one activity |
| TicketConflicts.ResolveConflict | src/server/powersync.ts:71-90 | resolves with no role check and records the session user as the resolver |
| TicketConflicts.ResolveOnce | src/data/server/conflicts.ts:27-107 | a resolved conflict cannot be resolved again |
| TicketConflicts.ResolvedValueReadsBack | src/data/server/conflicts.ts:79-87 | the stored resolved value reads back as the written value |
| TicketConflicts.EngineConflictChoices | src/data/server/conflicts.ts:27-107 | for an engine title conflict, "local" writes the incoming title and "server" restores the earlier one |
| SyncToken.MapChars | src/server/powersync.ts:8-14 | the character map preserves length and maps each position |
| SyncToken.PadEnd | src/server/powersync.ts:8-14 | padding keeps the prefix and fills with `=` up to the length |
| SyncToken.Base64UrlToBase64 | src/server/powersync.ts:8-14 | the result has the length rounded up to a multiple of 4; `-` and `_` map to `+` and `/`; the rest is `=` |
| SyncToken.NormalizesToBase64 | src/server/powersync.ts:8-14 | normalising an unpadded base64url encoding gives the standard base64 encoding |
| SyncToken.Base64UrlRoundTrip | src/server/powersync.ts:8-14 | the secret's bytes are recovered from their base64url encoding |
| SyncToken.Base64UrlToBase64Idempotent | src/server/powersync.ts:8-14 | normalising twice is normalising once |
| SyncToken.GetPowerSyncToken | src/server/powersync.ts:16-48 | ok iff kid, secret and audience are all set, else the missing-settings error; the token expires 15 minutes after now and carries the user, the audience and the role |
| SyncToken.TicketAppToken | src/server/powersync.ts:16-48 | the ticket app's token carries no role |
| SyncToken.WorkOrderAppToken | src/slices/sync-engine/query.token.server.ts:13-46 | the work-order app's token carries the session role |
| WorkOrderWrite.NullableText | src/slices/work-order/mutation.server.ts:222-261 | null or undefined gives SQL null; a string gives itself |
| WorkOrderWrite.CreatePriority | src/slices/work-order/mutation.server.ts:45-129 | the created priority is always valid: the sent one when valid, else `medium` |
| WorkOrderWrite.NewWorkOrder | src/slices/work-order/mutation.server.ts:45-129 | a created work order is open, at version 0, not deleted, with a valid priority |
| WorkOrderWrite.LastWriterWins | src/slices/work-order/mutation.server.ts:151-169 | a PUT overwrites only the title and priority, each defaulting to the stored one |
| WorkOrderWrite.PatchVerdict | src/slices/work-order/mutation.server.ts:273-300 | a rejection is answered as such; needs_review iff a phone conflict was raised; applied iff fields were written, with reason status_transition or lww_fields; never merged |
| WorkOrderWrite.ApplyWoUpdates | src/slices/work-order/mutation.server.ts:263-271 | writing fields never changes version, timestamps, deletion or assignee |
| WorkOrderWrite.ApplyWoUpdatesSnoc | src/slices/work-order/mutation.server.ts:263-271 | the fields are written in order |
| WorkOrderWrite.PatchUpdates | src/slices/work-order/mutation.server.ts:175-261 | the written fields are title/priority, status, then the phone unless it conflicted |
| WorkOrderWrite.ApplyKeyUpdate | src/slices/work-order/mutation.server.ts:175-186 | a sent key writes its field; an absent key writes nothing |
| WorkOrderWrite.ApplyTextUpdates | src/slices/work-order/mutation.server.ts:175-220 | the text and status updates set exactly the sent fields |
| WorkOrderWrite.PatchOutcome | src/slices/work-order/mutation.server.ts:175-271 | after an accepted PATCH, each sent field has the sent value, the phone unless it conflicted, and version and deletion are unchanged |
| WorkOrderWrite.WrittenFields | src/slices/work-order/mutation.server.ts:175-271 | the updates amount to the text fields plus the phone when written |
| WorkOrderWrite.TechKeepsStatus | src/slices/work-order/mutation.server.ts:188-220 | a technician's PATCH is rejected iff it sends a status, and never changes the status |
| WorkOrderWrite.PhoneConflictIff | src/slices/work-order/mutation.server.ts:222-261 | a phone conflict is raised iff the phone was sent, the copy is stale and the phone differs; the stored phone is then kept, otherwise the sent phone is written |
| WorkOrderWrite.CheckPatch | src/slices/work-order/mutation.server.ts:175-261 | the checking code computes the same plan as the specification function |
| WorkOrderWrite.WritePatch | src/slices/work-order/mutation.server.ts:222-300 | writes the phone conflict and the row the plan calls for, and answers its verdict |
| WorkOrderWrite.ApplyWorkOrder | src/slices/work-order/mutation.server.ts:9-301 | the tables and outcome are those of the work-order applier: a manager-only DELETE soft-deletes; a missing id is rejected unless a manager PUTs a non-blank title, which creates it; PUT is last-writer-wins; PATCH follows the plan; at most one conflict is added |
| WorkOrderWrite.WorkOrderThrows | src/slices/work-order/mutation.server.ts:9-301 | the applier throws iff a non-delete without payload reaches a read of it (an existing id, or a manager PUT), and then writes nothing; it never answers `server_error` itself |
| WorkOrderWrite.TechScope | src/slices/work-order/mutation.server.ts:9-60 | a technician's DELETE, or any operation of theirs on a missing id, writes nothing |
| WorkOrderNote.NormalizeByteaInput | src/slices/work-order-note/mutation.server.ts:9-15 | text without the `\x` prefix is kept as it is |
| WorkOrderNote.ToHexBytea | src/slices/work-order-note/mutation.server.ts:17-19 | the literal has the prefix and two hex digits per UTF-8 byte |
| WorkOrderNote.NormalizeToHexBytea | src/slices/work-order-note/mutation.server.ts:9-19 | decoding a hex literal gives back the text it encodes |
| WorkOrderNote.StoredTextRoundTrip | src/slices/work-order-note/mutation.server.ts:66-84 | the stored bytes read back as the merged text |
| WorkOrderNote.TrimAll | src/slices/work-order-note/mutation.server.ts:21-41 | each line is trimmed |
| WorkOrderNote.LinesAreLines | src/slices/work-order-note/mutation.server.ts:21-41 | every kept line is non-empty, trimmed and free of newlines |
| WorkOrderNote.Dedup | src/slices/work-order-note/mutation.server.ts:21-41 | deduplication keeps the same members and leaves no repeats |
| WorkOrderNote.MergeCrdtPayload | src/slices/work-order-note/mutation.server.ts:21-41 | the loop computes the specified merge |
| WorkOrderNote.MergedLinesShape | src/slices/work-order-note/mutation.server.ts:21-41 | the merged lines are distinct and well formed |
| WorkOrderNote.MergedMembers | src/slices/work-order-note/mutation.server.ts:21-41 | a line is merged iff it is a line of either side |
| WorkOrderNote.DedupAppend | src/slices/work-order-note/mutation.server.ts:21-41 | deduplicating a concatenation keeps the first side's order and adds the new lines of the second |
| WorkOrderNote.DedupOfDistinct | src/slices/work-order-note/mutation.server.ts:21-41 | deduplicating distinct lines changes nothing |
| WorkOrderNote.MergedOrder | src/slices/work-order-note/mutation.server.ts:21-41 | the server's lines come first, then the client's new lines, in their order |
| WorkOrderNote.LinesOfJoin | src/slices/work-order-note/mutation.server.ts:21-41 | joined well-formed lines split back into the same lines |
| WorkOrderNote.MergeIdempotent | src/slices/work-order-note/mutation.server.ts:21-41 | merging the same client text again changes nothing |
| WorkOrderNote.MergeWithEmpty | src/slices/work-order-note/mutation.server.ts:21-41 | merging an empty client text only normalises the server's lines |
| WorkOrderNote.ApplyWorkOrderNote | src/slices/work-order-note/mutation.server.ts:43-94 | for every order of the selected rows, the tables and outcome are those of the note applier: DELETE is rejected; a missing payload throws; otherwise the note is upserted with the merge of the existing text and the incoming one |
| WorkOrderNote.NoteOutcome | src/slices/work-order-note/mutation.server.ts:43-94 | a throw iff a non-delete has no payload, writing nothing; otherwise only the note row changes, belongs to the work order, reads back as the merge, and is answered merged iff there was existing text |
| WorkOrderNote.ExistingTextReads | src/slices/work-order-note/mutation.server.ts:60-72 | the existing text is the stored text of some note of the work order, or empty when it has none |
| PartUsage.QtyDelta | src/slices/part-usage-event/mutation.server.ts:29-38 | a missing delta is 0; a number is itself |
| PartUsage.UsageWrites | src/slices/part-usage-event/mutation.server.ts:9-85 | the tables change iff the event is applied: it is recorded once and only its part's stock moves by its delta |
| PartUsage.UsageKeepsStock | src/slices/part-usage-event/mutation.server.ts:55-64 | stock never goes below zero |
| PartUsage.UsageReplay | src/slices/part-usage-event/mutation.server.ts:40-53 | a replayed event is an idempotent duplicate and changes nothing |
| PartUsage.UsageUnderflow | src/slices/part-usage-event/mutation.server.ts:55-64 | an event that would take stock below zero is rejected |
| PartUsage.ApplyPartUsageEvent | src/slices/part-usage-event/mutation.server.ts:9-85 | the applier does what the plan says, and keeps stock non-negative |
| WorkOrderSync.ToOpKey | src/slices/sync-engine/reaction.process-write-batch.server.ts:13-23 | the key holds the operation, the payload (empty when absent), the user and the role |
| WorkOrderSync.RoleSeparatesKeys | src/slices/sync-engine/reaction.process-write-batch.server.ts:13-23 | the same operation from a technician and from a manager has different keys |
| WorkOrderSync.Caught | src/slices/sync-engine/reaction.process-write-batch.server.ts:25-65 | a thrown error becomes rejected/server_error; any other outcome passes through |
| WorkOrderSync.Catch | src/slices/sync-engine/reaction.process-write-batch.server.ts:25-65 | a caught applier effect keeps its tables and turns a throw into `rejected/server_error` |
| WorkOrderSync.ApplyOperation | src/slices/sync-engine/reaction.process-write-batch.server.ts:25-65 | the tables and verdict are exactly the caught effect of the applier for the operation's table; it touches only that table's rows; an unknown table is rejected; a missing payload that is read is a server error with nothing written |
| WorkOrderSync.WorkOrderCaught | src/slices/sync-engine/reaction.process-write-batch.server.ts:25-65 | the caught work-order effect: a server error iff the applier throws, and then nothing is written |
| WorkOrderSync.NoteCaught | src/slices/sync-engine/reaction.process-write-batch.server.ts:25-65 | the caught note effect: a server error iff a non-delete note has no payload, and then nothing is written |
| WorkOrderSync.PartUsageCaught | src/slices/sync-engine/reaction.process-write-batch.server.ts:25-65 | part usage errors become server errors, with nothing written |
| WorkOrderSync.ResolveWithDedupe | src/slices/sync-engine/reaction.process-write-batch.server.ts:67-112 | a recorded key is answered from the ledger with nothing written; otherwise the caught effect is applied and its verdict recorded under the key |
| WorkOrderSync.StepRecords | src/slices/sync-engine/reaction.process-write-batch.server.ts:67-112 | every step records its key and answers the ledger's verdict for it, keeping every earlier answer; a recorded key changes nothing |
| WorkOrderSync.BatchKeysSnoc | src/slices/sync-engine/reaction.process-write-batch.server.ts:114-137 | the batch's keys grow by one operation at a time |
| WorkOrderSync.ReportsSnoc | src/slices/sync-engine/reaction.process-write-batch.server.ts:114-137 | each answer stays the ledger's outcome for its operation |
| WorkOrderSync.ProcessWriteBatch | src/slices/sync-engine/reaction.process-write-batch.server.ts:114-137 | the new tables, ledger and results are those of resolving the operations in order: the ledger grows by exactly the batch's keys and never changes an answer; each answer is the ledger's; conflicts are only added; a fully seen batch changes nothing |
| WorkOrderSync.RunBatchKeys | src/slices/sync-engine/reaction.process-write-batch.server.ts:114-137 | a batch adds exactly its keys to the ledger and keeps every earlier answer |
| WorkOrderSync.RunBatchReports | src/slices/sync-engine/reaction.process-write-batch.server.ts:114-137 | a batch answers, for each operation, the verdict the ledger then holds for its key |
| WorkOrderSync.RunBatchReplay | src/slices/sync-engine/reaction.process-write-batch.server.ts:67-137 | a batch whose keys are all recorded changes nothing and answers the recorded verdicts |
| WorkOrderSync.RunBatchTwice | src/slices/sync-engine/reaction.process-write-batch.server.ts:67-137 | running a batch again, at any later time and with any fresh ids, gives the same state and results |
| WorkOrderSync.UploadData | src/slices/sync-engine/mutation.upload.server.ts:6-25 | errors are caught per operation, so the envelope always succeeds; the new state is the batch run's, with one ledger answer per operation |
| WorkOrderSync.Retransmit | src/slices/sync-engine/reaction.process-write-batch.server.ts:67-137 | retransmitting a batch answers exactly the same results |
| WorkOrderConflicts.MemberValue | src/slices/conflict-record/mutation.server.ts:3-64 | the `value` member of a stored document, none when missing or null |
| WorkOrderConflicts.Resolve | src/slices/conflict-record/mutation.server.ts:3-64 | ok iff the record exists and is open; the two errors in order; the chosen value |
| WorkOrderConflicts.ResolveConflictRecord | src/slices/conflict-record/mutation.server.ts:3-64 | a failed check writes nothing; success writes the phone of the record's work order and closes the record |
| WorkOrderConflicts.ResolveConflict | src/slices/sync-engine/mutation.upload.server.ts:27-50 | only a manager may resolve, and nothing is written otherwise; the session user is recorded as the resolver |
| WorkOrderConflicts.ResolveOnce | src/slices/conflict-record/mutation.server.ts:3-64 | a resolved record cannot be resolved again |
| WorkOrderConflicts.EngineConflictChoices | src/slices/conflict-record/mutation.server.ts:3-64 | for an engine phone conflict, "local" writes the sent phone and "server" restores the earlier one |
| WorkOrderConflicts.ResolvedValueReadsBack | src/slices/conflict-record/mutation.server.ts:3-64 | the stored resolved value reads back as the chosen value |
| DescriptionBridge.PendingShape | src/sync/ticket-description-yjs.ts:107-140 | the pending rows are exactly the ticket's rows with a payload, as a permutation sorted by creation time |
| DescriptionBridge.Step | src/sync/ticket-description-yjs.ts:107-140 | a seen row is skipped; a row becomes seen iff it applies; a failed row counts one error and changes nothing else |
| DescriptionBridge.ReplaySeen | src/sync/ticket-description-yjs.ts:107-140 | replay only adds ids of replayed rows, and errors only grow |
| DescriptionBridge.ReplayWithoutErrors | src/sync/ticket-description-yjs.ts:107-140 | a replay without errors marks every row seen |
| DescriptionBridge.ReplaySkipsSeen | src/sync/ticket-description-yjs.ts:107-140 | replaying seen rows changes nothing |
| DescriptionBridge.ReplayAgain | src/sync/ticket-description-yjs.ts:107-140 | replaying the same rows after a clean replay changes nothing |
| DescriptionBridge.FailedRowRetried | src/sync/ticket-description-yjs.ts:107-140 | a row that fails to apply stays unseen, so the next replay tries it again |
| DescriptionBridge.TicketDescriptionYjsBridge.constructor | src/sync/ticket-description-yjs.ts:53-61 | a new bridge is stopped, with nothing seen or stored |
| DescriptionBridge.TicketDescriptionYjsBridge.Start | src/sync/ticket-description-yjs.ts:63-86 | starting twice does nothing; a start opens an empty document |
| DescriptionBridge.TicketDescriptionYjsBridge.Stop | src/sync/ticket-description-yjs.ts:88-105 | stopping drops the document and the seen ids |
| DescriptionBridge.TicketDescriptionYjsBridge.ApplyRemoteUpdates | src/sync/ticket-description-yjs.ts:107-140 | the loop's new state is the replay of the pending rows |
| DescriptionBridge.TicketDescriptionYjsBridge.HandleLocalUpdate | src/sync/ticket-description-yjs.ts:154-169 | a remote-origin update is ignored; a local one is stored once, base64-encoded, under a seen id |
| DescriptionBridge.TicketDescriptionYjsBridge.SetTextFromTextarea | src/sync/ticket-description-yjs.ts:142-152 | an unchanged text does nothing; a change is one local edit whose update is stored |
| DescriptionBridge.EditThenRemote | src/sync/ticket-description-yjs.test.ts:9-76 | a local edit stores one update for the ticket; a remote row is shown and not stored again |
| DescriptionCrdt.TicketDescriptionCrdt.constructor | src/ui/ticket-description-crdt.tsx:39-55 | the component starts stopped, with empty text |
| DescriptionCrdt.TicketDescriptionCrdt.StartBridge | src/ui/ticket-description-crdt.tsx:103-123 | starting twice does nothing; a start records the ticket and opens an empty document |
| DescriptionCrdt.TicketDescriptionCrdt.StopBridge | src/ui/ticket-description-crdt.tsx:83-101 | stopping drops the ticket, the document and the seen ids |
| DescriptionCrdt.TicketDescriptionCrdt.TicketChanged | src/ui/ticket-description-crdt.tsx:170-185 | a ticket change restarts the bridge on the new ticket; no ticket leaves it stopped with empty text |
| DescriptionCrdt.TicketDescriptionCrdt.ApplyRemoteUpdates | src/ui/ticket-description-crdt.tsx:125-156 | nothing happens without a document or with an empty ticket id; otherwise the same replay as the class, with one error message per failed row |
| DescriptionCrdt.TicketDescriptionCrdt.HandleLocalUpdate | src/ui/ticket-description-crdt.tsx:57-81 | ignored for a remote origin or no active ticket; otherwise stored once under a seen id |
| DescriptionCrdt.TicketDescriptionCrdt.OnInput | src/ui/ticket-description-crdt.tsx:158-204 | the text takes the typed value; a change while started is one local edit, stored as one base64 row of the active ticket under a seen id, with one error message when it is not persisted |
| SyncActivity.Capped | src/lib/sync-activity.ts:21-24 | at most 120 entries, the leading ones |
| SyncActivity.SyncActivityFeed.constructor | src/lib/sync-activity.ts:15 | the feed starts empty |
| SyncActivity.SyncActivityFeed.AppendSyncActivities | src/lib/sync-activity.ts:21-24 | an empty batch changes nothing; otherwise the batch goes in front and the feed is cut to 120 |
| SyncActivity.NewestFirst | src/lib/sync-activity.ts:21-24 | the new items come first in their order, then the previous entries that fit |
| SyncActivity.OldestDropped | src/lib/sync-activity.ts:21-24 | an entry survives iff fewer than 120 entries are newer |
| SyncControl.SyncPauseSwitch.constructor | src/sync/control.ts:3 | syncing starts unpaused |
| SyncControl.SyncPauseSwitch.SetSyncPaused | src/sync/control.ts:9-12 | the flag reads back as set |
| SyncControl.SyncPauseSwitch.ToggleSyncPaused | src/sync/control.ts:14-16 | the flag is negated |
| DemoUsers.FindById | src/lib/demo-users.ts:26-32 | the first user with the id, none iff no user has it |
| DemoUsers.GetDemoUserName | src/lib/demo-users.ts:26-32 | a missing or empty id is "Unknown"; each demo id gives its name; the name is known iff a demo user has the id |
| DemoUsers.DefaultUserIsAlex | src/lib/demo-users.ts:24 | the default user is Alex |
| QueryFacts.OrderedQuery | src/data/client/queries.ts:15-43 | an ordered query is sorted by its key and is a permutation of its rows |
| QueryFacts.FilteredQuery | src/data/client/queries.ts:15-43 | a filtered ordered query is sorted and holds exactly the rows that pass |
| WorkOrderList.VisibleOrdersShape | src/slices/work-order-list/query.ts:16-40 | the visible orders are the live ones (all for a manager, the assigned ones for a technician), newest first |
| WorkOrderList.AutoSelectId | src/slices/work-order-list/query.ts:40 | none iff nothing is visible, else the first |
| WorkOrderList.AutoSelectedIsNewest | src/slices/work-order-list/query.ts:16-40 | the auto-selected order is live and the most recently updated |
| ClientQueries.VisibleTicketsShape | src/data/client/queries.ts:15-33 | the visible tickets are the live ones, newest first |
| ClientQueries.AutoSelectTicketId | src/data/client/queries.ts:35-37 | the id of the first visible ticket; none iff no ticket is live |
| ClientQueries.AutoSelectedTicketIsNewest | src/data/client/queries.ts:15-37 | the auto-selected ticket is live and no live ticket was updated after it |
| ClientQueries.ChildListShape | src/data/client/queries.ts:56-140 | a child list holds the ticket's live rows, newest first |
| ClientQueries.TicketActivitiesShape | src/data/client/queries.ts:142-160 | the ticket's activities, newest first |
| ClientQueries.OpenTicketConflictsShape | src/data/client/queries.ts:162-179 | the open conflicts, newest first |
| ClientQueries.TicketDescriptionUpdatesShape | src/data/client/queries.ts:181-197 | the ticket's description updates, oldest first, as a permutation |
| DemoScreen.ValueText | src/ui/demo-screen.tsx:30-49 | null shows as ""; a string as itself |
| DemoScreen.ParseConflictValue | src/ui/demo-screen.tsx:30-49 | null shows as ""; a `{value}` document, or JSON text of one, shows its value; other text shows as itself; anything else is stringified |
| DemoScreen.ShowsServerValue | src/ui/demo-screen.tsx:30-49 | the screen shows the value the server would resolve to, with null as "" |
| DemoScreen.ShowsStoredValue | src/ui/demo-screen.tsx:30-49 | a stored `{value}` document shows the value it wraps |
| DemoScreen.ToInt32 | src/ui/demo-screen.tsx:51-59 | `\| 0` lands in the 32-bit range and keeps values already in it |
| DemoScreen.ToInt32Periodic | src/ui/demo-screen.tsx:51-59 | `\| 0` ignores multiples of 2^32 |
| DemoScreen.Hash | src/ui/demo-screen.tsx:51-59 | the hash is a 32-bit signed integer |
| DemoScreen.HashIsWrappedPolynomial | src/ui/demo-screen.tsx:51-59 | the shift-and-subtract loop computes the base-31 polynomial of the code units, wrapped to 32 bits |
| DemoScreen.ShiftStep | src/ui/demo-screen.tsx:51-59 | `(h << 5) - h + c` is `31 * h + c` modulo 2^32 |
| DemoScreen.HashUrl | src/ui/demo-screen.tsx:51-59 | the loop computes the specified name |
| DemoScreen.DecimalLength | src/ui/demo-screen.tsx:51-59 | a number below 10^n has at most n digits |
| DemoScreen.HashNameShape | src/ui/demo-screen.tsx:51-59 | the name is `u` followed by 1 to 10 digits; the empty URL is `u0` |
| ConflictInbox.ParseConflictValue | src/slices/conflict-inbox/index.tsx:8-25 | a falsy value shows as ""; a `{value}` document shows its value; unparseable text shows as itself |
| ConflictInbox.AgreesWithTicketScreen | src/slices/conflict-inbox/index.tsx:8-25 | the inbox and the ticket screen differ exactly on `false` and `0` |
| ConflictInbox.ShowsStoredValue | src/slices/conflict-inbox/index.tsx:8-25 | a stored `{value}` document shows the value it wraps |
| WorkOrderDetail.Pairs | src/slices/work-order-detail/index.tsx:35-38 | one byte per pair of code units, read from that pair |
| WorkOrderDetail.DecodeByteaText | src/slices/work-order-detail/index.tsx:31-42 | the loop computes the specified decoding |
| WorkOrderDetail.FillPairs | src/slices/work-order-detail/index.tsx:35-38 | the array is filled with the byte of each pair |
| WorkOrderDetail.EncodeHexAt | src/slices/work-order-detail/index.tsx:35-38 | each byte sits at its two hex digits |
| WorkOrderDetail.PairBytesOfEncodeHex | src/slices/work-order-detail/index.tsx:35-38 | reading the pairs of a hex encoding gives back the bytes |
| WorkOrderDetail.StoreByte | src/slices/work-order-detail/index.tsx:37 | storing a byte into a `Uint8Array` keeps it |
| WorkOrderDetail.PairOfEncodeHex | src/slices/work-order-detail/index.tsx:37 | `parseInt(pair, 16)` of an encoded byte is that byte |
| WorkOrderDetail.ByteaTextOfHexBytea | src/slices/work-order-detail/index.tsx:31-42 | the screen shows the text the server stored, without a leading U+FEFF |
| WorkOrderDetail.ShowsMergedNote | src/slices/work-order-detail/index.tsx:31-42 | a merged note shows exactly as merged |
| Js.TrimStart | src/data/server/write-batch.ts:97 | the result has no leading whitespace |
| Js.TrimEnd | src/data/server/write-batch.ts:97 | the result has no trailing whitespace |
| Js.Trim | src/data/server/write-batch.ts:97 | the result is no longer and has whitespace at neither end |
| Js.TrimIdempotent | src/data/server/write-batch.ts:151 | trimming twice is trimming once |
| Js.TrimEmptyIff | src/data/server/write-batch.ts:97-107 | trimming gives "" iff the text is all whitespace |
| Js.Split | src/slices/work-order-note/mutation.server.ts:23 | at least one part, none holding the separator |
| Js.SplitJoin | src/slices/work-order-note/mutation.server.ts:21-41 | splitting a join of separator-free parts gives the parts back |
| Js.JoinSplit | src/slices/work-order-note/mutation.server.ts:21-41 | joining a split gives the text back |
| Js.NatToDecimal | src/ui/demo-screen.tsx:58 | a non-empty run of digits, one digit iff below 10 |
| Js.DecimalRoundTrip | src/ui/demo-screen.tsx:58 | the digits read back as the number |
| Js.CodeUnits | src/ui/demo-screen.tsx:55 | UTF-16 code units, at least one per character, each below 2^16 |
| Js.CodeUnitsOfBmp | src/slices/work-order-detail/index.tsx:35-38 | characters in the basic plane are one code unit each |
| Js.CodeUnitsAppend | src/ui/demo-screen.tsx:51-59 | the code units of a concatenation concatenate |
| Utf8.EncodeChar | src/slices/work-order-note/mutation.server.ts:17-19 | 1 to 4 bytes, one iff ASCII |
| Utf8.DecodeStepEncodeChar | src/slices/work-order-note/mutation.server.ts:12 | decoding an encoded character gives it back, consuming its bytes |
| Utf8.DecodeEncode | src/slices/work-order-note/mutation.server.ts:9-19 | decoding UTF-8 gives the encoded text back |
| Utf8.EncodeAppend | src/slices/work-order-note/mutation.server.ts:17-19 | the encoding of a concatenation concatenates |
| Utf8.EncodeAscii | src/slices/work-order-note/mutation.server.ts:17-19 | ASCII text encodes byte for byte |
| Utf8.EncodeBom | src/slices/work-order-detail/index.tsx:39 | the encoding starts with a byte-order mark iff the text starts with U+FEFF |
| Hex.Digit | src/slices/work-order-note/mutation.server.ts:18 | a lower-case hex digit |
| Hex.DigitValue | src/slices/work-order-note/mutation.server.ts:12 | a value below 16 iff the character is a hex digit of either case |
| Hex.EncodeHex | src/slices/work-order-note/mutation.server.ts:18 | two lower-case hex digits per byte |
| Hex.NodeHexDecode | src/slices/work-order-note/mutation.server.ts:12 | at most one byte per two characters |
| Hex.NodeHexDecodeEncode | src/slices/work-order-note/mutation.server.ts:9-19 | hex decoding gives the encoded bytes back |
| Hex.ParseIntHexOfPair | src/slices/work-order-detail/index.tsx:37 | `parseInt` of a byte's two hex digits is the byte |
| Ordering.CompareFlip | src/sync/ticket-description-yjs.ts:118 | comparison is antisymmetric and zero iff the texts are equal |
| Ordering.LeTransitive | src/sync/ticket-description-yjs.ts:118 | the order is transitive |
| Ordering.LeTotal | src/sync/ticket-description-yjs.ts:118 | the order is total |
| Ordering.InsertSorted | src/sync/ticket-description-yjs.ts:116-119 | inserting into a sorted list keeps it sorted and adds exactly the one row |
| Ordering.SortBySorted | src/sync/ticket-description-yjs.ts:116-119 | the sort is sorted and a permutation |
| Ordering.SortByStable | src/data/client/queries.ts:18 | the sort is stable: the rows with equal keys keep their order |
| Ordering.FilterMembers | src/data/client/queries.ts:31-33 | a row passes the filter iff it is a row that satisfies the predicate |
| Ordering.FilterSorted | src/data/client/queries.ts:31-33 | filtering keeps the order |
| Base64.Char | src/sync/ticket-description-yjs.ts:16-27 | a character of the base64 alphabet |
| Base64.Index | src/sync/ticket-description-yjs.ts:29-41 | defined iff the character is in the alphabet, and inverts `Char` |
| Base64.EncodeGroup | src/sync/ticket-description-yjs.ts:16-27 | a group of n bytes gives n + 1 alphabet characters |
| Base64.Encode | src/sync/ticket-description-yjs.ts:16-27 | the padded encoding's length is a multiple of 4 |
| Base64.DecodeGroup | src/sync/ticket-description-yjs.ts:29-41 | defined iff every character is in the alphabet, giving one byte fewer than characters |
| Base64.DecodeEncodeGroup | src/sync/ticket-description-yjs.ts:16-41 | a group decodes back to its bytes |
| Base64.DecodeUnpaddedEncode | src/sync/ticket-description-yjs.ts:16-41 | the unpadded encoding decodes back to its bytes |
| Base64.DecodeEncode | src/sync/ticket-description-yjs.ts:16-41 | a stored update's bytes are recovered from its base64 text |

## Left out

- SQL, the connection pool and transactions. Each table is a `map`, and one applier call
  is atomic. Concurrent batches and row locking are not modelled.
- Hashing. The SHA-1 operation key is the tuple it hashes, so the model treats SHA-1 as
  injective. MD5 of an attachment URL is an oracle parameter.
- JWT signing. The token holds its header fields, claims and key text, and is not signed.
- Yjs. A document is its text and its update log. Applying a remote update
  (`Apply`) and encoding a local edit (`EncodeEdit`) are parameters.
- `JSON.parse` and `Date.parse` are parameters. JSON numbers are integers.
  `JSON.stringify` key order is not modelled.
- `localeCompare` is modelled as code-point order (`Ordering.Compare`), and
  `orderBy` as a stable sort.
- The UI: JSX, signals, effects and event wiring other than the state each handler
  changes. Console logging. The PowerSync client connector, the TanStack DB
  collections and the session cookie are not part of this model; their results are
  inputs.
- Base64.Decode: it is a strict RFC 4648 (section 4) decoder. `Buffer.from(…, "base64")`
  and `atob` also accept unpadded or malformed text, which the model rejects. Only
  text produced by the encoder is decoded in the bridges.
- WorkOrderDetail.ByteaTextOfHexBytea: the `TextDecoder` drops a leading U+FEFF, so a
  note that starts with that character is shown without it. The merge never produces
  such a note.
- WorkOrderDetail.FillPairs: the byte read from each pair is a parameter. Its
  `parseInt` behaviour is proved separately (`PairOfEncodeHex`).
- The `restricted_reopen` check: a technician's PATCH that reopens a closed order is
  rejected as a restricted status transition before the reopen check is reached. With
  `Role` being `Tech | Manager`, the separate `restricted_reopen` branch cannot be
  reached.
- TicketWriteBatch.ProcessWriteBatch: the fresh conflict ids are given as inputs that
  no existing conflict uses. This stands in for `crypto.randomUUID`.
- WorkOrderConflicts.AsColumn: an object or array value chosen for the phone is bound as
  `String(value)`. node-postgres would bind an object as JSON text and an array as a
  Postgres array literal. JSON key order is not modelled, so these are not distinguished.
- The note applier reads the first row of a `SELECT` without `ORDER BY`, so which of a
  work order's notes it reads is not determined. The row order is an input (`WorkOrderNote.RowOrder`), and every contract
  holds for any order that picks a note of the work order when one exists.
- WorkOrderSync.ProcessWriteBatch: the fresh conflict ids are given as inputs that no
  existing conflict uses. This stands in for `crypto.randomUUID`.
- DescriptionCrdt.TicketDescriptionCrdt.HandleLocalUpdate: the wait for persistence is
  modelled as an already-known `persisted` flag. The order of a late `onError` against
  later edits is not modelled.
- DescriptionBridge.TicketDescriptionYjsBridge.HandleLocalUpdate: the wait for
  persistence is modelled as an already-known `persisted` flag.
