# WORM: what the log preprocessor promises, proved on a model

WORM accepts raw log bytes, commits them, decodes and normalizes them, and delivers the result. What it
is for is that nothing accepted is lost or counted twice, whatever crashes, restarts, replays and
configuration changes happen in between. This project models the code that carries that promise and
proves it, or proves exactly when it holds.

`dafny verify dfyconfig.toml` checks everything.

## The parts

**Parser-pack transactions** (`PackDisk`, `PackManager`, `PackRuns`, `PackUndo`,
`PackSession`, `PackGaps`). Apply, Remove, Rollback
and RollbackPack change four pieces of disk state, one write at a time. `SnapshotManager` performs those
writes in the source's order; an oracle decides for every write whether it works, fails, takes effect and
still reports an error, or is where the process dies. `Settled(d)` is the directory a complete recovery
leaves. It is the refinement map: each operation is proved atomic on settled directories, the history of
each pack is proved to be a stack of its earlier states, and sessions run operations one after the other on
whatever directory the last one left. Loading a pack and the digest are functions of
the file's bytes about which nothing is assumed.

**Pipeline and raw store** (`PipelineStore`, `PipelineRun`, `PipelineSafety`, `PipelineTheorems`,
`PipelineGaps`). A state
machine over the raw, normalized and quarantine tables, the counters, the channel and any number of
goroutines. Every SQL transaction and every counter update is a step of its own, and a crash may come
between any two. Decoding is any function of the payload.

**Outbox, sink and shutdown** (`Outbox`, `HttpSink`, `SubmitStop`). The delivery queue, the buffered HTTP
sink and the submit/stop protocol, each as labelled steps of any number of threads, with history variables
for what was stored, sent and reported.

**Ingestion** (`Framing`, `FileSpool`). The RFC 6587 framing loop over a reader that may cut the stream into
any pieces, and the spool directory with its line, offset and acknowledgement loop, late commits, failed
renames, cancellations and crashes.

**Decoding and normalization** (`StructuredData`, `KeyValue`, `Leef`, `LeefPrint`, `LeefCount`,
`LeefTwice`, `LeefShort`, `JsonDepth`, `EventTree`,
`Normalize`). Byte loops proved against specification functions, and those against a printer. The OCSF
event is a heap of maps that point to each other, changed in place; what stands at each path after an
assignment is stated for every path.

`Text` and `Wrappers` hold shared helpers. A string is the sequence of its bytes.

## What the code does not keep

Each of these is proved, with the exact condition under which the promise does hold.

- An abort taken after the commit record is on disk and interrupted is refused all the same. If it failed at
  its first write, the directory stands for the state after the operation. Later it has the old file beside
  the new undo record: for Apply, Remove and RollbackPack (internal/packs/manager.go:286-291, 349-354) that is
  harmless exactly when the operation did not change the file (`PackGaps.TornChangeIff`); for Rollback
  (internal/packs/manager.go:576-578) a manifest must not have been taken away either
  (`PackGaps.TornRollbackIff`). The ghost field `torn` marks these runs.
- A zero-length manifest or undo file is removed instead of restored, and nothing else is lost
  (`PackManager.PendingSettles`, `PackGaps.PendingKeepsIff`). The manager itself never writes one.
- RollbackPack reads the manifest before it settles an interrupted transaction. On every directory the
  manager can leave, a RollbackPack that is not refused keeps manifest and files in agreement exactly when
  the manifest file is right about every other pack (`PackSession.RollbackPackIff`); a run from an empty
  directory in which it is not ends in disagreement (`PackGaps.StaleRun`).
- For the same reason a RollbackPack after an interrupted one can undo two changes at once. One that is not
  refused undoes the last change to its pack exactly when the newest revision in the manifest file is the
  newest one of the pack as it stands (`PackSession.PopIff`), and leaves another pack alone exactly when the
  manifest file says of it what the settled manifest says (`PackSession.OtherIff`); `PackGaps.EarlyUndoRun`
  is a run from an empty directory in which one call deletes a pack it should have put back to version 1.
- The accounting equation fails by one whenever an undecodable input is processed again, after a restart or
  as a duplicate file record, while its quarantine row is there and its parent still waits; it then fails
  until the next restart (`PipelineGaps.RepeatBreaks`, `AccountingFails`). In all other runs it holds
  (`PipelineTheorems.LossAccountingHolds`).
- Replaying a child is too early exactly when a sibling has no row yet, or a worker is about to write a
  status the replay has made wrong (`PipelineGaps.HastyIff`, `HastyReplayExample`).
- A batch without children ends with a row exactly when it was not being recovered or already had one;
  otherwise it ends as normalized with no row at all (`PipelineGaps.EmptyBatch`).
- Stop while Start is still sending recovered records makes that send panic (`SubmitStop.StopDuringStart`,
  `PanicRun`); without that, nothing panics (`SubmitStop.NoPanic`).
- RFC 5424 allows a backslash in an SD-NAME; the splitter reads it as an escape. The split is right exactly
  when the last element has parameters or an SD-ID that does not end in an odd number of backslashes
  (`StructuredData.SplitPrintedIff`).
- A LEEF 2.0 header without a delimiter field passes the attributes through the header's unescaping as well.
  The event comes back exactly when no key or value holds a bar and every backslash stands before a byte it
  does not change (`LeefShort.ShortRoundTripIff`).
- Two map entries of a pack that share a target make the event depend on Go's map iteration order, exactly
  when their values differ (`Normalize.OrderIndependence`).

## Model

| member | source | states |
|---|---|---|
| PackManager.RestoreCurrent | internal/packs/manager.go:148-160 | restoring the record taken of a file undoes any change to that file and nothing else |
| PackManager.PendingSettles | internal/packs/manager.go:186-194 | as long as the pending record is on disk, whatever was done to the target file, undo record and manifest, the directory stands for the state before the operation, zero-length documents removed |
| PackManager.UndoStepSettles | internal/packs/manager.go:187-193 | each single step of undoing a pending transaction keeps what the directory stands for |
| PackManager.SnapshotManager.Write | internal/packs/manager.go:137-146 | one atomic replacement: the new directory if the write works or fails late, else the old one; counts commit records |
| PackManager.SnapshotManager.RecoverTransactions | internal/packs/manager.go:163-199 | however it ends, the directory stands for the same state; when it reports success the directory is that state; without faults it succeeds exactly on a readable record |
| PackManager.SnapshotManager.Abort | internal/packs/manager.go:471-485 | a completed abort restores file, undo record and manifest; before the commit record even an interrupted one keeps the meaning |
| PackManager.SnapshotManager.BeginFileTransaction | internal/packs/manager.go:364-401 | settles the directory, refuses bad names and unmet expectations, and returns a record of the file, undo record and manifest as they are |
| PackManager.SnapshotManager.Stage | internal/packs/manager.go:265-271 | writing the pending record and changing the file: whatever happens, the directory still stands for the state before |
| PackManager.SnapshotManager.Conclude | internal/packs/manager.go:272-297 | an invalid pack set or manifest is aborted with nothing changed; otherwise the commit, all or nothing |
| PackManager.SnapshotManager.CommitAndPublish | internal/packs/manager.go:280-292 | from a staged file: the directory ends before or after the operation, the latter exactly when one commit record reached the disk |
| PackManager.SnapshotManager.Apply | internal/packs/manager.go:249-298 | crash atomicity: with any faults the settled directory is the one before (a zero-length document may be gone) or exactly ApplySpec's; it is ApplySpec's if and only if the commit record was written and not taken back by a completed abort; without faults the result is ApplySpec's, refusals included; the active snapshot changes only on success |
| PackManager.SnapshotManager.ApplyTo | internal/packs/manager.go:265-297 | the same for the part after the directory was settled |
| PackManager.SnapshotManager.Remove | internal/packs/manager.go:305-362 | the same against RemoveSpec |
| PackManager.SnapshotManager.RollbackWithRecord | internal/packs/manager.go:526-584 | the same against RestoreSpec of the undo record or the given record; a refused pack set leaves the directory as it was |
| PackManager.SnapshotManager.RestoreFrom | internal/packs/manager.go:542-583 | the restoring part on a settled directory: atomic against RestoreSpec; with a failing commit record and a failing abort it leaves exactly the staged directory |
| PackManager.SnapshotManager.ConcludeRollback | internal/packs/manager.go:558-583 | put the manifest back, validate, commit: before or after, nothing in between |
| PackManager.SnapshotManager.Rollback | internal/packs/manager.go:488-492 | atomic against RollbackSpec |
| PackManager.SnapshotManager.RollbackPack | internal/packs/manager.go:494-520 | atomic against RollbackPackSpec of the manifest file as it was read |
| PackRuns.ApplyManifest | internal/packs/manager.go:405-445 | the manifest after Apply: the earlier state of the pack is pushed and the entry names the new file, version and digest |
| PackRuns.RemoveManifest | internal/packs/manager.go:447-469 | the manifest after Remove: the earlier state is pushed and the entry is gone |
| PackRuns.ChangeKeeps | internal/packs/manager.go:405-469 | any change to one pack's file and entry keeps the agreement of all entries with all files, and the new undo record restores an agreeing state |
| PackRuns.ApplyKeeps | internal/packs/manager.go:249-298 | Apply keeps the invariant |
| PackRuns.RemoveKeeps | internal/packs/manager.go:305-362 | Remove keeps the invariant |
| PackRuns.RollbackKeeps | internal/packs/manager.go:526-584 | Rollback keeps the invariant |
| PackRuns.RollbackPackKeeps | internal/packs/manager.go:494-520 | RollbackPack keeps the invariant |
| PackRuns.StepKeeps | internal/packs/manager.go:249-584 | every operation, successful or not, keeps: each manifest entry names an existing file with that digest and pack name, each file's stem is its pack name |
| PackUndo.UndoRedo | internal/packs/manager.go:565-577 | a rollback is allowed exactly when the earlier pack set loads; it restores file and manifest, and a second one restores the changed directory whole, undo record included |
| PackUndo.ChangeThenRollback | internal/packs/manager.go:281-344 | undo and redo of every successful Apply and Remove |
| PackUndo.PushedView | internal/packs/manager.go:427-437 | what Apply and Remove push is the pack's earlier state: popping it gives that state back |
| PackUndo.PoppedView | internal/packs/manager.go:501-519 | RollbackPack leaves exactly the popped state of its pack |
| PackUndo.StepView | internal/packs/manager.go:405-520 | every operation but Rollback leaves a pack's state alone, pushes it, or pops it |
| PackUndo.RunKeeps | internal/packs/manager.go:249-584 | whole-run manifest agreement over every sequence of operations |
| PackUndo.RunMoves | internal/packs/manager.go:405-520 | a run without Rollback only pushes a pack's earlier states, under safe file names, and pops them |
| PackUndo.PackUndone | internal/packs/manager.go:494-520 | popping the surplus revisions of a pack gives the pack as it was at the start, whatever happened to other packs |
| PackUndo.PackCanUndo | internal/packs/manager.go:501-520 | while a pack has more revisions than at the start, RollbackPack of it is not refused on the settled directory |
| PackSession.Restart | internal/packs/manager.go:163-199 | any number of interrupted recoveries and then a complete one leave the settled directory |
| PackSession.Execute | internal/packs/manager.go:249-520 | every operation, on a settled directory or not, is atomic, and says where the manifest file it leaves comes from |
| PackSession.RollbackPackIff | internal/packs/manager.go:494-520 | RollbackPack keeps the agreement of manifest and files if and only if the manifest file it reads is right about every other pack |
| PackSession.PopIff | internal/packs/manager.go:497-519 | on any directory the manager can leave, RollbackPack undoes the last change to its pack if and only if the newest revision in the manifest file restores what the settled newest one does, below the same older ones |
| PackSession.OtherIff | internal/packs/manager.go:497-519 | RollbackPack of another pack leaves a pack alone if and only if the manifest file says of it what the settled manifest says |
| PackSession.EntryKeeps | internal/packs/manager.go:249-584 | however an operation ends, it leaves a directory in order; RollbackPack under its condition |
| PackSession.TraceKeeps | internal/packs/manager.go:163-584 | whole-session manifest agreement, at the end and on the way, as long as no RollbackPack took effect on a manifest that was wrong about another pack |
| PackSession.Session | internal/packs/manager.go:163-584 | after any list of operations with any faults, with or without recoveries in between and unless an abort was torn: what is left behind is a trace of these operations, and the manifest agrees with the files under the condition of TraceKeeps |
| PackSession.TraceTrack | internal/packs/manager.go:163-584 | the settled states of a session only move by pushes and pops of a pack, as long as every RollbackPack that took effect found what the settled manifest says of it |
| PackSession.UndoOne | internal/packs/manager.go:494-520 | one RollbackPack with working writes on a directory a session left, interrupted or not, whose manifest file has the settled history of the pack and is right about the others: done, and the last change undone |
| PackSession.UndoLast | internal/packs/manager.go:494-520 | k RollbackPack calls with working writes on the directory a session left are all done and undo the last k changes of the pack, under the conditions of UndoOne and TraceTrack; as many as the session made give the pack back as it was before the session |
| PackGaps.PendingKeepsIff | internal/packs/manager.go:107-125 | writing the pending record keeps the meaning of the directory if and only if neither document is a zero-length file |
| PackGaps.TornAbort | internal/packs/manager.go:471-485 | what an abort after the commit record that stops at any step leaves, for any record, and exactly when it is the state before or after |
| PackGaps.TornChangeIff | internal/packs/manager.go:286-291 | for Apply, Remove and RollbackPack it is one of the two if and only if the abort failed at once or the file was not changed |
| PackGaps.NextManifestDiffers | internal/packs/manager.go:405-469 | Apply and Remove always write another manifest, and so does RollbackPack on the settled manifest |
| PackGaps.TornRollbackIff | internal/packs/manager.go:572-578 | for Rollback if and only if it failed at once, or the file was not changed and a manifest was not taken away |
| PackGaps.StaleRun | internal/packs/manager.go:494-584 | a run of the methods from an empty directory, no abort torn, after which the manifest disagrees with the files |
| PackGaps.EarlyUndoRun | internal/packs/manager.go:494-584 | a run of the methods from an empty directory, no abort torn, in which one successful RollbackPack undoes two changes |
| PipelineStore.CompletedPlusMissing | internal/rawstore/store.go:712-718 | the number of rows of an input is the number of its children that have one |
| PipelineStore.AddNormRows | internal/rawstore/store.go:690-707 | storing an event for a child without a row adds exactly one row and keeps one row per child |
| PipelineStore.AddQuarRows | internal/pipeline/pipeline.go:658-670 | the quarantine upsert adds one row, or none if the same row is there |
| PipelineStore.ResolveRows | internal/rawstore/store.go:630-664 | a replay moves one child from quarantine to normalized: no child gains or loses its row |
| PipelineSafety.LoadNewKeeps | internal/rawstore/store.go:189-264 | committing new bytes keeps the invariant |
| PipelineSafety.LoadDuplicateKeeps | internal/pipeline/pipeline.go:332-336 | a duplicate file record, finalised or still to be recovered, keeps the invariant |
| PipelineSafety.LoadFailKeeps | internal/pipeline/pipeline.go:325-331 | a refused raw commit keeps the invariant |
| PipelineSafety.ExpandOk | internal/pipeline/pipeline.go:380-395 | batch expansion makes the input's share of pending exactly the children without a row, also when some were completed before a crash |
| PipelineSafety.DecodeKeeps | internal/pipeline/pipeline.go:348-414 | decoding, batch expansion, the decode-failure and empty-batch paths keep the invariant |
| PipelineSafety.CheckKeeps | internal/pipeline/pipeline.go:424-434 | skipping completed children on recovery keeps the invariant |
| PipelineSafety.NormalizeKeeps | internal/pipeline/pipeline.go:578-619 | committing an event for a child keeps the invariant |
| PipelineSafety.QuarantineKeeps | internal/pipeline/pipeline.go:658-670 | committing a quarantine row for a child keeps the invariant |
| PipelineSafety.EndLoopKeeps | internal/pipeline/pipeline.go:622-637 | the derived status is only decided for a complete parent |
| PipelineSafety.FinishKeeps | internal/pipeline/pipeline.go:638-640 | writing the parent status, or failing to, keeps the invariant |
| PipelineSafety.ReplayKeeps | internal/pipeline/pipeline.go:696-772 | a replay in any state keeps the invariant |
| PipelineSafety.ResolveFinal | internal/rawstore/store.go:630-664 | the replay transaction leaves its parent right if and only if every child has its row |
| PipelineSafety.RestartKeeps | internal/pipeline/pipeline.go:132-173 | a crash at any point and the counters rebuilt from the tables keep the invariant |
| PipelineSafety.StepKeeps | internal/pipeline/pipeline.go:309-641 | every step of every goroutine, replay and restart keeps the invariant: one row per child, complete finalised parents, both counter equations |
| PipelineTheorems.RunInv | internal/pipeline/pipeline.go:132-641 | the invariant in every reachable state |
| PipelineTheorems.RowsForAtMostOne | internal/rawstore/store.go:728-734 | under the invariant a child's row count is 0 or 1, and 1 exactly when it has an outcome |
| PipelineTheorems.ExactlyOneOutcome | internal/pipeline/pipeline.go:380-641 | over every run: at most one row per (raw ID, ordinal); a finalised parent that was not replayed too early has exactly one for each child and the status derived from the counts |
| PipelineTheorems.LossAccounting | internal/pipeline/pipeline.go:803-810 | in every reachable state with no goroutine between a commit and its counter update, accepted = normalized + quarantined + pending if and only if no undecodable input was counted again; with all work done, pending is exactly what was given up |
| PipelineTheorems.StepNoRepeat | internal/pipeline/pipeline.go:349-372 | only a recovery of an undecodable input whose row is already there breaks the equation |
| PipelineTheorems.LossAccountingHolds | internal/model/model.go:137-145 | VerifyInvariant holds in every quiet state of every run without such a recovery: batches, duplicates, refused commits, replays, restarts with partly completed batches |
| PipelineGaps.AccountingFails | internal/pipeline/pipeline.go:349-372 | a reachable quiet state in which the equation fails |
| PipelineGaps.RepeatBreaks | internal/pipeline/pipeline.go:349-372 | after a step in which an undecodable input is processed again, and its counter update, the equation fails in every quiet state up to the next restart |
| PipelineGaps.HastyIff | internal/pipeline/pipeline.go:696-772 | a replay is too early if and only if it, or the status write of a worker about to finish, leaves a parent with a missing child or a wrong status |
| PipelineGaps.HastyReplayExample | internal/pipeline/pipeline.go:696-772 | a run in which a replay finalises a parent with a child that has no row |
| PipelineGaps.EmptyBatch | internal/pipeline/pipeline.go:382-414 | every batch without children ends with a row, and quarantined, if and only if it was not being recovered or had the row already; else as normalized without a row |
| Outbox.StoreAllKeeps | internal/rawstore/store.go:701-705 | the destination loop leaves one row per destination and changes no status and no delivered row |
| Outbox.FetchKeeps | internal/outbox/outbox.go:79-129 | a fetched batch consists of pending rows that stay pending until they are handled |
| Outbox.HandleKeeps | internal/pipeline/pipeline.go:677-691 | each way of handling an entry keeps the invariant |
| Outbox.StepKeeps | internal/outbox/outbox.go:132-157 | every step keeps the invariant; rows are never removed and a delivered row never changes |
| Outbox.RunGrows | internal/outbox/outbox.go:132-157 | over every run rows keep their event and destination, delivered rows stay as they are |
| Outbox.Delivery | internal/pipeline/pipeline.go:672-692 | each stored event has exactly one row per destination it was stored for; delivered only after EmitTo succeeded for it; never terminally failed; never reverted |
| Outbox.NoOtherRows | internal/rawstore/store.go:690-706 | rows exist only for stored pairs |
| Outbox.DeliveredMeansAll | internal/outbox/outbox.go:171-179 | the GROUP BY query finds exactly the events all of whose rows are delivered |
| Outbox.CountsPartition | internal/outbox/outbox.go:171-201 | distinct delivered + distinct pending + distinct failed = distinct events |
| HttpSink.EnqueueKeeps | internal/output/http.go:93-115 | Emit keeps the log |
| HttpSink.LockKeeps | internal/output/http.go:118-130 | taking the batch moves it from the buffer to the flight, nothing lost |
| HttpSink.RespondKeeps | internal/output/http.go:132-143 | an answered batch becomes sent, a failed one goes back in front of the buffer in order |
| HttpSink.StepKeeps | internal/output/http.go:78-143 | every interleaving step keeps sent ++ in-flight ++ buffer = accepted |
| HttpSink.AcknowledgedMeansSent | internal/output/dynamic.go:21-36 | over every run the accepted events are in order those sent, in flight and buffered, and an event EmitTo reported as delivered has its ID in the sent part |
| HttpSink.SentOnlyGrows | internal/output/http.go:118-143 | what was sent or accepted is only ever extended |
| SubmitStop.StepKeeps | internal/pipeline/pipeline.go:167-286 | every step of submitters, workers, Start and Stop keeps the invariant: wait-group counts match the threads, every sent record is in the channel, being processed or processed |
| SubmitStop.RunInv | internal/pipeline/pipeline.go:167-286 | that invariant in every reachable state |
| SubmitStop.NoPanic | internal/pipeline/pipeline.go:177-279 | nothing is sent on the closed channel and it is closed once, unless Stop overtook Start |
| SubmitStop.StopDrains | internal/pipeline/pipeline.go:265-279 | when Stop has returned no worker runs, and unless a send panicked every record sent or reported as accepted is processed |
| SubmitStop.StopDuringStart | internal/pipeline/pipeline.go:167-172 | a Stop that closes the channel while Start still sends makes the send panic |
| SubmitStop.PanicRun | internal/pipeline/pipeline.go:157-279 | such a run from the start, for any capacity of the channel |
| Framing.Reader.ReadSlice | internal/ingest/syslog.go:319-319 | the buffered reader: the delimiter, a full buffer or the end, for any buffer fill |
| Framing.Reader.ReadBoundedFrame | internal/ingest/syslog.go:316-328 | the frame is a function of the stream alone, whatever pieces the reader returns |
| Framing.Reader.ReadCounted | internal/ingest/syslog.go:241-270 | one octet-counted message, or the connection is given up |
| Framing.Reader.ReadLine | internal/ingest/syslog.go:272-308 | one newline-framed message |
| Framing.Reader.HandleConn | internal/ingest/syslog.go:228-310 | the loop emits exactly Decode of the stream |
| Framing.RoundTrip | internal/ingest/syslog.go:221-310 | any mix of octet-counted and newline-framed messages decodes to the same list, and what follows is decoded as if alone |
| Framing.RoundTripAll | internal/ingest/syslog.go:221-310 | a stream of any such messages decodes to exactly those messages |
| Framing.UnterminatedLine | internal/ingest/syslog.go:291-308 | a last line without its newline is delivered |
| Framing.DecodedBounded | internal/ingest/syslog.go:248-288 | no emitted message is empty or over 10 MiB, for any input |
| FileSpool.LinesIncrease | internal/ingest/file.go:201-210 | the offsets of a file's lines strictly increase |
| FileSpool.LinesPrinted | internal/ingest/file.go:201-262 | for any texts with LF or CRLF, the last possibly unterminated, the records are the non-empty texts at their byte offsets |
| FileSpool.Spool.Store | internal/rawstore/store.go:189-253 | a record already stored under its (file ID, offset) is a duplicate, and no unchanged file can meet the different-bytes refusal |
| FileSpool.Spool.Send | internal/ingest/file.go:240-256 | an acknowledged record is stored; a cancelled one may be stored later or never |
| FileSpool.Spool.IngestFile | internal/ingest/file.go:137-262 | success means every record of the file is stored |
| FileSpool.Spool.Move | internal/ingest/file.go:117-126 | a rename that works moves the one file; one that fails moves nothing |
| FileSpool.Spool.IngestWhole | internal/ingest/file.go:156-192 | CSV, JSON and XML files are one record at offset 0; an empty file none |
| FileSpool.Spool.IngestLines | internal/ingest/file.go:194-262 | success means every line is stored; undisturbed, it succeeds exactly when every line fits the buffer |
| FileSpool.Spool.ProcessFile | internal/ingest/file.go:117-126 | processed/ on success, failed/ on an error, unmoved on cancellation or a failed rename |
| FileSpool.Spool.ScanProcessing | internal/ingest/file.go:101-115 | an undisturbed restart finishes every file left in processing/ |
| FileSpool.Spool.ScanInbox | internal/ingest/file.go:73-99 | undisturbed, every file found ends in processed/ or failed/ |
| FileSpool.Spool.Session | internal/ingest/file.go:59-126 | over any run of scans, cancellations, late commits and crashes: the rows of a file are among its records, each once; for a file in processed/ they are exactly its records |
| FileSpool.AtMostOnce | internal/rawstore/store.go:199-218 | each (file ID, offset) is stored at most once |
| FileSpool.ExactlyOnce | internal/ingest/file.go:117-126 | a file whose records are all stored has exactly one row per record |
| StructuredData.SplitStructuredData | internal/decode/syslog.go:225-261 | the two loops compute SplitSpec |
| StructuredData.SplitIsPrefix | internal/decode/syslog.go:225-261 | on any input: the input unchanged, a failure, or a prefix that ends an element and the trimmed rest |
| StructuredData.OneElement | internal/decode/syslog.go:229-250 | a printed element is closed by its own last bracket, whatever its values hold, unless it has no parameters and its SD-ID ends in an odd number of backslashes |
| StructuredData.SplitPrintedIff | internal/decode/syslog.go:225-261 | one or more printed elements, backslashes in names allowed, and any message not starting with a bracket give exactly the elements and the trimmed message if and only if the last element does not hide its bracket |
| StructuredData.SplitPrinted | internal/decode/syslog.go:225-261 | without a backslash in the last SD-ID they always do |
| StructuredData.BackslashInName | internal/decode/syslog.go:233-240 | the element `[a\]` is never closed |
| KeyValue.ScanQuoted | internal/decode/syslog.go:299-321 | the quoted-value loop computes ReadQuoted |
| KeyValue.ParseKeyValueTokens | internal/decode/syslog.go:280-337 | the scanner computes Parse, which ends on every input |
| KeyValue.ParseStep | internal/decode/syslog.go:282-335 | every turn makes progress |
| KeyValue.BarePrinted | internal/decode/syslog.go:326-334 | a bare value ends at the next space or the end of the input |
| KeyValue.SkipPrinted | internal/decode/syslog.go:290-295 | a word without a key in front of an '=' is skipped whole |
| KeyValue.RoundTrip | internal/decode/syslog.go:280-337 | any mix of quoted values with any bytes and either quote, bare values and other words, with any gaps, parses back to exactly the fields |
| KeyValue.DistinctFields | internal/decode/syslog.go:325-333 | with distinct keys the fields are exactly the pairs |
| KeyValue.OpenQuote | internal/decode/syslog.go:322-324 | a quoted value that is never closed is an error naming its key, after any tokens |
| KeyValue.KeysClean | internal/decode/syslog.go:286-296 | on any input every key is non-empty and holds no space and no '=' |
| Leef.SplitHeader | internal/decode/leef.go:125-172 | the header loop computes HeaderFrom |
| Leef.SplitWithEscapes | internal/decode/leef.go:257-295 | the token loop computes TokensFrom |
| Leef.UnescapeValue | internal/decode/leef.go:297-343 | the unescape loop and its shortcut compute Unescape |
| Leef.ParseAttributes | internal/decode/leef.go:213-255 | the attribute loop collects the values of each key |
| Leef.Decode | internal/decode/leef.go:41-120 | the decoder computes DecodeSpec, refusals and the merge of the attributes over the header fields included |
| LeefPrint.FieldsPrinted | internal/decode/leef.go:125-172 | printed header fields come back, five for 1.0, six for 2.0 |
| LeefPrint.TokensPrinted | internal/decode/leef.go:257-295 | printed pairs are split at their delimiters only |
| LeefPrint.UnescapeEscape | internal/decode/leef.go:297-343 | any value comes back from its escaped form, control characters written raw or with letters |
| LeefPrint.SpecPrinted | internal/decode/leef.go:174-209 | the delimiter comes back from every way of naming it: default, literal, hexadecimal with any prefix |
| LeefPrint.CollectedValues | internal/decode/leef.go:240-250 | repeated keys keep all their values in order, and there are no other keys |
| LeefPrint.AttributesPrinted | internal/decode/leef.go:213-255 | attribute round trip for every delimiter but t, n, r, backslash and '=' |
| LeefPrint.RoundTrip | internal/decode/leef.go:41-120 | a printed LEEF 1.0 or 2.0 event decodes to its header fields and attributes; only the two size limits refuse it |
| LeefCount.AttrsWeigh | internal/decode/leef.go:213-343 | whatever the delimiter, a text never gives attributes with more bytes than itself |
| LeefTwice.ReadTwice | internal/decode/leef.go:257-343 | the second reading of a value is the value only if every backslash stands before a byte it does not change |
| LeefShort.ShortHeader | internal/decode/leef.go:125-169 | a 2.0 header without a delimiter field hands on the unescaped attributes, or less than them if a key or value holds a bar |
| LeefShort.ImageAttrs | internal/decode/leef.go:213-343 | from the unescaped text the attributes come back if and only if every value survives the second reading |
| LeefShort.ShortRoundTripIff | internal/decode/leef.go:41-172 | an event of the short form within the size limits comes back if and only if no key or value holds a bar and every value survives |
| LeefShort.ShortLosesBackslash | internal/decode/leef.go:130-169 | in every short-form event the value backslash-t comes back as a tab |
| JsonDepth.ValidateJSONDepth | internal/decode/json.go:164-196 | the one-pass loop computes Scan |
| JsonDepth.ScanTree | internal/decode/json.go:164-196 | from any depth, a printed tree brings the scanner back to that depth or over the limit, exactly by its nesting depth |
| JsonDepth.DepthScan | internal/decode/json.go:164-196 | the printed form of a JSON tree, strings with quotes, backslashes and brackets included, is accepted if and only if its depth is at most 32, and the counter ends where it began |
| EventTree.SplitParts | internal/normalize/normalizer.go:141-141 | the parts hold no dot and give the path back |
| EventTree.Tree.MakeDir | internal/normalize/normalizer.go:146-157 | a new map at a key, nothing else changed at any path |
| EventTree.Tree.PutLeaf | internal/normalize/normalizer.go:159-159 | a value at a key, what stood below it gone, nothing else changed |
| EventTree.Tree.Descend | internal/normalize/normalizer.go:143-158 | one turn of the walk: the map at the key, made anew where a value stood |
| EventTree.Tree.SetNested | internal/normalize/normalizer.go:140-160 | for every path q: the value at the path itself, maps on the way to it, nothing below it, and everything else as before; the maps stay a tree |
| EventTree.Tree.Walk | internal/packs/pack.go:293-320 | the part-by-part walk finds what stands at the path |
| EventTree.Tree.LookupNested | internal/packs/pack.go:285-321 | the whole path as one key first, then what stands at the split path |
| EventTree.Tree.SetTop | internal/normalize/normalizer.go:65-73 | a top-level assignment, at every path |
| Normalize.PrefixFree | internal/ocsf/schema.go:8-11 | no target of the schema is a proper prefix of another |
| Normalize.MapFields | internal/normalize/normalizer.go:50-60 | the map loop builds Build of its order, at every path |
| Normalize.Normalize | internal/normalize/normalizer.go:49-76 | the finished event, at every path |
| Normalize.Enrich | internal/normalize/normalizer.go:164-277 | each taxonomy default is set exactly where its key is absent |
| Normalize.BuildExplained | internal/normalize/normalizer.go:50-60 | what stands at a path is explained by the set of mapped sources, not their order |
| Normalize.OrderIndependence | internal/normalize/normalizer.go:50-60 | for a validated map every iteration order gives the same event if and only if sources that share a target have the same value |
| Normalize.MappedKept | internal/normalize/normalizer.go:62-76 | time, unmapped and taxonomy never overwrite a mapped value |
| Normalize.FinishTime | internal/normalize/normalizer.go:62-69 | the receive time stands exactly when no time was mapped |
| Normalize.FinishSame | internal/normalize/normalizer.go:62-76 | the defaults keep order independence |
| Normalize.MappedFound | internal/packs/pack.go:285-321 | looking up a mapped target in the finished event gives the mapped value |
| Normalize.TablesAgree | internal/ocsf/schema.go:13-15 | the taxonomy defaults of the normalizer are those of the schema table, for every source category |
| Normalize.DefaultsPassTaxonomy | internal/ocsf/schema.go:18-27 | an event that maps neither category nor class passes the taxonomy check exactly when its source category is known |

## Left out

- PackManager.SnapshotManager.Apply: atomicity excludes runs with an abort interrupted after the commit record; PackGaps.TornChangeIff says exactly when those fail.
- PackManager.SnapshotManager.Remove: the same exclusion as Apply.
- PackManager.SnapshotManager.Conclude: the same exclusion as Apply.
- PackManager.SnapshotManager.CommitAndPublish: the same exclusion as Apply.
- PackManager.SnapshotManager.RollbackWithRecord: excludes aborts interrupted after the commit record, where PackGaps.TornRollbackIff is exact, and the rollback from memory.
- PackManager.SnapshotManager.RestoreFrom: the same exclusion as RollbackWithRecord.
- PackManager.SnapshotManager.ConcludeRollback: the same exclusion as RollbackWithRecord.
- PackManager.SnapshotManager.Rollback: the same exclusions as RollbackWithRecord.
- PackManager.SnapshotManager.RollbackPack: specified on the manifest file as read before recovery, because that is what the code reads; PackSession.RollbackPackIff and PackSession.PopIff say when that is right.
- PackManager.SnapshotManager.ApplyTo: the same exclusion as Apply.
- PackSession.Session: excludes torn aborts and RollbackPack calls outside their condition, both shown to fail.
- PackSession.UndoLast: for sessions without Rollback, which swaps whole manifests, in which the pack's history does not fall below where it began and no RollbackPack read too early; PackGaps.EarlyUndoRun shows the failure. Every settled directory meets the condition on the manifest file.
- PackSession.UndoOne: the same conditions as UndoLast.
- PackUndo.PackUndone: for states in which the pack's history does not fall below where it began, and without Rollback.
- PipelineTheorems.ExactlyOneOutcome: excludes parents replayed too early, exactly those of PipelineGaps.HastyIff.
- PipelineTheorems.LossAccountingHolds: excludes a second processing of an undecodable input whose row is there; PipelineGaps.RepeatBreaks shows that it fails then.
- SubmitStop.NoPanic: excludes a Stop that overtakes Start; a second Stop call returns at once and is only modelled as such.
- Framing.Reader.ReadCounted: a length prefix padded with white space outside ASCII is refused here.
- Leef.Decode: white space outside ASCII is not trimmed.
- EventTree.Tree.LookupNested: lists and maps with other key types inside a mapped value are not looked into.
- EventTree.Tree.Walk: lists and maps with other key types inside a mapped value (internal/packs/pack.go:304-315) are not looked into.
- FileSpool.Spool.IngestLines: a read error other than the end of the file is not modelled; it would end the scan like a refused commit.
- EventTree.Tree.SetNested: a mapped value is opaque, also when it is itself a map or a list; by PrefixFree no mapped value is ever looked into.
- Text.TrimSpace: strings are bytes, and it knows the ASCII white space only.
- The rollback from memory when no undo record exists (internal/packs/manager.go:586-607): the durable path replaces it once there is one.
- Symlink checks, path cleaning, file modes and signature checks: the pack directory is a map from names to bytes.
- YAML, JSON, XML, CSV and SQL libraries, SHA-256: functions of their input, or the effect on the tables. Equal digests stand for equal bytes in the file spool.
- The pipeline assumes one worker at a time per raw ID and fresh event IDs, and models the durable-sink mode only.
- ConnectIngest, retry back-off and context deadlines: a cancelled wait is a step that may happen at any time.
- DynamicSink.Replace: closing the old sinks is modelled, the swap of the map is not.
- Source identifier, event ID, history and envelope of a normalized event: no property beyond their construction.
- Kafka and cloud pollers, Parquet, RetrySink, MultiSink, connection manager: weaker forms of the properties above.
- CEF, RFC 3164, CLF, timestamps and type casting: decided by regular expressions and library parsers.
- HTTP handlers, command line, web UI, simulator: presentation.
