# ScrivaDB engine: model and proofs

ScrivaDB is an append-only log database written in Go. This project models the hard core of its
`engine/` package in Dafny and proves what that core promises: what survives a crash, what
compaction and recovery may change, what a committed transaction has seen, what a follower
converges to, and that indexes and pages return what a full scan returns.

Everything rests on one definition. The meaning of a log is a left fold over its lines
(`Log.Fold`), where a line stamped by a transaction counts only if the decision table holds its
COMMIT. Records do not interact (`Log.FoldPerId`), so every transformation of a log is judged by
what it does to each record's history.

`dafny verify dfyconfig.toml` checks the whole project. The parts:

- `Values`, `Log`, `Lines`: documents, lines, the fold, and bytes split into lines.
- `Commit`, `CommitFiles`, `CommitInvariant`, `CommitRecovery`, `CommitSafety`, `CommitReissue`,
  `CommitProgress`: the cross-collection commit as a step system, with a crash possible between any
  two steps, inside recovery too.
- `Compaction`, `CompactionSwap`, `CompactionProgress`, `CompactionResult`: what a pass writes, the
  manifest-guarded swap of files, and both together.
- `Journal`, `TxIdText` (in `Journal.dfy`), `JournalDecisions`: the coordinator journal in bytes, its
  class, and the decisions it stands for.
- `IndexRecovery`, `StaleIndex`, `Scan`, `SecondaryIndex`, `Query`, `Pagination`: index recovery at open,
  scans, the secondary index class, comparisons, and keyset pages over a bounded heap.
- `Handles`, `HandleRuns`: optimistic transaction handles against direct writers.
- `Replication`, `Broker` (in `Broker.dfy`), `BrokerRuns`, `Follower`, `FollowerRuns`: the leader's
  ring and subscribers, and a follower.
- `Scanner`, `Repair`, `Batch`, `Encryption`: the tolerant scanner and torn-tail recovery, segment
  reordering, the single-collection batch commit, and sealing at the read and write boundary.

Classes keep the engine's in-place form (`CompactionSwap.Directory`, `IndexRecovery.Index`,
`SecondaryIndex.Index`, `Pagination.TopK`, `Journal.XTxJournal`, `Handles.XTx`,
`Broker.ReplicationBroker`, `Follower.Replica`, `Batch.Collection`); each method is proved against
a function on values, and the run theorems are about those functions. The commit protocol and
recovery, which span many objects and the disk, are a step system on values.

What the model takes as given:

- JSON, checksums and ciphers are parameters that invert; digests are collision-free. Numbers are
  represented by their rank, since the engine only compares and prints them.
- A file has a current content and the set of contents it had since its last sync; a crash leaves
  any of them. A failed append leaves less than the whole line.
- A directory is what was synced plus the operations since; a crash keeps any subset of those, each
  one whole. The swap runs start where the temp files of a pass are durable; what a crash can do before
  the first directory sync makes them so is `CompactionSwap.UnsyncedTempsExactlyWhen`.
- Sections under one lock are single steps. Clocks, random spot checks, and the success of each
  write, sync and cut are parameters.

## Model

| member | source | states |
|---|---|---|
| `Log.FoldPerId` | engine/index.go:514-562 | replaying a log acts on each record alone: its row is the fold of the visible entries that touch it |
| `Log.SameHistoriesSameMeaning` | engine/index.go:514-562 | two logs in which every record has the same visible history rebuild to the same view, whatever their order |
| `Log.LastWordShows` | engine/index.go:551-562 | the last visible line of a record has the last word: a delete leaves nothing, any other line its data, deadline and epoch, at a revision above the one it found and not below its own |
| `Log.LiveExactly` | engine/ttl.go:96-98 | readers see a record if and only if it has no deadline or its deadline lies strictly ahead |
| `CommitSafety.StepKeepsInv` | engine/xtx_prepare.go:33-100 | every step of the commit protocol, of a crash and of recovery keeps the invariant: traces are contiguous pieces of a planned run, a COMMIT record implies whole synced runs, attempts hold disjoint collections and keys |
| `CommitSafety.CrashAtomicity` | engine/xtx_recovery.go:310-406 | in every run, at every step including inside recovery, whatever a crash leaves rebuilds to a view in which each transaction is in all participants, entry by entry as its caller gave it and in order, or leaves no mark in any |
| `CommitSafety.LiveAtomicity` | engine/xtx_wire.go:186-195 | the same for the running process under the decisions it has installed |
| `CommitSafety.AcknowledgedIsDurable` | engine/xtx_prepare.go:76-100 | once a commit is acknowledged, every participant holds exactly the entries its caller gave, in order, in every later state of the run and whatever a crash leaves |
| `CommitSafety.CommittedShows` | engine/index.go:514-562 | live and after any crash, each document a committed transaction has the last word on is rebuilt with the data, deadline and epoch of the entry its caller gave, or is gone if that entry deletes it |
| `CommitProgress.CommitSucceeds` | engine/xtx_prepare.go:33-100 | from every reachable state in which a commit may begin it can run to its acknowledgement; then each participant has gained exactly the given entries in order, no other collection changed, and one COMMIT record describes the runs |
| `CommitProgress.PlannedWasBegun` | engine/xtx_prepare.go:33-45 | what these theorems say of a transaction they say of a call: its runs and key are those some Begin of the run was given |
| `CommitProgress.UnsyncedMayVanish` | engine/xtx_prepare.go:54-75 | an append, cut or decision that is not synced can be undone by a crash: whatever it could leave before, it can still leave |
| `CommitProgress.SyncedStays` | engine/xtx_prepare.go:66-99 | after a sync a crash leaves exactly the present content |
| `CommitSafety.FailedNeverAppears` | engine/xtx_prepare.go:46-75 | a call that failed with a durability error appears in no later state, whatever a crash leaves |
| `CommitSafety.EvidenceNeverLost` | engine/xtx_recovery.go:341-387 | with compactions interleaved, each participant a durable COMMIT names still holds its complete run in order, with the recorded length and digest, in every content a crash can leave |
| `CommitSafety.NeverRefused` | engine/xtx_recovery.go:341-387 | recovery never answers that a committed transaction is incomplete |
| `CommitSafety.CommitOncePerKey` | engine/xtx_commit.go:254-282 | over all retries, crashes and reopens the journal holds at most one COMMIT per non-empty idempotency key and one record per txid |
| `CommitSafety.RecoveryFinishes` | engine/xtx_recovery.go:310-406 | from any reachable point inside recovery there is a way to a running database |
| `CommitSafety.ReopenCompletes` | engine/xtx_recovery.go:66-484 | after any crash the database can be opened: recovery decides every transaction that left a trace and keeps every decision the journal held |
| `CommitProgress.TruncateRemovesRun` | engine/xtx_recovery.go:326-333 | recovery cuts exactly the run of an uncommitted transaction off the end of an active segment |
| `CommitProgress.TruncateExactlyWhen` | engine/xtx_recovery.go:326-333 | it can do so if and only if the run ends the active segment and no sealed segment has a line of it |
| `CommitProgress.EvidenceExactlyWhen` | engine/xtx_recovery.go:341-387 | recovery accepts a COMMIT if and only if every participant it describes holds the whole run, entry by entry and in order, and no other collection holds a line of the transaction |
| `CommitReissue.ReissuedExactlyWhen` | engine/xtx_recovery.go:282-289 | after any crash of any run a txid can be issued, again or for the first time, if and only if it is of the journal's epoch and above every txid that left a trace in the journal or in a segment |
| `CommitReissue.UntracedIdComesBack` | engine/xtx_journal.go:825-838 | a transaction begun before a crash that keeps nothing of it, and another one after the crash, get the same txid |
| `CommitRecovery.EvidenceFound` | engine/xtx_recovery.go:341-387 | the evidence scan finds every run a COMMIT record names, complete and with matching length and digest |
| `CommitRecovery.CrashKeeps` | engine/xtx_recovery.go:66-484 | a crash that keeps any content each file had since its last sync leaves a state recovery can start from |
| `Compaction.CompactionDeterministic` | engine/compactor.go:578-627 | a sealed prefix, a decision table and a clock determine the compacted lines |
| `Compaction.ResolveCompactEntries` | engine/compactor.go:578-627 | the scan and collection loops produce exactly the stamped lines that are not aborted, in order, then the newest plain line of each surviving id in ascending order |
| `Compaction.TouchingOut` | engine/compactor.go:578-627 | for any later table a record's history in the output is its kept stamped lines and then at most one plain line |
| `Compaction.CompactionKeepsContents` | engine/compactor.go:593-597 | for every later suffix, table and clock the compacted log shows the same unexpired contents, if and only if no undecided line that follows a record's newest plain line would change what readers see of it |
| `Compaction.UndecidedUpdateUnsafe` | engine/compactor.go:593-597 | a plain insert followed by an undecided update of the same record: the condition fails |
| `Compaction.CompactionKeepsMeaning` | engine/compactor.go:578-627 | with every stamp decided and revisions rising, output plus any suffix shows the same unexpired ids, data and revisions as the log plus that suffix, and revisions rise again, so passes can be repeated |
| `Compaction.CompactionKeepsRuns` | engine/compactor.go:583-598 | the run of every transaction that is not aborted survives complete and in order; aborted runs are dropped |
| `Compaction.ReinsertionChangesRevision` | engine/index.go:551-562 | a log without rising revisions whose compaction shows revision 6 where the log shows 1 |
| `Compaction.WriteCompactEntries` | engine/compactor.go:658-726 | re-packing keeps every line in order and the cap on the number of segments: before small neighbours are merged, every segment but the last was closed as soon as it was full |
| `Compaction.Rebalance` | engine/compactor.go:730-763 | merging keeps the lines in order and adds no segment; front to back, a segment below a tenth of the target is joined with the next one exactly if they fit together |
| `Compaction.CompactPass` | engine/compactor.go:147-262 | a pass writes a compaction of its inputs into no more segments than it read |
| `CompactionSwap.StepKeeps` | engine/compactor.go:259-343 | every step of the swap, of a crash, of a stop that is not risky and of recovery keeps the invariant |
| `CompactionSwap.CrashLeavesGuarded` | engine/compact_manifest.go:85-126 | whatever subset of the unsynced operations a crash keeps, at any point of a pass and of any number of interrupted recoveries: no manifest names a source that is gone over old bytes, and without a manifest the layout is exactly the old or the new one up to failed removals |
| `CompactionSwap.OpenLayout` | engine/compact_manifest.go:85-126 | a collection open for use shows no manifest and exactly the old layout, or the new one up to failed removals |
| `CompactionProgress.PassCompletes` | engine/compactor.go:259-360 | whichever removals fail, a swap can end with exactly the new layout up to those, durable, no manifest and no temp file of its own |
| `CompactionProgress.RecoveryCompletes` | engine/compact_manifest.go:85-126 | wherever a crash or a safe stop left the swap, opening can finish: at once without a manifest, else by rolling forward to exactly the new layout |
| `CompactionSwap.ExitSafeExactlyWhen` | engine/compact_manifest.go:70-75 | a process may stop at a moment of the pass without endangering any continuation if and only if it is not stopping with its manifest visible but unsynced before a swap of two or more effects, nor with the manifest's removal unsynced while a changed output is still to be moved |
| `CompactionSwap.LosesManifest` | engine/compact_manifest.go:85-111 | stopping with an unsynced manifest and two effects to come: the next open acts on it and a crash leaves the swap half done without a manifest |
| `CompactionSwap.LosesSource` | engine/compactor.go:312-322 | stopping with the removal of an abandoned manifest unsynced: the next open discards the temp files and a crash leaves a manifest whose source is gone over old bytes |
| `CompactionSwap.UnsyncedTempsExactlyWhen` | engine/compactor.go:217-287 | before the manifest's directory sync, with the creation of the temp files unsynced too, a crash leaves something to recover from if and only if it loses the manifest or keeps every output that differs from the segment it replaces |
| `CompactionSwap.ManifestWithoutTemps` | engine/compact_manifest.go:99-111 | a crash that keeps only the manifest: the missing sources are taken as renamed already |
| `CompactionSwap.SyncedStart` | engine/fsync.go:65-98 | the manifest's directory sync makes the temp files durable with it, which is where the run theorems start from |
| `CompactionSwap.ExactlyNewWhen` | engine/compactor.go:341-343 | after the swap the layout is exactly the new one if and only if no removal failed |
| `CompactionSwap.MissedRemovalResurrects` | engine/compactor.go:341-343 | a failed removal, which the pass ignores, brings a deleted record back |
| `CompactionSwap.RollForwardIsNew` | engine/compact_manifest.go:99-122 | rolling forward anything a crash can leave under a manifest gives exactly the new layout |
| `CompactionSwap.Directory.Recover` | engine/compact_manifest.go:85-126 | the recovery loops apply outstanding renames, drop the listed segments and discard temp files, and nothing else; without a manifest they only discard temp files |
| `CompactionSwap.Directory.MoveAll` | engine/compact_manifest.go:99-110 | every rename whose source is there moves its content, in whatever order, and no other segment changes |
| `CompactionSwap.Directory.DiscardTemps` | engine/compact_manifest.go:141-152 | exactly the temp files are removed |
| `CompactionResult.OpenReads` | engine/compactor.go:147-435 | however the pass was interrupted, an open collection with no failed removal spells out the old log, or the outputs followed by the untouched segments |
| `CompactionResult.PassKeepsRows` | engine/compactor.go:147-435 | a whole pass with its swap, crashes and recoveries shows the same unexpired rows as before it, for decided stamps and rising revisions |
| `CompactionResult.PassKeepsRuns` | engine/compactor.go:583-598 | a whole pass with its swap keeps the run of every transaction that is not aborted |
| `CompactionResult.MissedRemovalsExactlyWhen` | engine/compactor.go:341-343 | failed removals change what readers see if and only if some old line left behind is the last word on its record and differs from the output |
| `IndexRecovery.PlanReplayFor` | engine/index_recovery.go:194-278 | a coverage list is accepted if and only if its names are numbered segments that still hold the covered bytes, only the newest grew, committed stamps are accounted for and new segments lie above; the plan then is exactly the uncovered lines in order |
| `IndexRecovery.CoverageSplitsLog` | engine/index_recovery.go:194-278 | recorded lines, then what the newest covered segment gained, then the new segments: together the whole log in order |
| `IndexRecovery.NameLessExactly` | engine/index.go:575-589 | replay order is numbered segments by number, before all others, and those by name |
| `IndexRecovery.ReplayIsRebuild` | engine/index_recovery.go:80-152 | replaying an accepted plan onto what the persisted index was built from gives the index a full rebuild gives, when the applied lists are complete |
| `IndexRecovery.EntriesMeanLog` | engine/index.go:514-562 | the index of a log holds exactly the rows the log means, each entry pointing at the line that wrote it |
| `IndexRecovery.StaleListAccepted` | engine/index_recovery.go:233-252 | an accepted coverage whose applied list misses a committed run leaves a record out of the index |
| `StaleIndex.StaleExactlyWhen` | engine/index_recovery.go:233-252 | with rising revisions, replaying every tail gives the rebuilt index if and only if no recorded line committed since the capture has the last word on its record |
| `StaleIndex.EntryIsLast` | engine/index.go:551-562 | with rising revisions an index entry is the last visible line of its record, and a last delete leaves none |
| `IndexRecovery.Index.ApplyEntries` | engine/index.go:536-548 | replays one segment from a line on, in log order |
| `IndexRecovery.Index.Rebuild` | engine/index.go:514-530 | the index of all segments in numeric order |
| `IndexRecovery.Index.Recover` | engine/index_recovery.go:80-152 | the recovered index is the rebuilt one, whether the file was trusted, replayed or discarded |
| `IndexRecovery.ValuesMeanLog` | engine/secondary_index.go:636-657 | replaying values keeps a secondary index in step with the rows the log means |
| `IndexRecovery.ReplaySecondary` | engine/secondary_index.go:636-657 | replays one segment onto a secondary index from a line on |
| `IndexRecovery.RebuildSecondary` | engine/secondary_index.go:409-461 | a secondary index built from the last version of every record over all segments |
| `IndexRecovery.RecoverSecondary` | engine/index_recovery.go:394-424 | the recovered secondary index files exactly the values of the rows the log means |
| `Journal.EveryCutParses` | engine/xtx_journal.go:536-582 | every byte prefix of a journal file that holds the header line parses to exactly the records wholly inside it |
| `Journal.CutHeaderIsTornCreate` | engine/xtx_journal.go:584-601 | every cut inside the header line is a creation that never finished |
| `Journal.ParseJournal` | engine/xtx_journal.go:536-582 | the reading loop computes that parse, and rejects a file that is neither |
| `Journal.OutcomesNeverChange` | engine/xtx_journal.go:459-513 | once recorded, an outcome, its key, participants and binding never change, and a retirement stays |
| `Journal.ConflictIsBad` | engine/xtx_journal.go:459-513 | a record that contradicts an earlier one makes the whole file unusable |
| `Journal.TableMeans` | engine/xtx_journal.go:459-513 | the table is exactly what the records say of each transaction: outcome, key, participants, binding, retirement, and which LSN is bound to it |
| `Journal.TornCreateExactlyWhen` | engine/xtx_journal.go:536-600 | a file is taken for an unfinished creation if and only if it has no line end and is all zeros or agrees with the header prefix as far as both go; any other file without a line end is refused |
| `Journal.KeysHold` | engine/xtx_journal.go:507-511 | a key points at a transaction that carries it, and at a committed one if there is any |
| `Journal.HighWater` | engine/xtx_journal.go:459-513 | every recorded sequence number is at or below the mark, and the mark is a recorded one |
| `Journal.KeptTable` | engine/xtx_journal.go:1174-1231 | dropping whole transactions leaves a consistent journal that says the same of every other one |
| `Journal.KeptMark` | engine/xtx_journal.go:1174-1231 | a checkpoint never drops the record with the highest sequence number |
| `Journal.CollectedExpires` | engine/xtx_journal.go:1174-1231 | whoever opens the rewritten file finds a collected txid unrecorded and below the counter: it is expired |
| `Journal.CollectedStaysPending` | engine/xtx_journal.go:1108-1121 | allocate, abort, retire, collect: the txid reports PENDING, and EXPIRED once the file is opened again |
| `Journal.ReopenNeverReissues` | engine/xtx_journal.go:825-838 | an id allocated after reopening any file the journal can leave behind was never recorded |
| `Journal.XTxJournal.Open` | engine/xtx_journal.go:639-675 | opening installs exactly the parsed table and cuts a torn tail |
| `Journal.XTxJournal.TableIsParse` | engine/xtx_journal.go:912-918 | the table in memory always is what the file means |
| `Journal.XTxJournal.AllocateTxId` | engine/xtx_journal.go:825-838 | hands out the next number, recorded nowhere and pending from now on, exactly unless the journal is poisoned |
| `Journal.XTxJournal.ObserveSeq` | engine/xtx_journal.go:1146-1152 | raises the counter just above a number found in a segment, and never lowers it |
| `Journal.XTxJournal.AppendDecision` | engine/xtx_journal.go:945-958 | a record is installed exactly if it was written whole and synced; a failed write is cut back or the journal is poisoned |
| `Journal.XTxJournal.Commit` | engine/xtx_journal.go:849-891 | refused exactly when poisoned or when the LSN is bound already; else it succeeds exactly when written whole and synced, and each other outcome of the write has its own answer; success appends the COMMIT and installs its key, participants and binding, and every failure leaves table and records as they were |
| `Journal.XTxJournal.Abort` | engine/xtx_journal.go:924-943 | refused exactly when poisoned, foreign or committed, and a repeat for an aborted transaction; else it succeeds exactly when written whole and synced; no recorded outcome ever changes |
| `Journal.XTxJournal.Retire` | engine/xtx_journal.go:963-989 | refused exactly when poisoned or undecided, and a repeat for a retired transaction; else it succeeds exactly when written whole and synced, with the outcome recorded before |
| `Journal.XTxJournal.Checkpoint` | engine/xtx_journal.go:1174-1231 | refused exactly when poisoned; else it fails exactly when there is something to drop and the swap is not durable; the rewritten file drops exactly the chosen retired transactions except the one with the highest number, and each dropped id then reports EXPIRED unless it is still pending in memory |
| `Journal.XTxJournal.StatusOf` | engine/xtx_journal.go:1108-1121 | what is reported of an id: recorded outcomes first, then pending, then expired for numbers already used, else unknown |
| `Journal.XTxJournal.StatusByKey` | engine/xtx_journal.go:1127-1142 | COMMITTED exactly when an installed COMMIT carries the key, ABORTED when only other records do, PENDING when no record does but a transaction under way, else UNKNOWN; the transaction told of carries the key |
| `TxIdText.FormatParses` | engine/xtx_journal.go:105-123 | every 64-bit sequence number survives being written and read |
| `TxIdText.ParseFormats` | engine/xtx_journal.go:110-123 | an accepted text is exactly what its parts would be written as, so no two texts name one transaction |
| `JournalDecisions.TableDecides` | engine/xtx_journal.go:1076-1091 | the table folded from the lines of the file is the decisions folded from the protocol's records |
| `JournalDecisions.CutDecides` | engine/xtx_journal.go:536-582 | a file cut anywhere behind its header decides exactly what a prefix of the protocol's records decides |
| `HandleRuns.EveryCommitIsSerial` | engine/xtx_handle.go:616-687 | in every interleaving of handles with direct writers, every committed handle is a serial execution at its commit |
| `HandleRuns.CommitSerializes` | engine/xtx_commit.go:172-194 | every read the handle was answered, its revision included, and every write it staged fit the documents just before the commit, and what it leaves is what its operations in order leave, stored keys kept and revisions counted on, except exactly for a deadline that folding lost |
| `HandleRuns.StepKeepsInv` | engine/xtx_handle.go:413-574 | staging, reading, committing, ending and direct writes keep the invariant that ties each handle to what its caller was answered |
| `HandleRuns.SerialIsNet` | engine/xtx_handle.go:463-487 | running a trace in order changes each document by its folded net effect |
| `HandleRuns.AnswersRecorded` | engine/xtx_handle.go:413-574 | the traces the theorems speak of hold every answer: what a read returned or that it found nothing, and each staged operation |
| `HandleRuns.FoldingLosesDeadline` | engine/xtx_handle.go:480-485 | an update with a deadline followed by one without leaves the stored deadline, not the staged one |
| `HandleRuns.ReusedIdPassesValidation` | engine/xtx_commit.go:402-424 | an id deleted and inserted again by its caller passes read validation with other contents |
| `HandleRuns.ChangeMissedExactlyWhen` | engine/xtx_commit.go:172-194 | validation misses a change of an observed document if and only if it is live before and after at one revision |
| `Handles.ValidateReads` | engine/xtx_commit.go:172-194 | validation passes if and only if every observed presence and revision still holds |
| `Handles.ApplyWrites` | engine/xtx_commit.go:345-666 | fails exactly if an update or delete has no live target at its base revision, and then changes no row; else an insert leaves its data at revision 1, an update its data with the stored caller-supplied key one revision up, both with their own, default or stored deadline, and a delete nothing |
| `Handles.XTx.StageOp` | engine/xtx_handle.go:413-505 | staging changes only the handle and the id counters, as the specification of accepted, folded and refused operations says |
| `Handles.RefusedStageObserves` | engine/xtx_handle.go:489-500 | a refused operation changes an open handle if and only if it got as far as looking at a document neither written nor seen before, and then only by that observation |
| `Handles.MissingTargetIsObserved` | engine/xtx_handle.go:489-492 | an update of a missing document leaves its absence among the reads to validate |
| `Handles.StagedIsRead` | engine/xtx_handle.go:531-574 | read your writes: after staging, the handle reads what was staged, or nothing once the document is staged to go |
| `Handles.XTx.GetDoc` | engine/xtx_handle.go:531-574 | a point read answers from the staged write or the live row, records what it saw and refuses a row that moved |
| `Handles.XTx.Commit` | engine/xtx_handle.go:616-687 | commits exactly if validation and targets hold, and then every write leaves what ApplyWrites says; every other verdict changes no row and ends the handle in its own phase |
| `Handles.XTx.Rollback` | engine/xtx_handle.go:697-713 | an open handle is discarded; a decision cannot be undone |
| `BrokerRuns.StepKeepsInv` | engine/replication.go:123-299 | publishing, cutting, subscribing, draining, crashing, restarting and promotion keep ring, streams and LSNs in step, whether or not watermark writes go through |
| `BrokerRuns.RingHolds` | engine/replication.go:148-186 | over every run the ring holds consecutive LSNs that end at the current one, with no more entries than its capacity or as a single record |
| `BrokerRuns.FeedIsGapless` | engine/replication.go:247-276 | over every run backlog and live feed together are what was issued from the stream's start on, record by record, and reach the current LSN until the subscriber is cut |
| `BrokerRuns.SkipsExactlyWhen` | engine/replication.go:586-644 | one step makes a stream skip records if and only if it promotes the node past the point a live subscriber resumed from |
| `BrokerRuns.StreamSkipsExactlyWhen` | engine/replication.go:586-644 | over every run a stream misses records after its resume point if and only if, since it was opened, its node was promoted past that point while the subscriber was live |
| `BrokerRuns.PromotionSkips` | engine/replication.go:619-627 | a follower's subscriber that is live at promotion receives applied LSN plus one as its next record |
| `BrokerRuns.NeverIssuedTwice` | engine/replication.go:133-141 | while the watermark writes go through no LSN is issued twice, over crashes, restarts and promotions |
| `BrokerRuns.ReissuesExactlyWhen` | engine/replication.go:378-387 | a stopped node can publish again under an LSN it issued before if and only if its saved watermark is below one |
| `BrokerRuns.CleanCloseResumes` | engine/replication.go:378-412 | after a clean close the next record gets the next LSN, and exactly those who have seen every record need not start over |
| `BrokerRuns.LostWatermarkReissues` | engine/replication.go:133-141 | a lost watermark write and a crash bring LSN 1 back |
| `BrokerRuns.LostPublishForcesResync` | engine/replication.go:217-221 | after a crash between COMMIT and publish no resume point up to the old LSN is served, if and only if the saved watermark covers the reserved LSN |
| `Broker.DroppedEnough` | engine/replication.go:156-161 | eviction stops as soon as the record fits or nothing is left, and not before |
| `Broker.BacklogIsSuffix` | engine/replication.go:247-276 | a backlog is exactly the part of the ring above the resume point |
| `Broker.ReplicationBroker.constructor` | engine/replication.go:104-117 | a broker opening with the persisted watermark |
| `Broker.ReplicationBroker.AppendLocked` | engine/replication.go:148-186 | the circular buffer, weights, reservation and fan-out do what the value-level append does |
| `Broker.ReplicationBroker.ReserveNext` | engine/replication.go:217-221 | reserves for the next LSN, persisting a block ahead when the watermark is passed |
| `Broker.ReplicationBroker.ResyncBarrier` | engine/replication.go:228-240 | burns an LSN, forgets the ring and cuts every subscriber |
| `Broker.ReplicationBroker.Subscribe` | engine/replication.go:247-276 | a resume point is served if and only if it is not below the oldest retained record, with the backlog above it |
| `Follower.Replica.ApplyEntry` | engine/replication.go:685-759 | a replicated entry is absorbed by its document unless its effect is there already, by revision or absence |
| `Follower.Replica.ApplyTx` | engine/replication_apply.go:129-381 | a replicated transaction is applied whole, answered as already there, or refused, and the applied LSN moves accordingly |
| `Follower.Replica.Decide` | engine/replication_apply.go:208-227 | how a delivery is answered: against a bound transaction by the whole record, against one the snapshot brought by participant lists alone, otherwise by what the rows lack |
| `Follower.Replica.FindBound` | engine/xtx_journal.go:1006-1019 | finds the transaction bound to an LSN or carrying an id, if there is one |
| `Follower.Replica.Missing` | engine/replication_apply.go:228-254 | exactly the operations whose effect is not there yet |
| `Follower.Replica.Reopen` | engine/xtx_recovery.go:443-453 | after a crash the applied LSN is at least the highest bound one, and no higher than needed |
| `FollowerRuns.AppliedAtMostOnce` | engine/replication_apply.go:102-127 | over any deliveries at all a transaction is applied at most once; its exact redelivery changes nothing, anything else under its LSN or id is refused |
| `FollowerRuns.NeverRefused` | engine/replication_apply.go:208-226 | delivered in log order, no transaction of a leader's log is refused |
| `FollowerRuns.CanDeliver` | engine/replication_apply.go:129-381 | a follower is never stuck before the end of the log |
| `FollowerRuns.ConvergesExactlyWhen` | server/replication.go:56-101 | over every run with restarts and redelivery the follower holds the fold of the log wherever it has caught up, if and only if delivering the records between the watermark it was given and its snapshot's position leaves the snapshot as it is |
| `FollowerRuns.WithoutOverlapConverges` | engine/replication_apply.go:102-127 | a follower that starts empty, or at its snapshot's position, always converges |
| `FollowerRuns.HarmlessExactlyWhen` | server/replication.go:56-101 | with ids used once that overlap is harmless if and only if no transaction the snapshot brought deletes a document that an earlier overlapping record, delivered again, writes |
| `FollowerRuns.SnapshotOverlapDiverges` | server/replication.go:56-101 | an insert and a transaction deleting it, both between watermark and snapshot: the document comes back and stays |
| `FollowerRuns.ResumeBelowBoundDiverges` | engine/xtx_recovery.go:443-453 | resuming below a bound transaction brings back the document it deleted, which is why the applied LSN is raised at open |
| `Pagination.FollowPages` | engine/scan.go:212-288 | following the tokens from the first page ends, and the pages together are each row once in the promised order |
| `Pagination.ScanOrdered` | engine/scan.go:212-288 | a page is the window of the full sort of the rows behind the token, in the promised order, and a next token is given exactly if rows remain |
| `Pagination.FullSortOk` | engine/scan.go:613-626 | the reference sort is in the promised order and keeps exactly the rows |
| `Pagination.LessIsPrecedes` | engine/scan.go:613-626 | the comparison is the promised order: the first sort field that tells two rows apart decides, in its own direction, a missing field counting as null, and then the smaller id |
| `Pagination.SortedUnique` | engine/scan.go:613-626 | a homogeneous result set has one sorted arrangement |
| `Pagination.LessTransitive` | engine/scan.go:613-626 | on a homogeneous result set the row order is transitive |
| `Pagination.SmallestIsPrefix` | engine/scan.go:698-719 | what a bounded heap keeps is a prefix of the full sort |
| `Pagination.TokenRoundTrip` | engine/scan.go:641-687 | a token resumes exactly behind the row it was made from |
| `Pagination.TopK.Push` | engine/scan.go:698-711 | the bounded max-heap keeps the smallest rows seen, as many as fit |
| `Pagination.CollectTop` | engine/scan.go:223-246 | one pass over the rows keeps the first rows of the sort and counts all that page |
| `Query.EqualIsRendered` | query/filter.go:127-134 | equality of values is equality of what is printed |
| `Query.PrintsAs` | query/filter.go:127-134 | a value equals the string it prints as |
| `Query.CompareStrIsLexicographic` | query/filter.go:140-155 | printed values compare lexicographically |
| `Query.Evaluate` | query/filter.go:51-107 | the loops of a filter compute its meaning: a conjunction all of its children, a disjunction any |
| `Query.MixedCompareCycles` | query/filter.go:140-155 | with decimal printing 9, 10 and the string 5 compare in a cycle |
| `Query.TransitiveExactlyWhen` | query/filter.go:140-155 | among any values comparison is transitive if and only if no value that is not a number prints between two numbers whose printed order is not their order |
| `SecondaryIndex.Index.Add` | engine/secondary_index.go:269-288 | filing a new id keeps buckets, reverse map, duplicate markers and the ordered view in agreement with the filed values |
| `SecondaryIndex.Index.Remove` | engine/secondary_index.go:292-306 | taking an id out keeps that agreement |
| `SecondaryIndex.Index.Update` | engine/secondary_index.go:310-339 | refiling an id keeps that agreement |
| `SecondaryIndex.Index.Lookup` | engine/secondary_index.go:342-355 | exactly the ids whose printed value is the one asked for, each once |
| `SecondaryIndex.Index.LookupRange` | engine/secondary_index.go:365-405 | a range over a homogeneous index gives exactly the ids whose value satisfies it, each once; other ranges are declined |
| `SecondaryIndex.SearchSorted` | engine/secondary_index.go:199-203 | binary search finds the split position of a key in the ordered view |
| `SecondaryIndex.FoundAt` | engine/secondary_index.go:223-232 | a key is in the ordered view if and only if it sits at its search position |
| `SecondaryIndex.InRange` | engine/secondary_index.go:365-405 | a value satisfies the range if and only if its key lies in the interval searched |
| `Scan.PlacedIsRebuilt` | engine/index.go:514-562 | the index holds the rows the log means, each pointing at the line it came from |
| `Scan.OrSelects` | query/filter.go:60-67 | a disjunction selects a record if and only if one of its children does |
| `Scan.AndSelects` | query/filter.go:51-58 | a conjunction selects an unexpired record if and only if all of its children do |
| `Scan.FieldSelects` | query/filter.go:69-107 | a record without the field is never selected; equality and inequality split the others, as do each strict comparison and its complement; equal is printed alike, less is numerically or lexicographically less |
| `Scan.StreamLive` | engine/scan.go:467-551 | walking the log yields each live matching record of the captured view exactly once, whatever is appended meanwhile, among them all that a child of a disjunction selects |
| `Scan.VisitCandidates` | engine/scan.go:405-444 | revalidating candidates yields exactly the live matching ones, in ascending order |
| `Scan.IndexCandidates` | engine/scan.go:388-401 | an index serves exactly equalities, and comparisons with a value of the only kind it holds; the candidates are then exactly the filed ids that satisfy the filter |
| `Scan.ForEachMatch` | engine/scan.go:295-332 | an unserved filter visits exactly the matching records; a served one exactly those among the candidates |
| `Scan.ServedIsComplete` | engine/secondary_index.go:147-153 | an index-served answer is the full-scan answer if and only if the field is not the reserved key or no matching record carries a non-string there |
| `Scan.KeyIndexMissesNumbers` | engine/secondary_index.go:147-153 | a number stored under the key field is found by the full scan and missed by the index |
| `Scan.Count` | engine/count.go:23-64 | every path of Count, fast or not, returns the size of the answer the scan would give, which is the number of matching records where an index can serve the filter completely, and at least as many as each child of a disjunction selects |
| `Scanner.ScanTiles` | engine/salvage.go:72-113 | for every byte string, records and damaged regions tile the scanned bytes in ascending order |
| `Scanner.ScanProves` | engine/salvage.go:126-176 | every reported record decodes from exactly the bytes it claims, up to a newline |
| `Scanner.ScanTolerant` | engine/salvage.go:72-113 | the scanning loop computes that tiling up to its limit and reports all its records and all its damaged regions |
| `Scanner.FindGlued` | engine/salvage.go:154-174 | looks for a complete record behind garbage from the end of the line |
| `Scanner.PrefixScans` | engine/salvage.go:72-113 | any byte prefix of an appended log scans to exactly its whole records and at most one torn tail |
| `Scanner.RecoverPartialLine` | engine/segment.go:126-182 | the backward chunk loop cuts the file behind its last newline |
| `Scanner.RecoveryKeepsWholeLines` | engine/segment.go:126-182 | from any byte prefix of an appended log, recovery keeps exactly the whole lines |
| `Repair.ReorderKeepsMeaning` | engine/repair.go:621-714 | a repair plan that is not refused leaves every record's data and revision as they were, for every decision table |
| `Repair.HistoryKept` | engine/repair.go:845-879 | each record's history reads the same before and after the reordering |
| `Repair.RefusedReorderChanges` | engine/repair.go:682-697 | a reordering the planner refuses can undo an update |
| `Repair.PlanSalvage` | engine/repair.go:663-714 | salvage is planned if and only if no later intact segment shares a record with a damaged one |
| `Repair.PlanAdoption` | engine/repair.go:621-661 | adoption is planned if and only if no unnumbered segment shares a record with another segment |
| `Repair.WriteSalvage` | engine/repair.go:845-879 | the new segment holds the valid records of the damaged ones in segment order |
| `Batch.Collection.CommitTx` | engine/collection.go:1780-2013 | each answer is given exactly when its check or write fails; success applies every operation in order, leaves of each record what Batch.BatchLeaves says, and leaves unique values unique; a failed commit with a successful cut restores segment and rows, and the indexes if and only if their rebuild could scan every segment or no applied operation filed anything differently; a failed cut fences |
| `Batch.BatchLeaves` | engine/collection.go:1899-1975 | what a batch leaves of each record: nothing after a delete, else the data of the last operation with the stored key kept; updates keep the deadline and raise the revision by one each, inserts start at revision 1 with the default deadline |
| `Batch.Collection.Rollback` | engine/collection.go:1305-1330 | restores segment and primary index; secondary indexes are rebuilt exactly if there is none or every segment scans strictly |
| `Batch.BatchKeepsUnique` | engine/collection.go:2109-2144 | after a checked batch no value of a unique field is held by two unexpired records, now or later |
| `Batch.CheckUnique` | engine/collection.go:2109-2144 | the check passes if and only if every operation takes a value nobody else holds and no other operation took |
| `Batch.CheckTargets` | engine/collection.go:1820-1828 | the check passes if and only if every update and delete has a target |
| `Batch.Collection.KeepKeys` | engine/keys.go:74-91 | exactly the updates without a key get the key their record is filed under |
| `Batch.IndexKeptExactlyWhen` | engine/collection.go:1305-1330 | an index after a batch is as before if and only if no touched record is filed differently |
| `Batch.RolledBackValueStays` | engine/collection.go:1320-1328 | an update applied before the failing append stays in the index of a damaged collection |
| `Encryption.SealedReadsBack` | engine/encryption.go:257-356 | whatever policy and key a record was sealed under, reading it whole or projected gives its plaintext, if and only if it is not a record-mode read of a field with the reserved name |
| `Encryption.WriteSeals` | engine/encryption.go:151-214 | every accepted write is stored as its policy says: listed fields as envelopes that the current key opens to their values, the others in the clear; in record mode the columns and the key in the clear and one envelope of exactly the rest |
| `Encryption.ReencryptSeals` | engine/encryption.go:241-247 | re-encrypting what any policy wrote stores the plaintext that reads back as the new policy and key say |
| `Encryption.ReadFailsExactlyWhen` | engine/encryption.go:257-356 | reads fail closed: a read is refused if and only if an envelope it needs does not open |
| `Encryption.HistoryKeepsPlaintext` | engine/encryption.go:241-247 | through every history of policies and key rotations re-encryption keeps the plaintext, stored as the last policy and key say |
| `Encryption.ColumnsNeedNoKey` | engine/encryption.go:298-356 | a projection onto columns needs no key |
| `Encryption.ReservedNameIsSkipped` | engine/encryption.go:298-307 | a field with the reserved name written while sealing is off is lost to record-mode reads |

## Findings

Properties that do not hold of the code as it stands, each with a member at a concrete input and with the
exact condition, or a sufficient one where that is said.

- A pass moves undecided stamped lines in front of plain ones, so a later COMMIT can lose to an older
  plain line: `Compaction.UndecidedUpdateUnsafe`, exactly when in `Compaction.CompactionKeepsContents`.
- Compaction can change a revision when revisions do not rise, as after re-inserting a deleted id:
  `Compaction.ReinsertionChangesRevision`. Rising revisions are sufficient
  (`Compaction.CompactionKeepsMeaning`).
- A process that stops with its compaction manifest written but unsynced, or with the removal of an
  abandoned manifest unsynced, can leave the swap half done after a later crash, because the next
  open acts on a directory state that is not durable: `CompactionSwap.LosesManifest`,
  `CompactionSwap.LosesSource`. `CompactionSwap.ExitSafeExactlyWhen` says which moments are safe.
- No directory sync lies between creating the temp files and renaming the manifest, so a crash can keep
  the manifest and lose a file it names: `CompactionSwap.ManifestWithoutTemps`, exactly when in
  `CompactionSwap.UnsyncedTempsExactlyWhen`.
- The swap ignores a failed removal, which can bring a deleted record back:
  `CompactionSwap.MissedRemovalResurrects`. `CompactionResult.MissedRemovalsExactlyWhen` says exactly
  when it changes what readers see.
- A persisted index whose list of applied transactions misses a committed run is accepted and stays
  stale: `IndexRecovery.StaleListAccepted`, exactly when in `StaleIndex.StaleExactlyWhen`.
- Watermark writes are best-effort. If one is lost, a crash brings issued LSNs back:
  `BrokerRuns.LostWatermarkReissues`, and exactly when in `BrokerRuns.ReissuesExactlyWhen`.
- Promotion moves the LSN up to the applied one and cuts nobody, so a live subscriber of the promoted
  node skips records: `BrokerRuns.PromotionSkips`, exactly when in
  `BrokerRuns.StreamSkipsExactlyWhen`.
- A follower's snapshot can be ahead of the watermark read before it. A record in between is applied
  again while a transaction the snapshot brought is skipped, so a deleted document can come back:
  `FollowerRuns.SnapshotOverlapDiverges`, exactly when in `FollowerRuns.ConvergesExactlyWhen` and
  `FollowerRuns.HarmlessExactlyWhen`. Resuming below a bound transaction does the same
  (`FollowerRuns.ResumeBelowBoundDiverges`); the applied LSN is raised at open to rule it out.
- Folding a staged update without a deadline over one with a deadline loses the deadline:
  `HandleRuns.FoldingLosesDeadline`; `HandleRuns.CommitSerializes` makes it the only difference from
  running the operations in order.
- Point-read validation compares revisions only, so an id deleted and inserted again by its caller
  passes: `HandleRuns.ReusedIdPassesValidation`, exactly when in `HandleRuns.ChangeMissedExactlyWhen`.
  Handles reserve their own ids.
- A staging call that is refused for a missing document or a wrong revision still records what it
  observed, although the comment on `Stage` says a failed stage leaves the transaction unchanged
  (`engine/xtx_handle.go:489-500`): `Handles.MissingTargetIsObserved`, exactly when in
  `Handles.RefusedStageObserves`. The model follows the code.
- After a failed batch commit on a collection opened with damage under the report policy, the
  secondary indexes keep values that were rolled back, and the collection is not fenced:
  `Batch.RolledBackValueStays`, exactly when in the contract of `Batch.Collection.CommitTx`.
- The `_key` index files strings only, so a number stored there is missed by an indexed lookup:
  `Scan.KeyIndexMissesNumbers`, exactly when in `Scan.ServedIsComplete`.
- Comparison is not transitive when numbers and strings mix: `Query.MixedCompareCycles`, exactly
  when in `Query.TransitiveExactlyWhen`. On homogeneous sort fields it is a total order
  (`Pagination.LessTransitive`).
- A field named like the sealed blob is accepted while sealing is off and left out of record-mode
  reads: `Encryption.ReservedNameIsSkipped`, exactly when in `Encryption.SealedReadsBack`.
- A txid that left no trace before a crash can be issued again: `CommitReissue.UntracedIdComesBack`,
  exactly when in `CommitReissue.ReissuedExactlyWhen`. `CommitSafety` therefore numbers calls instead
  of identifying them by txid.
- The txid of an aborted transaction stays pending in memory until the journal is reopened, so it
  reports PENDING rather than EXPIRED once its record was collected: `Journal.CollectedStaysPending`,
  exactly when in the contract of `Journal.XTxJournal.Checkpoint`, and never for a file opened again
  (`Journal.CollectedExpires`).

## Left out

- Second compaction pass over a leftover manifest: the swap theorems cover one pass, its stops and crashes, and any number of recoveries.
- Compaction.CompactionKeepsMeaning: assumes decided stamps and rising revisions; lines without revisions restart the count.
- IndexRecovery.ReplayIsRebuild: takes the completeness of the applied lists as a hypothesis; StaleIndex.StaleExactlyWhen says what happens without it.
- IndexRecovery.Index.Recover: takes the same completeness for the loaded file.
- CompactionSwap.CrashLeavesGuarded: for runs that start with durable temp files and have no risky stop; CompactionSwap.UnsyncedTempsExactlyWhen and CompactionSwap.ExitSafeExactlyWhen cover the rest.
- CompactionSwap.OpenLayout: on the same runs.
- CompactionResult.PassKeepsRows: assumes decided stamps and rising revisions, as the compaction theorem does.
- IndexRecovery.RecoverSecondary: takes the same completeness, and a loaded index that holds what it was built from.
- Pagination.FollowPages: assumes each sort field holds numbers in all rows or in none, and distinct ids.
- Pagination.ScanOrdered: on the same rows, as are Pagination.TopK.Push and Pagination.CollectTop.
- SecondaryIndex.Index.Add: for ids not filed yet, as insert paths call it; adding a filed id again would leave it in two buckets.
- Journal.XTxJournal.Commit: for a txid without a record, as allocation hands out; the repeated COMMIT of a replicated transaction is in the table fold only.
- Journal.XTxJournal.Open: for files that parse; Journal.ParseJournal covers every byte string.
- Handles.ApplyWrites: collections without sealing, so rows carry epoch 0.
- Batch.Collection.CommitTx: no quotas, no sealing of fields, no rotation and no events; batches routed to the coordinator are the commit model's.
- Follower.Replica.ApplyTx: no refusal of conflicting caller-supplied keys or of entries without encryption keys.
- BrokerRuns.NeverIssuedTwice: for runs whose watermark writes go through; BrokerRuns.ReissuesExactlyWhen covers the rest.
- Update in place of the commit coordinator, its locks and its per-collection maps: the protocol is a step system on values.
- Concurrency inside one locked section, goroutines, tickers, debouncing and retries.
- Operating system calls, directory locks, snapshots in archive form and their transport.
- The server, clients, configuration, quotas, metrics, hooks and the texts of verification findings.
- Watch events, automatic expiry of records in the background, and the time limits of handles beyond their effect.
