# xtable verification

xtable is a single-node multi-version store: transactions are staged, checked and committed by a multi-step
protocol over a local embedded store, protected by a write-ahead log, a lock manager for serializable snapshot
isolation, snapshot pins and garbage collection, and flushed from memtables into binary chunk files. This project
models that behaviour in Dafny 4.11 and proves what it guarantees.

`dafny verify dfyconfig.toml` checks everything.

## How the pieces fit

- `VersionChain`, `Store`, `ChainBatches`, `LocalStore`: version chains, the store's tables and every write
  transaction on them, first as functions on values, then as the mutable objects proved equal to those functions.
- `Machine`: the transaction protocol as a step machine. A step is one durable write (or one deciding read), so
  commits, aborts, begins, stagings, readers, sweeps, chain GC and log truncation interleave in every way; any commit
  step may fail, a crash may come after any step, and recovery itself may be cut.
- `MachineInvariant`, `MachineSteps`, `MachineRecovery`: what every step keeps. `MachineSnapshots` adds pins and views.
- `MachineOutcomes`, `MachineViews`: the guarantees over whole runs. `MachineContents`: what the published entries say.
  `MachineSettled`: what a whole recovery leaves. `MachineExamples`: three concrete runs at their edges.
  `MachineReopened`: when a logged abort can still turn into a commit. `MachineRestored`: runs over a store a cold rebuild
  has just filled.
- `Coordinator`: begin, commit with reconciliation, abort, sweep and recovery written as they run over the store, each
  proved to be a run of the machine for every choice of failing store calls in the commit path. `CommitEffects`: what
  each of them has left in the tables at its end, field by field.
- `SiLocks`, `SiHistory`, `SiLimits`: the lock manager, its edges as a function of the event history, and what it lets
  through. `SiRecords`: every other field the manager keeps. `SiTies`: the coordinator's calls to it, tied to the transaction rows, for whole operations and for every
  interleaving of their parts.
- `RecordIndex`, `MemTables`, `Bloom`, `ReadPath`, `Flush`: index rows, memtables, flush and the snapshot read.
  `ReadLimits`: the condition on rewrites is exact.
- `Schemas`, `Rebuild`: schema versions; cold rebuild from chunks. `FlushedChunks`: what the chunks of any run hold, and
  what a rebuild of them gives back.
- `LittleEndian`, `ChunkKeys`, `ChunkEntries`, `ChunkFiles`, `ChunkLayout`, `KeyLayout`: the chunk codec and object keys.

## Where a promise fails, and exactly when

- A commit cut before its Committing record was written is recorded Aborted exactly when one of its log records
  survived truncation. Otherwise recovery never looks at it and its row stays Committing
  (`MachineOutcomes.CrashAtomicity`). Two commits on other keys and the flush of both are enough for that
  (`MachineExamples.TruncatedCommitIsLost`).
- A commit whose records were all gone when the crash came stays without an outcome in every later run
  (`MachineOutcomes.LostForGood`).
- An outcome once recorded is answered later exactly while the row is terminal or a terminal record lies above the
  truncation point, as long as the transaction was not reopened (`MachineOutcomes.OutcomePersists`). It is reopened when
  recovery logs its abort and is cut before it stores the row: the row stays Active and the next recovery takes the
  record for done. A recorded abort turns into a commit in some later run exactly when the transaction was reopened, no
  written key's chain ends above its snapshot, and a version is drawn for it or left to draw
  (`MachineReopened.AbortTurnsExactly`; `MachineExamples.AbortRecordIsNotFinal` is one such run).
- A published entry carries the tombstone flag and the size of the transaction's last staged write of the key, unless
  recovery's undo has thrown that write away since; then it is an empty, live entry (`MachineContents.PublishedAsStaged`).
  A reopened transaction is in that position: the delete it had staged is published as a live entry
  (`MachineExamples.AbortRecordIsNotFinal`).
- A cold rebuild restores the version counter and starts the log at sequence number 1. A flush then truncates by
  versions the log has not reached, and can remove the intent record of a commit already in the chains
  (`MachineRestored.RebuildOutrunsLog`). In every run after a rebuild a cut commit has its true outcome recorded exactly
  when one of its records had survived truncation at the crash (`MachineRestored.CrashAfterRebuild`). Without a rebuild
  the log is always at least twice as long as the version counter, so a published commit's record always survives
  (`MachineOutcomes.WalOutrunsVersions`, `MachineOutcomes.TruncationSparesIntent`).
- A snapshot captured between a commit's version allocation and its append moves when that commit publishes, because
  it equals the version being published; any snapshot below that version does not move (`MachineViews.PublishMovesView`,
  `MachineExamples.TornSnapshot`).
- A write of a record that is still queued keeps all later reads right exactly when it is calm
  (`ReadLimits.CalmIsExact`). With the queue open every queued copy is stamped with the new version, so the new version
  must be a tombstone or all queued copies must say what it says; otherwise the flush of a stamped copy answers in its
  place (`ReadLimits.StaleStampMisreads`). With the queue locked nothing is stamped, but replacing an active copy lets a
  queued one answer for the snapshots between the two versions, so there must be no queued copy, or an equal one, or no
  unpruned snapshot in between (`ReadLimits.HiddenVersionMisreads`). Both failures happen in runs from the empty store
  (`ReadLimits.RewriteWhileQueuedReadsOld`, `ReadLimits.LockedRewritesReadOld`).
- No version of a record is ever flushed into two chunks as long as no write finds its record in the open queue; a write
  that does stamps the queued copy with its own version, and flushing both puts that version into two chunks
  (`FlushedChunks.UnstampedIsExact`). A cold rebuild of chunks with valid names, each holding a record at most once,
  succeeds exactly when no version stands in two of them (`Rebuild.RebuildTables`, `FlushedChunks.StampedRebuildFails`).
  Through the rebuilt tables a read returns the newest flushed version at or below its snapshot
  (`FlushedChunks.RebuiltReads`): the newest committed version of every record, once memory has been flushed
  (`FlushedChunks.RebuildRecovers`), but not the versions a later write had replaced in the same memtable.
- A chunk entry survives its round trip exactly when all its lengths fit their prefixes, its key parts hold no NUL byte
  and its content type is not the empty string (`ChunkEntries.EntryRoundTrip`); a body or a file exactly when all its
  entries do (`ChunkEntries.BodyReads`, `ChunkFiles.ChunkRoundTrip`). A triple is the only one with its composed key
  exactly when none of its parts holds a NUL byte (`ChunkKeys.KeyIsOwn`).
- A schema key that parses prints back unchanged exactly when its version is written in digits without a leading zero;
  the printer also wants valid segments, which neither parser looks at (`KeyLayout.SchemaParseIsExact`,
  `KeyLayout.RecordParseIsExact`, `KeyLayout.OtherSpellings`).
- A schema version is written twice exactly after an early registration: the first registration of a name, by a live
  transaction, that is handed a version written, or about to be written by the commit in flight, at or below the
  transaction's snapshot (`Schemas.EarlyIsExact`). That happens between a commit's allocation and its append, between its
  append and its hook, and at any time after a hook was lost (`Schemas.EarlyHappens`).
- The cycle check refuses a transaction exactly when some other one read a key before this one staged it and this one
  read a key before that one staged it, or behind that one's commit (`SiHistory.DangerIsHistory`). A read that finds the
  key staged and uncommitted leaves no edge. So of two committed transactions that each missed a write of the other, at
  least one read the key in that state (`SiHistory.WriteSkewExcluded`), and such write skews do commit: of two
  transactions with one read and one stage each, both can commit exactly when it is not the case that each read came
  before the other's stage (`SiLimits.SkewByOrder`, `SiLimits.StagedFirstCommits`). A ring of three antidependencies
  passes every check (`SiLimits.RingOfThreeCommits`).
- Cold rebuild puts a record's chain under a key without the `.json` suffix, which is not the key later commits check
  (`Rebuild.RebuiltKeyIsAnother`). No conflict is missed by that: every snapshot taken after the rebuild is at or above
  every rebuilt version (`MachineRestored.FirstCommitterAcrossRebuild`).

## Where the code and its comments differ

The model follows the code. Key segments also allow `:`, which the comment on the key layout omits. The chunk file puts
the footer length after the footer, and chunk and transaction ids are length-prefixed, against the layout comment. Chunk
entries keep the memtable's iteration order; they are not sorted. The coordinator keeps `.json` in the record id of a
schema key, against the comment above it. `register_write` gives the writer out-edges and the readers in-edges; its
comment says the opposite. A commit refused for a snapshot conflict and a swept transaction are never reported to the
lock manager, so their locks stay; that can only cause further aborts (`SiHistory.LeftoversOnlyRefuse`).

## Model

| member | source | states |
|---|---|---|
| VersionChains.VersionChain.ReadAtSnapshot | xtable-storage/src/version_chain.rs:93-98 | the walk from the newest end finds the newest entry at or below the snapshot |
| VersionChains.VersionChain.Append | xtable-storage/src/version_chain.rs:107-116 | an entry above the latest version goes to the end and the chain stays strictly ascending |
| VersionChains.VersionChain.PruneBelow | xtable-storage/src/version_chain.rs:125-150 | the chain becomes its pruned form and the count of dropped entries is returned |
| VersionChains.ReadAtMeaning | xtable-storage/src/version_chain.rs:93-98 | a read is the entry of greatest version at or below the snapshot, and none exactly when all are above |
| VersionChains.DropCountMeaning | xtable-storage/src/version_chain.rs:125-145 | both branches of pruning keep from the newest entry at or below the threshold |
| VersionChains.PruneRule | xtable-storage/src/version_chain.rs:125-150 | an entry is dropped if and only if a newer one lies at or below the threshold |
| VersionChains.PrunedReads | xtable-storage/src/version_chain.rs:125-150 | every read at or above the threshold is the same after pruning |
| VersionChains.PrunedShape | xtable-storage/src/version_chain.rs:125-150 | pruning keeps the newest entry and the order, and at most one entry at or below the threshold |
| VersionChains.PrunedCompose | xtable-storage/src/version_chain.rs:125-150 | pruning at a threshold and then at a higher one is pruning once at the higher one |
| VersionChains.AppendReads | xtable-storage/src/version_chain.rs:93-116 | an append decides reads at or above its version and leaves all others alone |
| ChainBatches.SortSorts | xtable-storage/src/store.rs:572-576 | the batch is put in key and version order, a permutation of what was given |
| ChainBatches.CommitBatch | xtable-storage/src/store.rs:565-625 | for a commit's batch the sequential append in any order is the simultaneous one, refused as a whole exactly when some key is |
| ChainBatches.ReplayIsIdle | xtable-storage/src/store.rs:596-618 | an accepted batch keeps every chain ascending with all its older entries, and sent again it is accepted and changes nothing |
| ChainBatches.FreshAppends | xtable-storage/src/store.rs:577-618 | from an empty store a batch in order with distinct versions is never refused and each chain lists its key's entries in ascending order |
| ChainBatches.AcceptedAgree | xtable-storage/src/store.rs:596-618 | from an empty store a batch in order is accepted only if entries of one key and version have the same writer, backend key and flag |
| LocalStores.LocalStore.NextGlobalVersion | xtable-storage/src/store.rs:138-151 | the counter advances by one, nothing else changes |
| LocalStores.LocalStore.Append | xtable-storage/src/store.rs:236-255 | the record becomes the last of the log under the next sequence number |
| LocalStores.LocalStore.IterWal | xtable-storage/src/store.rs:258-272 | yields exactly the surviving records, oldest first |
| LocalStores.LocalStore.Truncate | xtable-storage/src/flush.rs:373-397 | exactly the surviving records above the given sequence stay, unchanged, and the others are counted |
| LocalStores.LocalStore.PutTxnState | xtable-storage/src/store.rs:287-294 | replaces one transaction row |
| LocalStores.LocalStore.CompareAndSetStatus | xtable-storage/src/store.rs:322-343 | sets the status if and only if the row has the expected one, and says so |
| LocalStores.LocalStore.PutWriteEntry | xtable-storage/src/store.rs:347-360 | adds or replaces one staged write of one transaction |
| LocalStores.LocalStore.CaptureAndRegister | xtable-storage/src/store.rs:771-791 | the current version is returned and its pin count raised in the same step, no other count touched |
| LocalStores.LocalStore.Unregister | xtable-storage/src/store.rs:811-826 | one registration of the snapshot fewer, the snapshot forgotten with its last, no other count touched |
| LocalStores.LocalStore.MinActiveSnapshot | xtable-storage/src/store.rs:830-843 | the smallest pinned snapshot, or the maximum when none is pinned |
| LocalStores.LocalStore.AppendChainEntriesBulk | xtable-storage/src/store.rs:565-625 | all entries are appended in order, or nothing changes |
| LocalStores.LocalStore.GcChains | xtable-storage/src/store.rs:647-748 | chains and record history are pruned in one step at one threshold, the lesser of the requested one and the smallest pin; chains visited and entries removed are counted |
| MachineRecovery.StepInv | xtable-tx/src/coordinator.rs:395-826 | every step of every actor, failures, crash and recovery included, keeps the protocol invariant |
| MachineRecovery.ReachableInv | xtable-tx/src/coordinator.rs:395-826 | the invariant holds in every reachable state |
| MachineOutcomes.CrashAtomicity | xtable-tx/src/recovery.rs:49-193 | a writing commit cut anywhere, once recovery is done: all its chains hold its entry or none; recorded Committed exactly when all do, Aborted exactly when none does and a log record of it survived |
| MachineOutcomes.CrashAtomicityRebuilt | xtable-tx/src/recovery.rs:49-193 | the same over every store a run may start with: Committed exactly when all chains hold its entry and a record of it survived, Aborted exactly when none does and one survived |
| MachineOutcomes.LostForGood | xtable-tx/src/recovery.rs:91-103 | a commit recovery passed over stays Committing without an outcome in every later state |
| MachineOutcomes.OutcomePersists | xtable-tx/src/recovery.rs:91-180 | over every run from a reachable state, a recorded outcome of a transaction that was not reopened is answered exactly while the row is terminal or a terminal record survives truncation, else nothing is; never the opposite |
| MachineReopened.AbortTurnsExactly | xtable-tx/src/recovery.rs:195-227 | from every state of every run a recorded abort can turn into a commit if and only if the transaction was reopened, no written key was committed above its snapshot and a version is drawn or left |
| MachineOutcomes.RecoveryFinishes | xtable-tx/src/recovery.rs:91-180 | recovery always has a next step and every step but the last lowers a rank |
| MachineSettled.RecoverySettles | xtable-tx/src/recovery.rs:49-193 | from any crash, in any order, recovery leaves every row as the log and chains at the crash said: Active in the log becomes Aborted, Committing becomes Committed if its keys' chains end at its versions and Aborted if not, every other row stands; exactly the undone lose their write sets, no chain moves |
| MachineOutcomes.FailureAtomicity | xtable-tx/src/coordinator.rs:395-437 | a commit that failed at any step and was reconciled, or ended normally: Committed exactly when all its chains hold its entry, Aborted exactly when none does |
| MachineOutcomes.DecidersAgree | xtable-tx/src/recovery.rs:110-135 | for the commit in flight recovery's latest-version test and reconciliation's any-entry test give the same answer: whether it was published |
| MachineOutcomes.TerminalMeansPublished | xtable-tx/src/coordinator.rs:637-679 | a terminal transaction is Committed exactly when every key's full history has its entry, Aborted exactly when none has |
| MachineContents.PublishedAsStaged | xtable-tx/src/coordinator.rs:614-639 | over every run and every start, crashes included, each published entry carries flag and size of the transaction's last stage of the key if recovery has not undone it since, and is empty and live if it has |
| MachineOutcomes.RowsAreMonotone | xtable-storage/src/store.rs:322-343 | in every run statuses only move forward, terminal rows never change, snapshots and claimed write sets are frozen |
| MachineOutcomes.OneWinner | xtable-storage/src/store.rs:322-343 | of all commits, aborts and sweeps of a transaction in a run at most one wins the status |
| MachineOutcomes.AbortedNeverAppears | xtable-tx/src/gc.rs:48-78 | a swept or aborted transaction never gains an entry in any later state |
| MachineOutcomes.SweeperSparesCommitting | xtable-tx/src/gc.rs:48-78 | no background step touches the row or write set of a Committing transaction |
| MachineOutcomes.RepeatedCommit | xtable-tx/src/coordinator.rs:445-455 | a finished commit reports the version its entries carry, the same in every later state |
| MachineOutcomes.FirstCommitterWon | xtable-tx/src/coordinator.rs:568-587 | on every key, pruned or not, the later writer is another transaction whose snapshot is at or above the earlier version |
| MachineOutcomes.WalOutrunsVersions | xtable-tx/src/coordinator.rs:225-229 | the log is at least twice as long as the global version, and truncation stays at or below the version |
| MachineOutcomes.TruncationSparesIntent | xtable-storage/src/flush.rs:217-231 | truncating up to any committed version, in a store that was never rebuilt, leaves the Committing record of the commit in flight |
| MachineViews.PinAccounting | xtable-storage/src/store.rs:771-826 | between operations, without a crash, each snapshot's count is the number of non-terminal transactions plus readers holding it |
| MachineViews.GcStaysBelowLive | xtable-storage/src/store.rs:647-662 | a threshold GC may use never exceeds a live transaction's or reader's snapshot, in the middle of any operation |
| MachineViews.SnapshotStability | xtable-storage/src/store.rs:771-791 | a quiescent holder reads the same version of every key and sees the same commits until it lets go, through any run |
| MachineViews.AllOrNothing | xtable-tx/src/coordinator.rs:539-555 | every held snapshot shows a commit on all of its keys or on none of them |
| MachineViews.LaterWriterSawEarlier | xtable-tx/src/coordinator.rs:568-587 | with a quiescent snapshot the later writer had the earlier write in view from its beginning |
| MachineViews.WindowCapture | xtable-tx/src/coordinator.rs:200-210 | a snapshot captured between allocation and append is exactly the version being committed |
| MachineViews.PublishMovesView | xtable-tx/src/coordinator.rs:614-639 | publishing leaves a held snapshot's reads unchanged if and only if the snapshot is below the published version |
| MachineExamples.TruncatedCommitIsLost | xtable-storage/src/flush.rs:217-231 | a run in which the flush of two commits truncates up to the greater of their versions and with that every record of a third transaction, whose commit is then cut and left by recovery without an outcome |
| MachineExamples.AbortRecordIsNotFinal | xtable-tx/src/recovery.rs:195-227 | a run in which a transaction whose abort recovery had logged commits in the end, recovery having been cut before it stored the row; the delete it had staged, and nothing else staged since, is published as an empty live entry |
| MachineExamples.TornSnapshot | xtable-tx/src/coordinator.rs:200-210 | a concrete run in which a reader captured inside the window holds the version about to be published |
| MachineRestored.FirstCommitterAcrossRebuild | xtable-tx/src/rebuild.rs:281-340 | in every run after a rebuild each transaction's snapshot is at or above every version found in the chunks, so no rebuilt chain would refuse it |
| MachineRestored.CrashAfterRebuild | xtable-tx/src/rebuild.rs:328-340 | in every run after a rebuild a cut commit is recorded Committed exactly when all its chains hold its entry and a record of it survived, Aborted exactly when none does and one survived |
| MachineRestored.RebuildOutrunsLog | xtable-tx/src/rebuild.rs:328-340 | from every rebuilt version of 7 or more a run that truncates the intent of a published commit: after recovery all its keys hold its entry and no outcome is recorded |
| Coordinators.ReportedVersion | xtable-tx/src/coordinator.rs:446-454 | the greatest allocated version, or the snapshot when nothing was allocated |
| Coordinators.Coordinator.BeginTxn | xtable-tx/src/coordinator.rs:200-245 | pin, active row at the captured version, lock entry and begin record, as a run of the machine; nothing else in the store changes |
| Coordinators.Coordinator.StageWrite | xtable-tx/src/coordinator.rs:252-318 | on an active transaction only: stage record, write set, key list and write lock, as a run of the machine, nobody else's write set touched; otherwise refused and nothing changes |
| Coordinators.Coordinator.ReadKey | xtable-tx/src/coordinator.rs:333-356 | the read is registered with the lock manager exactly when the transaction is active |
| Coordinators.Coordinator.Heartbeat | xtable-tx/src/coordinator.rs:837-841 | the row's heartbeat is set exactly when the transaction is active, and nothing else changes |
| Coordinators.Coordinator.CommitTxn | xtable-tx/src/coordinator.rs:367-393 | an active transaction commits if and only if it is in no dangerous structure, no written key's chain ends above its snapshot and no call fails; then version, counter, log, row, pin and one new entry per written key, saying what was staged, are exactly as stated. Refused without a failing call it is Aborted with its write set kept. Whatever calls fail it ends terminal and atomic over its chains, Committed exactly if nothing refused it, no call up to the append failed and it wrote something or nothing failed later either; lock manager told, or left as it was; a run of the machine that stays tied to the manager's history. A finished commit answers its version again |
| Coordinators.Coordinator.CheckPhase | xtable-tx/src/coordinator.rs:500-587 | goes on if and only if both calls work, there is no dangerous structure and no conflict; refuses exactly on either when the abort's calls work, and says what store and lock manager then hold |
| Coordinators.Coordinator.FindConflict | xtable-tx/src/coordinator.rs:568-571 | true exactly when some written key's chain ends above the snapshot |
| Coordinators.Coordinator.PublishPhase | xtable-tx/src/coordinator.rs:589-639 | publishes if and only if its calls work and no written key was overtaken: intent in log and row, one more entry per written key with writer, version, key, flag and size of the staged write; otherwise the chains are untouched |
| Coordinators.Coordinator.FinishPhase | xtable-tx/src/coordinator.rs:669-740 | ends if and only if its calls work: both terminal records, Committed row, pin released, lock manager told, nothing else changed |
| Coordinators.Coordinator.FindPublished | xtable-tx/src/coordinator.rs:403-415 | true exactly when versions were allocated and every allocated chain holds this transaction's entry |
| Coordinators.Coordinator.Reconcile | xtable-tx/src/coordinator.rs:395-437 | a failed commit ends Committed if its entries are found and Aborted if not, chains agreeing, pin released |
| Coordinators.Coordinator.AbortTxn | xtable-tx/src/coordinator.rs:785-826 | succeeds exactly on active or already aborted transactions; an active one gets an Aborted row and an abort record and loses its write set and its pin, and nothing else changes |
| Coordinators.Coordinator.SweepTxn | xtable-tx/src/gc.rs:48-78 | exactly if the transaction was still active it gets an Aborted row and an abort record and loses its write set and its pin; nothing else changes |
| Coordinators.Coordinator.SweepStale | xtable-tx/src/gc.rs:15-46 | exactly the active transactions with a heartbeat before the cutoff become Aborted and lose their write sets, and their number is returned; chains and version counter stand |
| Coordinators.Coordinator.GcVersionChains | xtable-tx/src/gc.rs:82-87 | every chain is pruned at the smallest pinned snapshot; chains visited and entries removed are counted |
| Coordinators.FoldLog | xtable-tx/src/recovery.rs:50-87 | per transaction the folded last status and the key list of its last Committing record |
| Coordinators.FoldMeans | xtable-tx/src/recovery.rs:50-87 | the folded status is what the last record past Begin and Stage tells, Active without such a record, none without any; the keys are those of the last intent |
| Coordinators.Coordinator.FindLatest | xtable-tx/src/recovery.rs:115-130 | true exactly when some allocated key was logged and every such chain ends at the allocated version |
| Coordinators.Coordinator.UndoTxn | xtable-tx/src/recovery.rs:195-227 | one transaction gets an Aborted row and an abort record and loses its write set and its pin; nothing else in the store changes, nor what the log says of others |
| Coordinators.Coordinator.AdoptTxn | xtable-tx/src/recovery.rs:149-174 | one published transaction gets both terminal records at its version and a Committed row; nothing else in the store changes, nor what the log says of others |
| Coordinators.Coordinator.RecoverAll | xtable-tx/src/recovery.rs:49-193 | a run of the machine to normal operation after which every row is settled by what log and chains said at the start: Active in the log becomes Aborted, Committing becomes Committed or Aborted by its chains, every other row stands; the commit the crash cut has the outcome its chains show |
| SiLocks.SiLockManager.BeginTxn | xtable-tx/src/si_lock_manager.rs:86-103 | an unknown transaction gets empty locks; a known one is refused |
| SiLocks.SiLockManager.RegisterRead | xtable-tx/src/si_lock_manager.rs:109-149 | the read is recorded and one in-edge added per committed writer above the observed version |
| SiLocks.SiLockManager.RegisterWrite | xtable-tx/src/si_lock_manager.rs:156-202 | out-edges to every other registered reader, the mirror in-edge on each, the writer listed |
| SiLocks.SiLockManager.FindDangerousStructure | xtable-tx/src/si_lock_manager.rs:213-232 | returns another transaction that is both in-peer and out-peer, and none only if there is no such |
| SiLocks.SiLockManager.MarkCommitted | xtable-tx/src/si_lock_manager.rs:239-308 | status, deduplicated mirror pass, stamped writer views and recent list |
| SiLocks.SiLockManager.MarkAborted | xtable-tx/src/si_lock_manager.rs:315-337 | the transaction, every edge to it and its index entries are gone |
| SiHistory.PlayAgrees | xtable-tx/src/si_lock_manager.rs:109-337 | after any valid history locks, reader and writer indexes and all edges are what the history says |
| SiHistory.EdgesAreHistory | xtable-tx/src/si_lock_manager.rs:109-202 | out-peers are exactly the non-aborted others that read before a write; in-peers exactly those that wrote after a read or had committed above the version observed |
| SiHistory.MirrorPassAddsNothing | xtable-tx/src/si_lock_manager.rs:267-286 | committing changes no edge |
| SiHistory.DetectionIsSymmetric | xtable-tx/src/si_lock_manager.rs:204-232 | two active transactions are dangerous to each other or neither is |
| SiHistory.DangerIsHistory | xtable-tx/src/si_lock_manager.rs:204-232 | the check finds a dangerous structure if and only if the order of reads, stages and commits has one |
| SiHistory.WriteSkewExcluded | xtable-tx/src/coordinator.rs:524-537 | in every interleaving, of two committed transactions that each missed a write of the other at least one read the key between the other's stage and its commit |
| SiHistory.PairCommits | xtable-tx/src/coordinator.rs:524-537 | from any run two known transactions can both go on to commit if and only if neither is in danger |
| SiHistory.LeftoversOnlyRefuse | xtable-tx/src/gc.rs:48-78 | removing all events of a transaction whose end was never reported makes nobody dangerous who was not |
| SiRecords.RecordsFollowHistory | xtable-tx/src/si_lock_manager.rs:86-308 | in every valid history a transaction's snapshot, phase, read and write lists, the action and version on every edge, the writer entries, the recent list and the floor are what the calls said |
| SiTies.TieOutcome | xtable-tx/src/coordinator.rs:395-437 | however a commit ends, published, refused or failed, its calls to the lock manager continue a protocol run that agrees with the rows |
| SiTies.NoWriteSkew | xtable-tx/src/coordinator.rs:524-537 | of two transactions with Committed rows that each missed a write of the other, at least one read the key between the other's stage and its commit |
| SiTies.NoSkewInAnyInterleaving | xtable-tx/src/coordinator.rs:524-719 | the same over every interleaving of status changes and lock calls, others reading and staging between a check and its commit included |
| SiLimits.SkewByOrder | xtable-tx/src/si_lock_manager.rs:109-202 | of two transactions that each read what the other stages, in any order of the four operations, both can commit if and only if not both reads come before the other's stage |
| SiLimits.StagedFirstCommits | xtable-tx/src/si_lock_manager.rs:109-202 | for any two transactions and keys a protocol run in which both commit although each read the version the other replaced |
| SiLimits.RingOfThreeCommits | xtable-tx/src/si_lock_manager.rs:213-232 | a run following the protocol in which three transactions commit although their antidependencies form a ring |
| RecordIndex.LatestIsNewest | xtable-storage/src/store.rs:898-957 | after any sequence of puts, pointer updates and GC the latest row is the history row of greatest version, pointer and body included |
| RecordIndex.OlderFlushSparesLatest | xtable-storage/src/store.rs:1151-1210 | pointing another version at a chunk leaves the latest row alone |
| RecordIndex.GcKeepsReads | xtable-storage/src/store.rs:700-745 | history GC changes no newest-at-or-below answer at or above its threshold |
| RecordIndex.SameRetention | xtable-storage/src/store.rs:700-745 | pruned together, a record's history and its chain still have the same versions |
| RecordIndex.KeepFrom | xtable-storage/src/store.rs:716-723 | removes exactly the versions that have a later one at or below the threshold |
| RecordIndex.RecordTables.PutWithBody | xtable-storage/src/store.rs:898-957 | history gains the row; the latest row follows unless a newer version stands there |
| RecordIndex.RecordTables.Repoint | xtable-storage/src/store.rs:1151-1210 | one version's pointer changes, the latest row's only if it is that version |
| RecordIndex.RecordTables.GetAt | xtable-storage/src/store.rs:1035-1063 | the row of greatest version at or below the snapshot, none exactly when there is none |
| RecordIndex.RecordTables.Gc | xtable-storage/src/store.rs:700-745 | exactly the superseded history rows are removed |
| Bloom.SetBitSets | xtable-storage/src/chunk.rs:623-626 | setting a bit sets that bit and no other |
| Bloom.BitMeans | xtable-storage/src/chunk.rs:623-626 | the bit tested is the byte divided by two to its number, modulo 2 |
| Bloom.BuildBloom | xtable-storage/src/chunk.rs:615-629 | ten bits per key in whole bytes, at least eight; a bit is set if and only if it is one of the two positions of some key, so every key is answered yes, for any hash |
| Bloom.ExactAnswers | xtable-storage/src/chunk.rs:632-646 | such a filter says yes exactly when both positions of the key are positions of keys it was built from |
| MemTables.MemTableSet.PutInvisible | xtable-storage/src/memtable.rs:318-328 | the entry replaces the record's in the active table, whose sequence bounds widen to it; a full table goes to the end of the queue and an empty one takes its place |
| MemTables.MemTableSet.PublishVersion | xtable-storage/src/memtable.rs:337-350 | the active copy and, unless the queue is locked, every queued copy of the record get the version, and nothing else of any table changes |
| MemTables.MemTableSet.TakeImmutables | xtable-storage/src/memtable.rs:407-413 | hands over the whole queue |
| MemTables.MemTableSet.Lookup | xtable-storage/src/read.rs:76-100 | the active copy if it is published and not after the snapshot, else the newest queued one that is, none exactly when no table has one |
| ReadPath.StepKeeps | xtable-storage/src/flush.rs:87-272 | every write, rotation, flush step and GC keeps memtables, history rows and chunks consistent with the committed versions |
| ReadPath.ReadAgreement | xtable-storage/src/read.rs:61-147 | in every run of calm steps a read at an unpruned snapshot returns body, version and tombstone flag of the newest committed version at or below it |
| ReadLimits.CalmIsExact | xtable-storage/src/memtable.rs:318-350 | from any state such runs reach a step leaves every later read right if and only if it is calm |
| ReadLimits.StaleStampMisreads | xtable-storage/src/memtable.rs:337-350 | a queued copy stamped over different contents is flushed and then read in place of the new version, from any such state |
| ReadLimits.HiddenVersionMisreads | xtable-storage/src/memtable.rs:318-350 | replacing an active copy with the queue locked leaves a queued copy to answer for the version replaced |
| ReadLimits.RewriteWhileQueuedReadsOld | xtable-storage/src/memtable.rs:337-350 | for any record and two bodies a run from the empty store reads the old body at the new version |
| ReadLimits.LockedRewritesReadOld | xtable-storage/src/memtable.rs:337-350 | for any record and three bodies a run from the empty store reads the first body at the second version |
| ReadLimits.TruncationIsByVersion | xtable-storage/src/flush.rs:99-105 | in every run the sequence a flush truncates up to is the version of a committed write |
| Flush.ChunkRows | xtable-storage/src/flush.rs:110-149 | one row per visible entry of the memtable with its version, body, flag and writer, no record twice, nothing else |
| Flush.UpdateIndex | xtable-storage/src/flush.rs:247-272 | exactly the flushed versions point at the new chunk, in history and latest row |
| Flush.FlushOne | xtable-storage/src/flush.rs:87-215 | a memtable with visible entries becomes a chunk with one row per visible record and a filter of exactly their bits, index rows moved; an empty one changes nothing; either way a run of the read path's steps |
| Flush.BestInChunk | xtable-storage/src/read.rs:201-209 | the row of greatest version of the record at or below the snapshot, none exactly when there is none |
| Flush.ReadAtSnapshot | xtable-storage/src/read.rs:61-147 | the lookup sequence returns what the read function says |
| Flush.LegacyReads | xtable-storage/src/read.rs:133-147 | a record with a latest row and no history reads as that version from its snapshot on, through the row's chunk or as its tombstone |
| Schemas.PendingMap.LatestVersionInTxn | xtable-schema/src/engine.rs:157-166 | the version most recently staged for the name in the transaction |
| Schemas.PendingMap.NextVersion | xtable-schema/src/engine.rs:453-464 | one above the latest pending version, else above the latest committed one |
| Schemas.PendingMap.Register | xtable-schema/src/engine.rs:278-316 | the next version is taken and appended to the transaction's pending list |
| Schemas.HookLatest | xtable-schema/src/engine.rs:906-914 | after the post-commit hook a name's latest version is the last one staged, else unchanged |
| Schemas.VersionsAreGapFree | xtable-schema/src/engine.rs:278-316 | in every run without an early registration, failed commits and lost hooks included, a version is written exactly when it lies between 1 and the latest, and once; the index never runs ahead |
| Schemas.IndexIsCurrent | xtable-schema/src/engine.rs:906-914 | without lost hooks the index names the latest written version whenever no hook is outstanding |
| Schemas.EarlyIsExact | xtable-schema/src/engine.rs:453-464 | from any state such runs reach, a registration leaves every version written at most once for good if and only if it is not early |
| Schemas.EarlyHappens | xtable-schema/src/engine.rs:453-464 | for every name, runs from the empty store to an early registration between allocation and append, between append and hook, and after a lost hook |
| Schemas.TakenVersionConflicts | xtable-schema/src/engine.rs:278-316 | once a version is committed every other transaction that staged it conflicts |
| Rebuild.RebuildTables | xtable-tx/src/rebuild.rs:120-348 | with valid names and distinct chunk ids the rebuild succeeds if no version is listed twice, and fails if two objects hold one: every listed item is in history, latest row and chain with its version, flag, writer, body or size and chunk, nothing else is, and snapshot reads find the newest item at or below |
| Rebuild.Gather | xtable-tx/src/rebuild.rs:163-271 | collects every entry of every readable chunk, the newest per record and the greatest version |
| Rebuild.OrderDoesNotMatter | xtable-tx/src/rebuild.rs:120-348 | any two listings of the same objects rebuild to the same tables |
| Rebuild.RebuiltKeyIsAnother | xtable-tx/src/rebuild.rs:114-116 | the rebuilt chain key of a record is not the key commits use; that of a schema version is |
| FlushedChunks.UnmixedKeeps | xtable-storage/src/flush.rs:87-272 | in every run whose writes stamp no queued copy, each version of a record stands in at most one chunk or table, and the newest version of every record in one |
| FlushedChunks.UnstampedIsExact | xtable-storage/src/memtable.rs:337-350 | from any such state a step leaves the chunks' versions distinct for good if and only if it stamps no queued copy |
| FlushedChunks.RebuiltReads | xtable-tx/src/rebuild.rs:120-348 | with empty memory a read through rebuilt tables returns the newest flushed version at or below its snapshot, none exactly when there is none |
| FlushedChunks.RebuildRecovers | xtable-tx/src/rebuild.rs:120-348 | after any such run that left nothing in memory the rebuild's conditions hold and every record reads as its newest committed version from its snapshot on, at or below the rebuilt counter |
| FlushedChunks.StampedRebuildFails | xtable-tx/src/rebuild.rs:318-326 | chunks with a version of a record in two of them break the rebuild's condition, so the rebuild fails |
| LittleEndian.LeReads | xtable-storage/src/chunk.rs:321-335 | a number that fits reads back from its little-endian bytes |
| ChunkLayout.LeByte | xtable-storage/src/chunk.rs:321-335 | byte i is the number divided by 256 to the i, modulo 256 |
| ChunkKeys.CmpMeans | xtable-storage/src/chunk.rs:548-549 | a key is less than another exactly if it is a proper prefix or has the smaller byte at the first difference |
| ChunkKeys.ComposeKeepsOrder | xtable-storage/src/chunk.rs:339-347 | composed keys compare bytewise as their triples do |
| ChunkKeys.ComposeInjective | xtable-storage/src/chunk.rs:339-347 | equal composed keys come from equal triples |
| ChunkKeys.NulCollides | xtable-storage/src/chunk.rs:339-347 | every triple with a NUL in some part shares its composed key with another triple |
| ChunkKeys.KeyIsOwn | xtable-storage/src/chunk.rs:339-347 | a triple is the only one with its composed key if and only if no part of it holds a NUL |
| ChunkKeys.MinKey | xtable-storage/src/chunk.rs:548-548 | a key that no key of the chunk is below |
| ChunkKeys.MaxKey | xtable-storage/src/chunk.rs:549-549 | a key that no key of the chunk is above |
| ChunkEntries.EncodeEntryInto | xtable-storage/src/chunk.rs:350-400 | appends the entry's bytes with the checksum of exactly those bytes |
| ChunkEntries.DecodeMeta | xtable-storage/src/chunk.rs:433-450 | the loop over key and value pairs reads exactly the given number, or reports the first error |
| ChunkEntries.EntryReads | xtable-storage/src/chunk.rs:403-479 | decoding where an entry was written gives its fields and the position after it |
| ChunkEntries.EntryRoundTrip | xtable-storage/src/chunk.rs:350-479 | an entry is read back unchanged if and only if all its lengths fit their prefixes, its key parts are NUL-free and its content type is not empty |
| ChunkEntries.BodyReads | xtable-storage/src/chunk.rs:581-589 | a body decodes to exactly the entries packed into it if and only if each of them survives on its own |
| ChunkEntries.DecodeBodyEntries | xtable-storage/src/chunk.rs:581-589 | reads entries until the buffer is used up, or reports the first error |
| ChunkLayout.EntryLayout | xtable-storage/src/chunk.rs:350-400 | every field of an entry at its offset, numbers lowest byte first, the byte before the checksum 1 exactly for a tombstone, the checksum over all before it |
| ChunkFiles.HeaderRoundTrip | xtable-storage/src/chunk.rs:113-207 | a header reads back from the front of any file that starts with it if and only if its lengths fit |
| ChunkLayout.HeaderLayout | xtable-storage/src/chunk.rs:113-145 | "XTC1", version 1 and every header field at its offset, lowest byte first |
| ChunkFiles.FooterRoundTrip | xtable-storage/src/chunk.rs:272-316 | a footer reads back, given an inverse serializer pair |
| ChunkLayout.FooterLayout | xtable-storage/src/chunk.rs:272-283 | filter, key index and checksum behind their lengths, and "XTCF" at the end |
| ChunkFiles.FileRoundTrip | xtable-storage/src/chunk.rs:555-611 | header, decompressed body and footer of a finished file all read back |
| ChunkFiles.ChunkRoundTrip | xtable-storage/src/chunk.rs:503-611 | a finished file decompresses to its body, which decodes to the appended entries if and only if each of them survives on its own |
| ChunkFiles.SampledOffsetDecodes | xtable-storage/src/chunk.rs:521-537 | decoding the body at a sampled offset gives the sampled entry |
| ChunkFiles.EverySampleThere | xtable-storage/src/chunk.rs:521-537 | the sample of every 256th entry stands in the key index, in their order |
| ChunkFiles.ChunkWriter.Append | xtable-storage/src/chunk.rs:503-510 | body, entries and keys grow together |
| ChunkFiles.ChunkWriter.Finalize | xtable-storage/src/chunk.rs:512-570 | the file is header, compressed body, footer and footer length; key bounds, samples, checksum and filter are exactly those of the entries; with names and footer of encodable size the writer's own output reads back |
| KeyLayout.SchemaRoundTrip | xtable-schema/src/key.rs:43-75 | a printed schema key parses back, and the record parser refuses it |
| KeyLayout.RecordRoundTrip | xtable-schema/src/key.rs:78-118 | a printed record key parses back, and the schema parser refuses it |
| KeyLayout.KeysAreDistinct | xtable-schema/src/key.rs:43-92 | both printers are injective and their images disjoint |
| KeyLayout.PrintedForms | xtable-schema/src/key.rs:43-92 | the printed keys spelled out, the version in decimal without leading zero |
| KeyLayout.ParsersAgree | xtable-tx/src/coordinator.rs:905-923 | the coordinator's and the engine's parsers give the triple the schema layer uses |
| KeyLayout.RecordParseIsExact | xtable-schema/src/key.rs:78-118 | whatever the record parser accepts is what its parts print to; the printer refuses it exactly when a part is no valid segment |
| KeyLayout.SchemaParseIsExact | xtable-schema/src/key.rs:43-75 | an accepted schema key prints back unchanged if and only if the text between "v" and ".json" is digits without a leading zero; through the validating printer, if also its segments are valid |
| KeyLayout.OtherSpellings | xtable-schema/src/key.rs:54-75 | every version's key is also accepted with a leading zero and with a plus sign, and neither prints back |

## Left out

- S3 client, HTTP routes, authentication, CLI, telemetry, multipart uploads: adapters over code not modelled; the backend is a map from chunk ids to entries.
- redb, bincode, zstd, CRC and xxh3 internals: tables are maps, write transactions single steps, codecs function parameters assumed inverse where a round trip needs it, hashes arbitrary functions.
- Wall-clock fields, ETags, spill files and blob rows (with the staged entries a commit deletes beside them), user metadata in the transaction rows, the `TBL_VERSIONS` mirror of chain heads.
- Interleavings inside `stage`, `read` and `heartbeat`: each is a single step, and one coordinator per store is assumed.
- The step between a memtable publish and the hook's history row: `ReadPath` takes both as one, while a flush may hand the table over in between and leave the version unreadable until the hook has run.
- Storage errors inside begin, explicit abort, the sweeper and recovery, and errors of reconciliation's own row write: only the commit path's failures and reconciliation's failed log append are steps.
- Reuse of a transaction id that a rebuilt entry already carries: ids are fresh.
- Exhaustion of the 64-bit version counter: allocation is enabled only below the maximum.
- Restoration of memtables and record index after a crash, and pin counts after a crash: the source does not restore them.
- Full serializability, which the source does not provide (`SiLimits.RingOfThreeCommits`).
- The lock manager across a restart: it starts empty, so `SiTies` speaks about one lifetime of the coordinator.
- The lock manager's persisted tables, its recent-window eviction and `cahill.rs`, a copy of the check.
- Failed flushes and the queue order they leave; the read agreement is over successful flushes, with bodies empty exactly for tombstones as the structured layer writes them.
- Malformed chunks: decoders return an error where the source may stop on an index out of range.
- Query, validation and diff of the schema layer.
- Coordinators.Coordinator.RecoverAll: the refreshed heartbeat of an undone row and the report counters are not modelled.
- Coordinators.Coordinator.UndoTxn: the refreshed heartbeat of the undone row is not modelled.
- MachineSettled.RecoverySettles: the refreshed heartbeat of an undone row is not modelled.
- Coordinators.Coordinator.FinishPhase: the memtable publish and post-commit hooks inside it are modelled in `ReadPath` and `Schemas`, not as machine steps.
- Rebuild.RebuildTables: what is left half-written when the chain append is refused is not modelled.
- Coordinators.Coordinator.BeginTxn: the undo of a begin whose store call failed is not modelled.
- Coordinators.Coordinator.ReadKey: the row's list of read keys is not modelled.
- MemTables.MemTableSet.PutInvisible: the size and age policy that decides when a table is full is a parameter.
