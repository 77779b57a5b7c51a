/**
 The transaction protocol as a step machine. Every step is one redb write transaction (or one read
 that decides a branch), so a run interleaves the steps of the committer holding `commit_lock`,
 begins, stagings, snapshot readers, stale-transaction sweeps, chain GC and WAL truncation, and may
 be cut by a crash after any step; recovery then runs its own steps and may itself be cut.
 */
module Machine {
  import opened Primitives
  import opened VersionChains
  import opened Stores

  /** Where the holder of `commit_lock` stands. */
  datatype CommitPc =
    | Idle
    | Claimed(t: string)                 // status is Committing
    | Allocated(t: string, v: u64)       // commit version chosen
    | Checked(t: string, v: u64)         // no snapshot conflict seen
    | Logged(t: string, v: u64)          // WAL Committing written
    | Intended(t: string, v: u64)        // alloc_versions stored
    | Appended(t: string, v: u64)        // chains published
    | WalDone(t: string, v: u64)         // WAL Committed written
    | ResultDone(t: string, v: u64)      // WAL CommitResult written
    | Rejecting(t: string)               // will abort, WAL Aborted still to write
    | Rejected(t: string)                // WAL Aborted written or given up, status still to store
    | Failed(t: string)                  // a step returned an error
    | FixUp(t: string)                   // reconciliation found the entries published
    | Unpinning(t: string)               // status is terminal, pin still held
    | AbortCleaning(t: string)           // explicit abort won the status, write set to drop
    | AbortLogging(t: string)            // write set dropped, WAL Aborted still to write

  datatype BeginPc = Captured(snapshot: u64) | Stored
  datatype SweepPc = Cleaning | Logging | Releasing

  datatype RecoveryPc =
    | Choose
    | UndoClean(t: string) | UndoLog(t: string) | UndoUnpin(t: string) | UndoStore(t: string)
    | AdoptLog(t: string) | AdoptResult(t: string) | AdoptStore(t: string)

  datatype Mode = Running | Recovering(todo: set<string>, pc: RecoveryPc)

  datatype Holder = TxnHolder(t: string) | ReaderHolder(r: nat)

  /** What the store held at the start: nothing, or what a cold rebuild put there, up to the given version. */
  datatype Origin = Blank | Rebuilt(base: u64)

  function Base(o: Origin): u64 {
    if o.Blank? then 0 else o.base
  }

  /** History the source does not store: who holds which pin, every chain entry ever published, … */
  datatype History = History(
    holds: map<Holder, u64>,         // pins registered and not yet released
    quiet: set<Holder>,              // those not captured inside a commit's allocate-to-append window
    begun: set<string>,              // WAL Begin written
    stagers: set<string>,            // at least one WAL Stage written
    allocVer: map<string, u64>,      // version allocated to each committer
    intent: map<string, nat>,        // WAL position of its Committing record
    log: map<string, Entries>,       // chains as if GC had never run
    pub: map<string, u64>,           // transactions whose entries were appended, with their version
    horizon: u64,                    // no read at or above it was ever affected by GC
    crashed: bool,
    cut: Option<string>,             // transaction in flight at the crash being recovered from
    cutLogged: bool,                 // one of its WAL records survived truncation at that crash
    lost: set<string>,               // cut without a surviving record, and passed over by recovery
    origin: Origin)

  datatype Sys = Sys(
    st: Store,
    mode: Mode,
    commit: CommitPc,
    begins: map<string, BeginPc>,
    sweeps: map<string, SweepPc>,
    readers: map<nat, u64>,
    h: History)

  /** A store with the given version counter and chains, and an empty log. */
  function StartFrom(o: Origin, chains: map<string, Entries>): Sys {
    Sys(EmptyStore.(globalVersion := Base(o), chains := chains), Running, Idle, map[], map[], map[],
        History(map[], {}, {}, {}, map[], map[], chains, map[], 0, false, None, false, {}, o))
  }

  const Init := StartFrom(Blank, map[])

  datatype Action =
    | Client(c: ClientAction)
    | Commit(m: CommitAction)
    | Allocate | LogIntent | Publish | ReleasePin | AbortClean
    | Background(b: BackgroundAction)
    | Crash
    | Recover(r: RecoverAction)

  datatype ClientAction =
    | BeginCapture(t: string) | BeginStore(t: string, now: int) | BeginLog(t: string)
    | Stage(t: string, k: string, w: StagedWrite) | Heartbeat(t: string, now: int)
    | AcquireReader(r: nat) | DropReader(r: nat)

  /** Steps under `commit_lock` that write at most one log record and one row; the rest stand on their own. */
  datatype CommitAction =
    | Claim(t: string) | FindCycle | CheckChains | StoreIntent
    | LogDone | LogResult | StoreCommitted
    | LogReject | StoreRejected
    | Fail | Reconcile(logs: bool) | StoreFixed
    | AbortClaim(t: string) | AbortLog

  datatype BackgroundAction =
    | SweepClaim(t: string) | SweepClean(t: string) | SweepLog(t: string) | SweepRelease(t: string)
    | Gc(m: u64) | LogFlush(upTo: u64) | Truncate(upTo: u64)

  datatype RecoverAction = Pick(t: string) | Proceed | Resume

  // ---------- Helpers ----------

  predicate InCommitting(pc: CommitPc) {
    !pc.Idle? && !pc.Unpinning? && !pc.AbortCleaning? && !pc.AbortLogging?
  }

  /** A version is allocated and its entries are not yet in the chains. */
  predicate InWindow(pc: CommitPc) {
    pc.Allocated? || pc.Checked? || pc.Logged? || pc.Intended?
  }

  function WalTxns(w: seq<WalRecord>): set<string> {
    set r | r in w && !r.LogMemtableFlushed? :: r.txn
  }

  function Uniform(keys: set<string>, v: u64): map<string, u64> {
    map k | k in keys :: v
  }

  function Batch(st: Store, t: string, v: u64): map<string, VersionEntry>
    requires t in st.txns
  {
    map k | k in st.txns[t].writeKeys :: EntryFor(t, v, k, WriteSet(st, t))
  }

  /** Reconciliation's test: some entry of each allocated key's chain is this transaction's. */
  predicate ChainsHold(st: Store, t: string)
    requires t in st.txns
  {
    forall k :: k in st.txns[t].alloc ==>
      exists e :: e in ChainOf(st.chains, k) && e.txnId == t && e.commitVersion == st.txns[t].alloc[k]
  }

  predicate ReconcileFindsPublished(st: Store, t: string)
    requires t in st.txns
  {
    st.txns[t].alloc != map[] && ChainsHold(st, t)
  }

  /** Recovery's test: each allocated and logged key's chain ends at the allocated version. */
  predicate RecoveryFindsPublished(st: Store, t: string)
    requires t in st.txns && st.walFloor <= |st.wal|
  {
    var uploaded := LastKeys(Surviving(st), t);
    var alloc := st.txns[t].alloc;
    && (exists k :: k in alloc && k in uploaded)
    && (forall k :: k in alloc && k in uploaded ==> Latest(ChainOf(st.chains, k)) == alloc[k])
  }

  predicate SnapshotConflict(st: Store, t: string)
    requires t in st.txns
  {
    exists k :: k in st.txns[t].writeKeys && Conflicts(ChainOf(st.chains, k), st.txns[t].snapshot)
  }

  /** The greatest allocated version. */
  ghost function MaxVersion(alloc: map<string, u64>): (v: u64)
    requires alloc != map[]
    ensures (exists k :: k in alloc && alloc[k] == v) && forall k :: k in alloc ==> alloc[k] <= v
    decreases |alloc|
  {
    var k :| k in alloc;
    var rest := alloc - {k};
    assert forall j :: j in alloc ==> j == k || (j in rest && rest[j] == alloc[j]);
    if rest == map[] then alloc[k]
    else
      assert |rest.Keys| < |alloc.Keys| by { assert rest.Keys == alloc.Keys - {k}; }
      var w := MaxVersion(rest);
      if alloc[k] <= w then w else alloc[k]
  }

  /** The version a finished commit reports: the greatest allocated one, else the snapshot. */
  ghost function CommitVersionOf(rec: TxnState): u64 {
    if rec.alloc == map[] then rec.snapshot else MaxVersion(rec.alloc)
  }

  // ---------- Client steps ----------

  /** Transaction ids are fresh: no entry anyone ever published carries this one. */
  predicate Unused(log: map<string, Entries>, t: string) {
    forall k, e :: k in log && e in log[k] ==> e.txnId != t
  }

  predicate ClientEnabled(s: Sys, a: ClientAction) {
    s.mode.Running? &&
    match a
    case BeginCapture(t) => t !in s.st.txns && t !in s.begins
    case BeginStore(t, _) => t in s.begins && s.begins[t].Captured? && Unused(s.h.log, t)
    case BeginLog(t) => t in s.begins && s.begins[t].Stored?
    case Stage(t, _, _) => t in s.h.begun && HasStatus(s.st, t, Active)
    case Heartbeat(t, _) => t in s.h.begun && HasStatus(s.st, t, Active)
    case AcquireReader(r) => r !in s.readers
    case DropReader(r) => r in s.readers
  }

  function Hold(h: History, who: Holder, s: u64, quiet: bool): History {
    h.(holds := h.holds[who := s], quiet := if quiet then h.quiet + {who} else h.quiet - {who})
  }

  function Release(h: History, who: Holder): History {
    h.(holds := h.holds - {who}, quiet := h.quiet - {who})
  }

  function ClientNext(s: Sys, a: ClientAction): Sys
    requires ClientEnabled(s, a)
  {
    var st := s.st;
    match a
    case BeginCapture(t) =>
      s.(st := CaptureSnapshot(st),
         begins := s.begins[t := Captured(st.globalVersion)],
         h := Hold(s.h, TxnHolder(t), st.globalVersion, !InWindow(s.commit)))
    case BeginStore(t, now) =>
      s.(st := PutTxn(st, t, TxnState(Active, s.begins[t].snapshot, now, {}, map[])),
         begins := s.begins[t := Stored])
    case BeginLog(t) =>
      s.(st := AppendWal(st, LogBegin(t, if t in st.txns then st.txns[t].snapshot else 0)),
         begins := s.begins - {t},
         h := s.h.(begun := s.h.begun + {t}))
    case Stage(t, k, w) =>
      var logged := PutWrite(AppendWal(st, LogStage(t, k)), t, k, w);
      s.(st := PutTxn(logged, t, st.txns[t].(writeKeys := st.txns[t].writeKeys + {k})),
         h := s.h.(stagers := s.h.stagers + {t}))
    case Heartbeat(t, now) =>
      s.(st := PutTxn(st, t, st.txns[t].(heartbeat := now)))
    case AcquireReader(r) =>
      s.(st := CaptureSnapshot(st),
         readers := s.readers[r := st.globalVersion],
         h := Hold(s.h, ReaderHolder(r), st.globalVersion, !InWindow(s.commit)))
    case DropReader(r) =>
      s.(st := ReleaseSnapshot(st, s.readers[r]),
         readers := s.readers - {r},
         h := Release(s.h, ReaderHolder(r)))
  }

  // ---------- Commit and abort steps (under commit_lock) ----------

  predicate CommitEnabled(s: Sys, a: CommitAction) {
    && s.mode.Running?
    && match a
       case Claim(t) => s.commit.Idle? && t in s.h.begun && HasStatus(s.st, t, Active)
       case AbortClaim(t) => s.commit.Idle? && t in s.h.begun && HasStatus(s.st, t, Active)
       case _ =>
         && !s.commit.Idle? && s.commit.t in s.st.txns
         && match a
            case FindCycle => s.commit.Claimed?
            case CheckChains => s.commit.Allocated?
            case StoreIntent => s.commit.Logged?
            case LogDone => s.commit.Appended?
            case LogResult => s.commit.WalDone?
            case StoreCommitted => s.commit.ResultDone?
            case LogReject => s.commit.Rejecting?
            case StoreRejected => s.commit.Rejected?
            case Fail => InCommitting(s.commit) && !s.commit.Failed? && !s.commit.FixUp?
            case Reconcile(_) => s.commit.Failed?
            case StoreFixed => s.commit.FixUp?
            case AbortLog => s.commit.AbortLogging?
            case _ => false
  }

  function Target(pc: CommitPc, a: CommitAction): string
    requires a.Claim? || a.AbortClaim? || !pc.Idle?
  {
    if a.Claim? || a.AbortClaim? then a.t else pc.t
  }

  /** The row a step stores, the log record it appends and where the committer then stands. */
  datatype Effect = Effect(row: TxnState, logs: seq<WalRecord>, next: CommitPc)

  function EffectOf(s: Sys, a: CommitAction): Effect
    requires CommitEnabled(s, a)
  {
    var pc, t, row := s.commit, Target(s.commit, a), s.st.txns[Target(s.commit, a)];
    match a
    case Claim(_) => Effect(row.(status := Committing), [], Claimed(t))
    case FindCycle => Effect(row, [], Rejecting(t))
    case CheckChains => Effect(row, [], if SnapshotConflict(s.st, t) then Rejecting(t) else Checked(t, pc.v))
    case StoreIntent => Effect(row.(alloc := Uniform(row.writeKeys, pc.v)), [], Intended(t, pc.v))
    case LogDone => Effect(row, [LogCommitted(t, pc.v)], WalDone(t, pc.v))
    case LogResult => Effect(row, [LogCommitResult(t, pc.v)], ResultDone(t, pc.v))
    case StoreCommitted => Effect(row.(status := Committed), [], Unpinning(t))
    case LogReject => Effect(row, [LogAborted(t)], Rejected(t))
    case StoreRejected => Effect(row.(status := Aborted), [], Unpinning(t))
    case Fail => Effect(row, [], Failed(t))
    case Reconcile(logs) =>
      Effect(row, [], if ReconcileFindsPublished(s.st, t) then FixUp(t) else if logs then Rejecting(t) else Rejected(t))
    case StoreFixed => Effect(row.(status := Committed), [], Unpinning(t))
    case AbortClaim(_) => Effect(row.(status := Aborted), [], AbortCleaning(t))
    case AbortLog => Effect(row, [LogAborted(t)], Unpinning(t))
  }

  function Perform(s: Sys, t: string, e: Effect): Sys {
    s.(st := s.st.(wal := s.st.wal + e.logs, txns := s.st.txns[t := e.row]), commit := e.next)
  }

  function CommitNext(s: Sys, a: CommitAction): Sys
    requires CommitEnabled(s, a)
  {
    Perform(s, Target(s.commit, a), EffectOf(s, a))
  }

  predicate AllocateEnabled(s: Sys) {
    s.mode.Running? && s.commit.Claimed? && s.commit.t in s.st.txns && s.st.globalVersion < U64_MAX
  }

  /** One commit version for the whole transaction; an empty one does not advance the counter. */
  function AllocateNext(s: Sys): Sys
    requires AllocateEnabled(s)
  {
    var t := s.commit.t;
    if s.st.txns[t].writeKeys == {} then s.(commit := Allocated(t, s.st.txns[t].snapshot))
    else
      var next := NextVersion(s.st);
      s.(st := next, commit := Allocated(t, next.globalVersion),
         h := s.h.(allocVer := s.h.allocVer[t := next.globalVersion]))
  }

  predicate LogIntentEnabled(s: Sys) {
    s.mode.Running? && s.commit.Checked? && s.commit.t in s.st.txns
  }

  function LogIntentNext(s: Sys): Sys
    requires LogIntentEnabled(s)
  {
    var t := s.commit.t;
    s.(st := AppendWal(s.st, LogCommitting(t, s.st.txns[t].writeKeys)),
       commit := Logged(t, s.commit.v),
       h := s.h.(intent := s.h.intent[t := |s.st.wal|]))
  }

  predicate ReleasePinEnabled(s: Sys) {
    s.mode.Running? && s.commit.Unpinning? && s.commit.t in s.st.txns
  }

  function ReleasePinNext(s: Sys): Sys
    requires ReleasePinEnabled(s)
  {
    var t := s.commit.t;
    s.(st := ReleaseSnapshot(s.st, s.st.txns[t].snapshot), commit := Idle, h := Release(s.h, TxnHolder(t)))
  }

  predicate AbortCleanEnabled(s: Sys) {
    s.mode.Running? && s.commit.AbortCleaning? && s.commit.t in s.st.txns
  }

  function AbortCleanNext(s: Sys): Sys
    requires AbortCleanEnabled(s)
  {
    s.(st := DropWrites(s.st, s.commit.t), commit := AbortLogging(s.commit.t))
  }

  // ---------- Publishing: the one atomic append over all written keys ----------

  function Extend(log: map<string, Entries>, batch: map<string, VersionEntry>): map<string, Entries> {
    map k | k in log.Keys + batch.Keys ::
      if k in batch then ChainOf(log, k) + [batch[k]] else log[k]
  }

  predicate PublishEnabled(s: Sys) {
    s.mode.Running? && s.commit.Intended? && s.commit.t in s.st.txns
  }

  function PublishNext(s: Sys): Sys
    requires PublishEnabled(s)
  {
    var st, pc := s.st, s.commit;
    var batch, snapshot := Batch(st, pc.t, pc.v), st.txns[pc.t].snapshot;
    if !CanAppend(st.chains, batch, snapshot) then s.(commit := Failed(pc.t))
    else if st.txns[pc.t].writeKeys == {} then s.(commit := Appended(pc.t, pc.v))
    else
      s.(st := st.(chains := AppendAll(st.chains, batch, snapshot)),
         commit := Appended(pc.t, pc.v),
         h := s.h.(log := Extend(s.h.log, batch), pub := s.h.pub[pc.t := pc.v]))
  }

  // ---------- Background steps ----------

  /** Entries enter a memtable after their transaction's row says Committed, under its version as sequence number. */
  predicate CommittedAt(s: Sys, v: u64) {
    exists t :: t in s.h.pub && s.h.pub[t] == v && HasStatus(s.st, t, Committed)
  }

  predicate BackgroundEnabled(s: Sys, a: BackgroundAction) {
    s.mode.Running? &&
    match a
    case SweepClaim(t) => HasStatus(s.st, t, Active)
    case SweepClean(t) => t in s.sweeps && s.sweeps[t].Cleaning?
    case SweepLog(t) => t in s.sweeps && s.sweeps[t].Logging?
    case SweepRelease(t) => t in s.sweeps && s.sweeps[t].Releasing? && t in s.st.txns
    case Gc(m) => forall p :: p in s.st.pins ==> m <= p
    case LogFlush(upTo) => CommittedAt(s, upTo)
    case Truncate(upTo) => CommittedAt(s, upTo)
  }

  function BackgroundNext(s: Sys, a: BackgroundAction): Sys
    requires BackgroundEnabled(s, a)
  {
    var st := s.st;
    match a
    case SweepClaim(t) => s.(st := SetStatus(st, t, Aborted), sweeps := s.sweeps[t := Cleaning])
    case SweepClean(t) => s.(st := DropWrites(st, t), sweeps := s.sweeps[t := Logging])
    case SweepLog(t) => s.(st := AppendWal(st, LogAborted(t)), sweeps := s.sweeps[t := Releasing])
    case SweepRelease(t) =>
      s.(st := ReleaseSnapshot(st, st.txns[t].snapshot), sweeps := s.sweeps - {t},
         h := Release(s.h, TxnHolder(t)))
    case Gc(m) =>
      var reach := if m <= st.globalVersion then m else st.globalVersion;
      s.(st := st.(chains := PruneAll(st.chains, m)),
         h := s.h.(horizon := if reach <= s.h.horizon then s.h.horizon else reach))
    case LogFlush(upTo) => s.(st := AppendWal(st, LogMemtableFlushed(upTo)))
    case Truncate(upTo) => s.(st := TruncateWal(st, upTo))
  }

  // ---------- Crash and recovery ----------

  predicate CrashEnabled(s: Sys) {
    s.st.walFloor <= |s.st.wal|
  }

  function CrashNext(s: Sys): Sys
    requires CrashEnabled(s)
  {
    var logged := WalTxns(Surviving(s.st));
    var cut := if s.mode.Recovering? then s.h.cut
               else if InCommitting(s.commit) then Some(s.commit.t) else None;
    Sys(s.st, Recovering(logged, Choose), Idle, map[], map[], map[],
        s.h.(holds := map[], quiet := {}, crashed := true,
             cut := cut, cutLogged := cut.Some? && cut.value in logged))
  }

  predicate RecoverEnabled(s: Sys, a: RecoverAction) {
    && s.mode.Recovering?
    && s.st.walFloor <= |s.st.wal|
    && match a
       case Pick(t) => s.mode.pc.Choose? && t in s.mode.todo
       case Proceed => !s.mode.pc.Choose? && s.mode.pc.t in s.st.txns
       case Resume => s.mode.pc.Choose? && s.mode.todo == {}
  }

  /** What recovery decides about one transaction it finds in the log. */
  function Decide(st: Store, t: string): RecoveryPc
    requires st.walFloor <= |st.wal|
  {
    if t !in st.txns || Terminal(st.txns[t].status) then Choose
    else match LastStatus(Surviving(st), t)
      case Some(Active) => UndoClean(t)
      case Some(Committing) => if RecoveryFindsPublished(st, t) then AdoptLog(t) else UndoClean(t)
      case _ => Choose
  }

  ghost function RecoverNext(s: Sys, a: RecoverAction): Sys
    requires RecoverEnabled(s, a)
  {
    var st := s.st;
    match a
    case Pick(t) =>
      s.(mode := Recovering(s.mode.todo - {t}, Decide(st, t)))
    case Proceed =>
      var t := s.mode.pc.t;
      var (next, pc) := match s.mode.pc
        case UndoClean(_) => (DropWrites(st, t), UndoLog(t))
        case UndoLog(_) => (AppendWal(st, LogAborted(t)), UndoUnpin(t))
        case UndoUnpin(_) => (ReleaseSnapshot(st, st.txns[t].snapshot), UndoStore(t))
        case UndoStore(_) => (SetStatus(st, t, Aborted), Choose)
        case AdoptLog(_) => (AppendWal(st, LogCommitted(t, CommitVersionOf(st.txns[t]))), AdoptResult(t))
        case AdoptResult(_) => (AppendWal(st, LogCommitResult(t, CommitVersionOf(st.txns[t]))), AdoptStore(t))
        case AdoptStore(_) => (SetStatus(st, t, Committed), Choose);
      s.(st := next, mode := Recovering(s.mode.todo, pc))
    case Resume =>
      var passed := if s.h.cut.Some? && !s.h.cutLogged then {s.h.cut.value} else {};
      s.(mode := Running, h := s.h.(cut := None, lost := s.h.lost + passed))
  }

  // ---------- Steps and runs ----------

  predicate Enabled(s: Sys, a: Action) {
    match a
    case Client(c) => ClientEnabled(s, c)
    case Commit(m) => CommitEnabled(s, m)
    case Allocate => AllocateEnabled(s)
    case LogIntent => LogIntentEnabled(s)
    case Publish => PublishEnabled(s)
    case ReleasePin => ReleasePinEnabled(s)
    case AbortClean => AbortCleanEnabled(s)
    case Background(b) => BackgroundEnabled(s, b)
    case Crash => CrashEnabled(s)
    case Recover(r) => RecoverEnabled(s, r)
  }

  ghost function Next(s: Sys, a: Action): Sys
    requires Enabled(s, a)
  {
    match a
    case Client(c) => ClientNext(s, c)
    case Commit(m) => CommitNext(s, m)
    case Allocate => AllocateNext(s)
    case LogIntent => LogIntentNext(s)
    case Publish => PublishNext(s)
    case ReleasePin => ReleasePinNext(s)
    case AbortClean => AbortCleanNext(s)
    case Background(b) => BackgroundNext(s, b)
    case Crash => CrashNext(s)
    case Recover(r) => RecoverNext(s, r)
  }

  ghost predicate Run(s: Sys, acts: seq<Action>, t: Sys)
    decreases |acts|
  {
    if acts == [] then s == t
    else Enabled(s, acts[0]) && Run(Next(s, acts[0]), acts[1..], t)
  }

  /** Some run leads from one state to the other. */
  ghost predicate Leads(s: Sys, s': Sys) {
    exists acts :: Run(s, acts, s')
  }

  ghost predicate Reachable(s: Sys) {
    Leads(Init, s)
  }

  lemma {:induction false} RunThen(s: Sys, acts: seq<Action>, mid: Sys, more: seq<Action>, s': Sys)
    requires Run(s, acts, mid) && Run(mid, more, s')
    ensures Run(s, acts + more, s')
    decreases |acts|
  {
    hide Next, Enabled;
    if acts == [] {
      assert acts + more == more;
    } else {
      assert (acts + more)[1..] == acts[1..] + more;
      RunThen(Next(s, acts[0]), acts[1..], mid, more, s');
    }
  }

  lemma LeadsSelf(s: Sys)
    ensures Leads(s, s)
  {
    assert Run(s, [], s);
  }

  lemma LeadsOn(s: Sys, mid: Sys, s': Sys)
    requires Leads(s, mid) && Leads(mid, s')
    ensures Leads(s, s')
  {
    var a :| Run(s, a, mid);
    var b :| Run(mid, b, s');
    RunThen(s, a, mid, b, s');
  }

  lemma LeadsStep(s: Sys, a: Action)
    requires Enabled(s, a)
    ensures Leads(s, Next(s, a))
  {
    hide Next, Enabled;
    assert Run(Next(s, a), [], Next(s, a));
    assert Run(s, [a], Next(s, a));
  }
}
