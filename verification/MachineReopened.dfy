/**
 Exactly when an abort that the log records can still turn into a commit: the undo was cut before it stored the row,
 nobody has overtaken the transaction on its keys, and a version is left for it.
 */
module MachineReopened {
  import opened Primitives
  import opened VersionChains
  import opened Stores
  import opened Machine
  import opened MachineInvariant
  import opened MachineSteps
  import opened MachineRecovery
  import opened MachineOutcomes
  import opened MachineExamples

  /** Some run from here ends with the transaction recorded Committed. */
  ghost predicate CommitsLater(s: Sys, t: string) {
    exists s' :: Leads(s, s') && RecordedCommitted(s', t)
  }

  predicate RecordedCommitted(s: Sys, t: string) {
    t in s.st.txns && s.st.walFloor <= |s.st.wal| && Outcome(s.st, t) == Some(Committed)
  }

  /** A version is drawn for it already, or can be. */
  predicate VersionLeft(s: Sys, t: string) {
    s.st.globalVersion < U64_MAX || t in s.h.allocVer
  }

  lemma LeadsKeeps(s: Sys, s': Sys)
    requires Inv(s) && InvOrder(s) && Leads(s, s')
    ensures Inv(s') && InvOrder(s')
  {
    hide Inv, InvOrder, Run;
    var acts :| Run(s, acts, s');
    RunOrder(s, acts, s');
  }

  // ---------- Overtaken: never again ----------

  /** Some written key has been committed above the snapshot, counting what GC removed. */
  ghost predicate Overtaken(log: map<string, Entries>, row: TxnState) {
    exists k :: k in row.writeKeys && k in log && log[k] != [] && Latest(log[k]) > row.snapshot
  }

  /** It can never be published any more. */
  ghost predicate Barred(s: Sys, t: string) {
    && t in s.st.txns && t !in s.h.pub && s.st.txns[t].writeKeys != {}
    && (Overtaken(s.h.log, s.st.txns[t]) || !VersionLeft(s, t))
  }

  lemma ConflictIsOvertaken(s: Sys, t: string)
    requires ChainsFollowLog(s.st.chains, s.h.log) && t in s.st.txns
    ensures SnapshotConflict(s.st, t) <==> Overtaken(s.h.log, s.st.txns[t])
  {
    forall k | k in s.st.chains
      ensures Latest(s.st.chains[k]) == Latest(s.h.log[k]) && s.st.chains[k] != [] && s.h.log[k] != []
    {
      assert IsSuffix(s.st.chains[k], s.h.log[k]);
    }
  }

  /** What a step does to history and versions: only a publishing commit extends them, above all that was there. */
  ghost predicate Grows(s: Sys, s': Sys, t: string) {
    && (t in s'.h.pub ==> t in s.h.pub)
    && s.st.globalVersion <= s'.st.globalVersion
    && (t in s'.h.allocVer ==> t in s.h.allocVer || s.st.globalVersion < U64_MAX)
    && forall k :: k in s.h.log && s.h.log[k] != [] ==>
         k in s'.h.log && s'.h.log[k] != [] && Latest(s.h.log[k]) <= Latest(s'.h.log[k])
  }

  lemma BarredKept(s: Sys, s': Sys, t: string)
    requires Barred(s, t) && Grows(s, s', t) && RowsMove(s.st.txns, s'.st.txns)
    ensures Barred(s', t)
  {
    assert RowMoves(s.st.txns[t], s'.st.txns[t]);
    if Overtaken(s.h.log, s.st.txns[t]) {
      var k :| k in s.st.txns[t].writeKeys && k in s.h.log && s.h.log[k] != [] && Latest(s.h.log[k]) > s.st.txns[t].snapshot;
      assert k in s'.st.txns[t].writeKeys && Latest(s'.h.log[k]) > s'.st.txns[t].snapshot;
    }
  }

  ghost predicate Quiet(s: Sys, s': Sys) {
    s'.h.pub == s.h.pub && s'.h.log == s.h.log && s'.h.allocVer == s.h.allocVer && s'.st.globalVersion == s.st.globalVersion
  }

  lemma ClientQuiet(s: Sys, c: ClientAction)
    requires ClientEnabled(s, c)
    ensures Quiet(s, ClientNext(s, c))
  {
  }

  lemma CommitQuiet(s: Sys, m: CommitAction)
    requires CommitEnabled(s, m)
    ensures Quiet(s, CommitNext(s, m))
  {
    hide EffectOf;
  }

  lemma BackgroundQuiet(s: Sys, b: BackgroundAction)
    requires BackgroundEnabled(s, b)
    ensures Quiet(s, BackgroundNext(s, b))
  {
    hide CommittedAt;
  }

  lemma RecoverQuiet(s: Sys, r: RecoverAction)
    requires RecoverEnabled(s, r)
    ensures Quiet(s, RecoverNext(s, r))
  {
    hide Decide, CommitVersionOf;
  }

  /** Whoever publishes is neither overtaken nor without a version. */
  lemma PublisherIsFree(s: Sound)
    requires Publishes(s)
    ensures !Overtaken(s.h.log, s.st.txns[s.commit.t]) && s.commit.t in s.h.allocVer
  {
    hide InvWal, InvRecovery, PubOk, RowsOk, IdsOk, AppendAll;
    var row := s.st.txns[s.commit.t];
    forall k | k in row.writeKeys
      ensures !Conflicts(ChainOf(s.st.chains, k), row.snapshot)
    {
      assert k in Batch(s.st, s.commit.t, s.commit.v);
    }
    ConflictIsOvertaken(s, s.commit.t);
  }

  lemma LogGrows(s: Sound, k: string)
    requires Publishes(s) && k in s.h.log && s.h.log[k] != []
    ensures var log' := Extend(s.h.log, Batch(s.st, s.commit.t, s.commit.v));
            k in log' && log'[k] != [] && Latest(s.h.log[k]) <= Latest(log'[k])
  {
    hide CanAppend, InvWal, InvRecovery, RowsOk, IdsOk;
    var last := s.h.log[k][|s.h.log[k]| - 1];
    assert last in s.h.log[k];
    EntryIsKnown(s, k, last);
  }

  lemma PublishGrows(s: Sound, t: string)
    requires PublishEnabled(s) && Barred(s, t)
    ensures Grows(s, PublishNext(s), t)
  {
    hide PublishNext, CanAppend, AppendAll, Batch, Extend, InvTables, InvCommit, InvPub, InvWal, InvRecovery, Overtaken;
    if Publishes(s) {
      PublishNextIs(s);
      PublisherIsFree(s);
      forall k | k in s.h.log && s.h.log[k] != []
        ensures var log' := PublishNext(s).h.log; k in log' && log'[k] != [] && Latest(s.h.log[k]) <= Latest(log'[k])
      {
        LogGrows(s, k);
      }
    } else {
      PublishNothing(s);
    }
  }

  lemma StepGrows(s: Sound, a: Action, t: string)
    requires Enabled(s, a) && Barred(s, t)
    ensures Grows(s, Next(s, a), t)
  {
    hide ClientNext, CommitNext, PublishNext, BackgroundNext, RecoverNext, Barred;
    hide InvTables, InvCommit, InvPub, InvWal, InvRecovery, WalTxns;
    match a
    case Client(c) => ClientQuiet(s, c);
    case Commit(m) => CommitQuiet(s, m);
    case Background(b) => BackgroundQuiet(s, b);
    case Recover(r) => RecoverQuiet(s, r);
    case Publish => PublishGrows(s, t);
    case _ =>
  }

  lemma {:induction false} RunBarred(s: Sys, acts: seq<Action>, s': Sys, t: string)
    requires Inv(s) && InvOrder(s) && Run(s, acts, s') && Barred(s, t)
    ensures Inv(s') && InvOrder(s') && Barred(s', t)
    decreases |acts|
  {
    if acts != [] {
      hide Next, Enabled, InvCounts, InvCore, InvLost, InvOrder, Barred, Grows, RowsMove, LogStep;
      StepAll(s, acts[0]);
      StepGrows(s, acts[0], t);
      BarredKept(s, Next(s, acts[0]), t);
      RunBarred(Next(s, acts[0]), acts[1..], s', t);
    }
  }

  lemma BarredNeverCommits(s: Sys, t: string)
    requires Inv(s) && InvOrder(s) && Barred(s, t)
    ensures !CommitsLater(s, t)
  {
    hide InvCounts, InvCore, InvLost, InvOrder, Run, Outcome;
    forall s' | Leads(s, s')
      ensures !RecordedCommitted(s', t)
    {
      var acts :| Run(s, acts, s');
      RunBarred(s, acts, s', t);
      UnpublishedIsNot(s', t);
    }
  }

  lemma UnpublishedIsNot(s: Sys, t: string)
    requires InvCore(s) && InvOrder(s) && t in s.st.txns && t !in s.h.pub && s.st.txns[t].writeKeys != {}
    ensures !RecordedCommitted(s, t)
  {
    ViewOf(s, t);
    hide InvCore, LastStatus;
    if s.st.walFloor <= |s.st.wal| {
      OutcomeIsTrue(s, t);
    }
  }

  // ---------- Not overtaken: a run to its commit ----------

  /** With an intent written down and nobody in the way, the append goes through and the commit ends. */
  lemma IntendedCommits(s0: Sys, s: Sys)
    requires Leads(s0, s) && Inv(s) && s.mode.Running? && s.commit.Intended? && s.commit.t in s.st.txns
    requires s.st.txns[s.commit.t].writeKeys != {} && !SnapshotConflict(s.st, s.commit.t)
    ensures exists s' :: Leads(s0, s') && HasStatus(s'.st, s.commit.t, Committed)
  {
    hide Leads, Inv, CanAppend, Batch, SnapshotConflict;
    CoreOf(s);
    NothingInTheWay(s);
    PublishAndEnd(s0, s);
    EndedIsCommitted(s);
  }

  lemma EndedIsCommitted(s: Sys)
    requires s.commit.Intended? && s.commit.t in s.st.txns
    requires CanAppend(s.st.chains, Batch(s.st, s.commit.t, s.commit.v), s.st.txns[s.commit.t].snapshot)
    ensures HasStatus(Ended(s).st, s.commit.t, Committed)
  {
    hide CanAppend, Batch, AppendAll, Extend;
  }

  lemma NothingInTheWay(s: Sound)
    requires s.commit.Intended? && s.commit.t in s.st.txns
    requires s.st.txns[s.commit.t].writeKeys != {} && !SnapshotConflict(s.st, s.commit.t)
    ensures CanAppend(s.st.chains, Batch(s.st, s.commit.t, s.commit.v), s.st.txns[s.commit.t].snapshot)
  {
    hide InvWal, InvRecovery, RowsOk, IdsOk, PubOk;
    var t, batch := s.commit.t, Batch(s.st, s.commit.t, s.commit.v);
    forall k | k in batch
      ensures AppendOne(ChainOf(s.st.chains, k), batch[k], s.st.txns[t].snapshot).Some?
    {
      var c := ChainOf(s.st.chains, k);
      assert !Conflicts(c, s.st.txns[t].snapshot);
      if c != [] {
        assert IsSuffix(s.st.chains[k], s.h.log[k]);
        assert c[|c| - 1] == s.h.log[k][|s.h.log[k]| - 1];
        EntryIsOlder(s, k, c[|c| - 1]);
      }
    }
  }

  /** From the drawn version on. */
  lemma DrawnCommits(s0: Sys, s: Sys)
    requires Leads(s0, s) && Inv(s) && InvOrder(s) && s.mode.Running? && (s.commit.Allocated? || s.commit.Checked?)
    requires s.commit.t in s.st.txns && s.st.txns[s.commit.t].writeKeys != {} && !SnapshotConflict(s.st, s.commit.t)
    ensures exists s' :: Leads(s0, s') && HasStatus(s'.st, s.commit.t, Committed)
  {
    hide Leads, Inv, InvOrder, SnapshotConflict, Uniform;
    var s1 := Ready(s);
    LeadsSelf(s);
    if s.commit.Allocated? {
      CheckAndLog(s, s);
      CheckAndLog(s0, s);
    } else {
      LogAndStore(s, s);
      LogAndStore(s0, s);
    }
    LeadsKeeps(s, s1);
    SameConflict(s.st, s1.st, s.commit.t);
    IntendedCommits(s0, s1);
  }

  lemma SameConflict(st: Store, st': Store, t: string)
    requires t in st.txns && t in st'.txns && st'.chains == st.chains
    requires st'.txns[t].writeKeys == st.txns[t].writeKeys && st'.txns[t].snapshot == st.txns[t].snapshot
    ensures SnapshotConflict(st', t) == SnapshotConflict(st, t)
  {
  }

  /** From the claim on. */
  lemma ClaimedCommits(s0: Sys, s: Sys)
    requires Leads(s0, s) && Inv(s) && InvOrder(s) && s.mode.Running? && s.commit.Claimed? && s.st.globalVersion < U64_MAX
    requires s.commit.t in s.st.txns && s.st.txns[s.commit.t].writeKeys != {} && !SnapshotConflict(s.st, s.commit.t)
    ensures exists s' :: Leads(s0, s') && HasStatus(s'.st, s.commit.t, Committed)
  {
    hide Leads, Inv, InvOrder, SnapshotConflict;
    var s1 := AllocateNext(s);
    LeadsSelf(s);
    StepReaches(s, s, Allocate, s1);
    StepReaches(s0, s, Allocate, s1);
    LeadsKeeps(s, s1);
    SameConflict(s.st, s1.st, s.commit.t);
    DrawnCommits(s0, s1);
  }

  /** From an active row, with nobody committing. */
  lemma ActiveCommits(s0: Sys, s: Sys, t: string)
    requires Leads(s0, s) && Inv(s) && InvOrder(s) && s.mode.Running? && s.commit.Idle? && s.st.globalVersion < U64_MAX
    requires HasStatus(s.st, t, Active) && t in s.h.begun && s.st.txns[t].writeKeys != {} && !SnapshotConflict(s.st, t)
    ensures exists s' :: Leads(s0, s') && HasStatus(s'.st, t, Committed)
  {
    hide Leads, Inv, InvOrder, SnapshotConflict;
    var s1 := CommitNext(s, Claim(t));
    LeadsSelf(s);
    CommitReaches(s, s, Claim(t));
    CommitReaches(s0, s, Claim(t));
    LeadsKeeps(s, s1);
    SameConflict(s.st, s1.st, t);
    ClaimedCommits(s0, s1);
  }

  // ---------- Recovery leaves it active ----------

  /** Its abort is in the log and its row is still active. */
  predicate Parked(s: Sys, t: string) {
    && HasStatus(s.st, t, Active) && t in s.h.begun && s.st.walFloor <= |s.st.wal|
    && LastStatus(Surviving(s.st), t) == Some(Aborted)
    && s.mode.Recovering? && (s.mode.pc.Choose? || s.mode.pc.t != t)
  }

  /** Nothing about it has changed. */
  predicate SameFor(s: Sys, s': Sys, t: string) {
    && t in s.st.txns && t in s'.st.txns && s'.st.txns[t] == s.st.txns[t]
    && s'.st.chains == s.st.chains && s'.st.globalVersion == s.st.globalVersion && s'.h.begun == s.h.begun
  }

  lemma PickParked(s: Sys, t: string, u: string)
    requires Parked(s, t) && RecoverEnabled(s, Pick(u))
    ensures Parked(RecoverNext(s, Pick(u)), t) && SameFor(s, RecoverNext(s, Pick(u)), t)
  {
    hide RecoveryFindsPublished;
  }

  lemma ProceedParked(s: Sys, t: string)
    requires Parked(s, t) && RecoverEnabled(s, Proceed)
    ensures Parked(RecoverNext(s, Proceed), t) && SameFor(s, RecoverNext(s, Proceed), t)
  {
    hide RecoverNext, LastStatus, ProceedLogs;
    ProceedShape(s, t);
    var s', w := RecoverNext(s, Proceed), Surviving(s.st);
    if ProceedLogs(s) == [] {
      assert s'.st.wal == s.st.wal;
    } else {
      var r := ProceedLogs(s)[0];
      assert Surviving(s'.st) == w + [r];
      LastStatusAppend(w, r, t);
    }
  }

  lemma ProceedShape(s: Sys, t: string)
    requires RecoverEnabled(s, Proceed) && t in s.st.txns && t != s.mode.pc.t
    ensures var s' := RecoverNext(s, Proceed);
            && s'.st.wal == s.st.wal + ProceedLogs(s) && s'.st.walFloor == s.st.walFloor && |ProceedLogs(s)| <= 1
            && (ProceedLogs(s) != [] ==> About(ProceedLogs(s)[0], s.mode.pc.t))
            && s'.st.chains == s.st.chains && s'.st.globalVersion == s.st.globalVersion && s'.h.begun == s.h.begun
            && t in s'.st.txns && s'.st.txns[t] == s.st.txns[t]
            && s'.mode.Recovering? && (s'.mode.pc.Choose? || s'.mode.pc.t == s.mode.pc.t)
  {
    hide RecoverNext, ProceedLogs;
    ProceedMode(s);
    ProceedRow(s, t);
    ProceedLog(s);
  }

  lemma ProceedMode(s: Sys)
    requires RecoverEnabled(s, Proceed)
    ensures var s' := RecoverNext(s, Proceed);
            && s'.mode.Recovering? && (s'.mode.pc.Choose? || s'.mode.pc.t == s.mode.pc.t) && s'.h.begun == s.h.begun
  {
    hide CommitVersionOf;
  }

  lemma ProceedRow(s: Sys, t: string)
    requires RecoverEnabled(s, Proceed) && t in s.st.txns && t != s.mode.pc.t
    ensures var s' := RecoverNext(s, Proceed);
            && s'.st.chains == s.st.chains && s'.st.globalVersion == s.st.globalVersion
            && t in s'.st.txns && s'.st.txns[t] == s.st.txns[t]
  {
    hide CommitVersionOf;
  }

  lemma ProceedLog(s: Sys)
    requires RecoverEnabled(s, Proceed)
    ensures var s' := RecoverNext(s, Proceed);
            && s'.st.wal == s.st.wal + ProceedLogs(s) && s'.st.walFloor == s.st.walFloor && |ProceedLogs(s)| <= 1
            && (ProceedLogs(s) != [] ==> About(ProceedLogs(s)[0], s.mode.pc.t))
  {
    hide CommitVersionOf;
  }

  lemma NextRecovery(s: Sys) returns (r: RecoverAction)
    requires InvRecovery(s) && s.mode.Recovering?
    ensures RecoverEnabled(s, r) && (r.Resume? ==> s.mode == Recovering({}, Choose))
  {
    if !s.mode.pc.Choose? {
      r := Proceed;
    } else if s.mode.todo == {} {
      r := Resume;
    } else {
      var u :| u in s.mode.todo;
      r := Pick(u);
    }
  }

  lemma {:induction false} RecoverToEnd(s0: Sys, s: Sys, t: string) returns (s': Sys)
    requires Leads(s0, s) && Inv(s) && InvOrder(s) && Parked(s, t)
    ensures Leads(s0, s') && Inv(s') && InvOrder(s') && s'.mode.Running? && s'.commit.Idle? && SameFor(s, s', t)
    decreases Rank(s.mode)
  {
    hide Leads, InvOrder, InvCounts, InvTables, InvCommit, InvPub, InvWal, InvLost, RecoverNext, RecoverEnabled, Rank, LastStatus, WalTxns;
    var r := NextRecovery(s);
    var n := RecoverNext(s, r);
    StepReaches(s0, s, Recover(r), n);
    StepAll(s, Recover(r));
    if r.Resume? {
      ResumeEnds(s, t);
      s' := n;
    } else {
      if r.Pick? { PickParked(s, t, r.t); } else { ProceedParked(s, t); }
      RecoveryNears(s, r);
      s' := RecoverToEnd(s0, n, t);
    }
  }

  lemma ResumeEnds(s: Sys, t: string)
    requires RecoverEnabled(s, Resume) && InvRecovery(s) && t in s.st.txns
    ensures RecoverNext(s, Resume).mode.Running? && RecoverNext(s, Resume).commit.Idle? && SameFor(s, RecoverNext(s, Resume), t)
  {
  }

  // ---------- Exactly when ----------

  lemma OpenAndBegun(s: Sys, t: string)
    requires InvOrder(s) && t in s.st.txns && s.st.walFloor <= |s.st.wal| && !Terminal(s.st.txns[t].status)
    requires LastStatus(Surviving(s.st), t) == Some(Aborted)
    ensures t in s.h.begun
  {
    var w := Surviving(s.st);
    NoneAbout(w, t);
    StatusOfLast(w, t);
    var p := AboutExists(w, t);
    assert w[p] == s.st.wal[s.st.walFloor + p] && RecordBegun(s.st.wal[s.st.walFloor + p], s.h.begun, s.st.txns);
  }

  lemma CrashParked(s: Sys, t: string)
    requires HasStatus(s.st, t, Active) && t in s.h.begun && s.st.walFloor <= |s.st.wal|
    requires LastStatus(Surviving(s.st), t) == Some(Aborted)
    ensures Parked(CrashNext(s), t) && SameFor(s, CrashNext(s), t)
  {
  }

  lemma ActiveIsOpen(s: Sys, t: string)
    requires Inv(s) && InvOrder(s) && HasStatus(s.st, t, Active) && s.st.txns[t].writeKeys != {}
    requires s.st.walFloor <= |s.st.wal| && LastStatus(Surviving(s.st), t) == Some(Aborted)
    requires !SnapshotConflict(s.st, t) && s.st.globalVersion < U64_MAX
    ensures exists s' :: Leads(s, s') && HasStatus(s'.st, t, Committed)
  {
    hide Leads, Inv, InvOrder, SnapshotConflict, LastStatus, WalTxns, Parked, CrashNext;
    var s1 := CrashNext(s);
    OpenAndBegun(s, t);
    CrashParked(s, t);
    LeadsSelf(s);
    StepReaches(s, s, Crash, s1);
    LeadsKeeps(s, s1);
    var s2 := RecoverToEnd(s, s1, t);
    SameConflict(s.st, s2.st, t);
    ActiveCommits(s, s2, t);
  }

  lemma EarlyIsOpen(s: Sys, t: string)
    requires Inv(s) && InvOrder(s) && Early(s.commit, t) && t in s.st.txns && s.st.txns[t].writeKeys != {}
    requires s.st.walFloor <= |s.st.wal| && LastStatus(Surviving(s.st), t) == Some(Aborted)
    requires !SnapshotConflict(s.st, t) && VersionLeft(s, t)
    ensures exists s' :: Leads(s, s') && HasStatus(s'.st, t, Committed)
  {
    EarlyIsUnlogged(s, t);
    hide Leads, Inv, InvOrder, SnapshotConflict, LastStatus;
    LeadsSelf(s);
    if s.commit.Claimed? {
      ClaimedCommits(s, s);
    } else {
      DrawnCommits(s, s);
    }
  }

  /** An abort as the log's last word means the intent is not logged yet. */
  lemma EarlyIsUnlogged(s: Sound, t: string)
    requires Early(s.commit, t) && s.st.walFloor <= |s.st.wal| && LastStatus(Surviving(s.st), t) == Some(Aborted)
    ensures s.mode.Running? && !s.commit.Logged? && !s.commit.Intended?
    ensures s.commit.Claimed? ==> t !in s.h.allocVer
    ensures t !in s.h.pub && t in s.st.txns
  {
    hide InvPub, InvTables, InvWal, Settled, RecoveryPcOk;
    StatusFromSuffix(s.st.wal, s.st.walFloor, t);
    StatusOfLast(s.st.wal, t);
  }

  lemma ActiveIsUnpublished(s: Sound, t: string)
    requires HasStatus(s.st, t, Active)
    ensures t !in s.h.pub && t !in s.h.allocVer
  {
    ViewOf(s, t);
    hide InvCore;
  }

  lemma FixedNeverCommits(s: Sys, t: string)
    requires Inv(s) && InvOrder(s) && Fixed(s, t, Aborted)
    ensures !CommitsLater(s, t)
  {
    hide Inv, InvOrder, Run, Outcome;
    forall s' | Leads(s, s')
      ensures !RecordedCommitted(s', t)
    {
      var acts :| Run(s, acts, s');
      RunFixed(s, acts, s', t, Aborted);
      LeadsKeeps(s, s');
      CoreOf(s');
      UnpublishedIsNot(s', t);
    }
  }

  lemma CoreOf(s: Sys)
    requires Inv(s)
    ensures InvCore(s)
  {
    hide InvCore;
  }

  lemma OpenSides(s: Sys, t: string)
    requires Inv(s) && InvOrder(s) && t in s.st.txns && s.st.txns[t].writeKeys != {} && s.st.walFloor <= |s.st.wal|
    requires Outcome(s.st, t) == Some(Aborted) && Reopened(s, t)
    ensures LastStatus(Surviving(s.st), t) == Some(Aborted) && t !in s.h.pub
    ensures HasStatus(s.st, t, Active) || s.commit.Claimed? ==> t !in s.h.allocVer
    ensures ChainsFollowLog(s.st.chains, s.h.log)
  {
    hide Inv, InvOrder, InvCore, LastStatus, ChainsFollowLog;
    CoreOf(s);
    OpenRow(s, t);
    FollowsOf(s);
    if HasStatus(s.st, t, Active) {
      ActiveIsUnpublished(s, t);
    } else {
      EarlyIsUnlogged(s, t);
    }
  }

  lemma OpenRow(s: Sound, t: string)
    requires t in s.st.txns && Reopened(s, t)
    ensures !Terminal(s.st.txns[t].status)
  {
    hide InvPub, InvTables, InvWal, InvRecovery;
  }

  lemma FollowsOf(s: Sound)
    ensures ChainsFollowLog(s.st.chains, s.h.log)
  {
    hide InvTables, InvCommit, InvWal, InvRecovery, PubOk, ForeignOk, ChainsFollowLog;
  }

  /**
   From any state of any run, over an empty or a rebuilt store: an outcome recorded Aborted turns into Committed in
   some later state if and only if the transaction was reopened, no written key has been committed above its
   snapshot, and a version is drawn for it or left to draw.
   */
  lemma AbortTurnsExactly(o: Origin, chains: map<string, Entries>, s: Sys, t: string)
    requires ChainsFit(o, chains) && Leads(StartFrom(o, chains), s)
    requires t in s.st.txns && s.st.txns[t].writeKeys != {} && s.st.walFloor <= |s.st.wal| && Outcome(s.st, t) == Some(Aborted)
    ensures CommitsLater(s, t) <==> Reopened(s, t) && !SnapshotConflict(s.st, t) && VersionLeft(s, t)
  {
    hide Inv, InvOrder, ChainsFit, Leads, SnapshotConflict, Outcome, LastStatus;
    StartedOrder(o, chains, s);
    if !Reopened(s, t) {
      FixesHere(s, t);
      FixedNeverCommits(s, t);
    } else {
      OpenSides(s, t);
      ConflictIsOvertaken(s, t);
      if SnapshotConflict(s.st, t) || !VersionLeft(s, t) {
        BarredNeverCommits(s, t);
      } else {
        OpenCommits(s, t);
      }
    }
  }

  lemma FixesHere(s: Sys, t: string)
    requires Inv(s) && InvOrder(s) && t in s.st.txns && s.st.txns[t].writeKeys != {} && s.st.walFloor <= |s.st.wal|
    requires Outcome(s.st, t) == Some(Aborted) && !Reopened(s, t)
    ensures Fixed(s, t, Aborted)
  {
    ViewOf(s, t);
    hide InvCounts, InvCore, InvLost, View, Fixed, Outcome, LastStatus, BegunOk, DecidedOk;
    OutcomeFixes(s, t);
  }

  lemma OpenCommits(s: Sys, t: string)
    requires Inv(s) && InvOrder(s) && t in s.st.txns && s.st.txns[t].writeKeys != {} && s.st.walFloor <= |s.st.wal|
    requires LastStatus(Surviving(s.st), t) == Some(Aborted) && Reopened(s, t)
    requires !SnapshotConflict(s.st, t) && VersionLeft(s, t) && (HasStatus(s.st, t, Active) ==> t !in s.h.allocVer)
    ensures CommitsLater(s, t)
  {
    hide Leads, Inv, InvOrder, SnapshotConflict, LastStatus;
    if HasStatus(s.st, t, Active) {
      ActiveIsOpen(s, t);
    } else {
      EarlyIsOpen(s, t);
    }
    var s' :| Leads(s, s') && HasStatus(s'.st, t, Committed);
    LeadsKeeps(s, s');
    FloorOf(s');
    assert RecordedCommitted(s', t);
  }

  lemma FloorOf(s: Sys)
    requires Inv(s)
    ensures s.st.walFloor <= |s.st.wal|
  {
  }
}
