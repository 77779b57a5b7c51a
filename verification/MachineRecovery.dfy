/** Background, crash and recovery steps keep the invariant; hence every step does. */
module MachineRecovery {
  import opened Primitives
  import opened VersionChains
  import opened Stores
  import opened Machine
  import opened MachineInvariant
  import opened MachineSteps

  // ---------- Background steps ----------

  lemma BackgroundCounts(s: Sys, a: BackgroundAction)
    requires InvCounts(s) && BackgroundEnabled(s, a)
    ensures InvCounts(BackgroundNext(s, a))
  {
  }

  lemma SuffixPruned(c: Entries, full: Entries, m: u64)
    requires IsSuffix(c, full)
    ensures IsSuffix(Pruned(c, m), full)
  {
  }

  lemma GcCore(s: Sound, m: u64)
    requires BackgroundEnabled(s, Gc(m))
    ensures InvCore(BackgroundNext(s, Gc(m)))
  {
    forall k | k in s.st.chains
      ensures IsSuffix(Pruned(s.st.chains[k], m), s.h.log[k])
    {
      SuffixPruned(s.st.chains[k], s.h.log[k], m);
    }
  }

  predicate IsSweep(a: BackgroundAction) {
    a.SweepClaim? || a.SweepClean? || a.SweepLog? || a.SweepRelease?
  }

  function SweepLogs(a: BackgroundAction): seq<WalRecord> {
    if a.SweepLog? then [LogAborted(a.t)] else []
  }

  lemma SweepGood(s: Sys, a: BackgroundAction)
    requires BackgroundEnabled(s, a) && IsSweep(a) && View(s, a.t)
    requires s.commit.Idle? || s.commit.t != a.t
    ensures GoodStep(s, BackgroundNext(s, a), a.t, SweepLogs(a))
  {
    assert BackgroundNext(s, a).st.wal == s.st.wal + SweepLogs(a);
    GrownLast(s.st.wal, BackgroundNext(s, a).st.wal, a.t, SweepLogs(a));
  }

  lemma SweepCore(s: Sound, a: BackgroundAction)
    requires BackgroundEnabled(s, a) && IsSweep(a)
    ensures InvCore(BackgroundNext(s, a))
  {
    ViewOf(s, a.t);
    SweepGood(s, a);
    OneTxnFrame(s, BackgroundNext(s, a), a.t, SweepLogs(a));
    OtherPc(s, BackgroundNext(s, a), a.t, SweepLogs(a));
  }

  lemma FlushCore(s: Sound, upTo: u64)
    requires BackgroundEnabled(s, LogFlush(upTo))
    ensures InvCore(BackgroundNext(s, LogFlush(upTo)))
  {
    var s' := BackgroundNext(s, LogFlush(upTo));
    var bystander := if s.commit.Idle? then "" else s.commit.t + "'";
    var added := [LogMemtableFlushed(upTo)];
    LastAboutAppend(s.st.wal, added[0]);
    ViewOf(s, bystander);
    FlushGood(s, upTo, bystander);
    OneTxnFrame(s, s', bystander, added);
    OtherPc(s, s', bystander, added);
  }

  lemma FlushGood(s: Sys, upTo: u64, bystander: string)
    requires BackgroundEnabled(s, LogFlush(upTo)) && View(s, bystander)
    ensures GoodStep(s, BackgroundNext(s, LogFlush(upTo)), bystander, [LogMemtableFlushed(upTo)])
  {
    LastAboutAppend(s.st.wal, LogMemtableFlushed(upTo));
  }

  lemma TruncateCore(s: Sound, upTo: u64)
    requires BackgroundEnabled(s, Truncate(upTo))
    ensures InvCore(BackgroundNext(s, Truncate(upTo)))
  {
    hide CommittedAt, PubOk, ChainsFollowLog, VersionsOk, RowsOk, IdsOk, WalRowsOk, FlightOk, PcOk, LastStatus, WalTxns;
    CommittedIsKnown(s, upTo);
    var s' := BackgroundNext(s, Truncate(upTo));
    assert InvRecovery(s') by { TruncateRecovery(s, upTo); }
  }

  lemma CommittedIsKnown(s: Sound, v: u64)
    requires CommittedAt(s, v)
    ensures v <= s.st.globalVersion
  {
    hide InvCommit, InvWal, InvRecovery, RowsOk, IdsOk, ChainsFollowLog;
  }

  lemma TruncateRecovery(s: Sys, upTo: u64)
    requires InvRecovery(s) && s.mode.Running?
    ensures InvRecovery(s.(st := TruncateWal(s.st, upTo)))
  {
  }

  lemma BackgroundCore(s: Sound, a: BackgroundAction)
    requires BackgroundEnabled(s, a)
    ensures InvCore(BackgroundNext(s, a))
  {
    match a
    case Gc(m) => GcCore(s, m);
    case LogFlush(upTo) => FlushCore(s, upTo);
    case Truncate(upTo) => TruncateCore(s, upTo);
    case _ => SweepCore(s, a);
  }

  // ---------- Crash ----------

  lemma CrashCore(s: Sound)
    ensures CrashEnabled(s) && InvCore(CrashNext(s))
  {
    assert InFlight(CrashNext(s)) == InFlight(s);
  }

  // ---------- Recovery's decision ----------

  /** A transaction with a surviving record has the same last record in the surviving log as in the full one. */
  lemma SurvivingLast(st: Store, t: string)
    requires st.walFloor <= |st.wal| && t in WalTxns(Surviving(st))
    ensures LastAbout(Surviving(st), t) == LastAbout(st.wal, t) && LastAbout(st.wal, t).Some?
    ensures LastStatus(Surviving(st), t).Some?
  {
    var p := AboutExists(Surviving(st), t);
    assert Surviving(st)[p] == st.wal[st.walFloor + p];
    SuffixSees(st.wal, st.walFloor, st.walFloor + p, t);
    NoneAbout(Surviving(st), t);
    StatusOfLast(Surviving(st), t);
  }

  lemma DecideIsRight(s: Sound, t: string)
    requires t in WalTxns(Surviving(s.st)) && t in s.st.txns && InvLost(s)
    ensures Decide(s.st, t).Choose? ==> Settled(s.st, t)
    ensures !Decide(s.st, t).Choose? ==>
              Decide(s.st, t).t == t && RecoveryPcOk(Decide(s.st, t), s.st.txns[t], LastAbout(s.st.wal, t), s.h.pub)
  {
    SurvivingLast(s.st, t);
    StatusOfLast(Surviving(s.st), t);
    ViewOf(s, t);
    SurvivorIsJudged(s, t);
  }

  lemma SurvivorIsJudged(s: Sound, t: string)
    requires t in s.st.txns && t in WalTxns(Surviving(s.st)) && InvLost(s)
    ensures t in s.h.pub && LastStatus(Surviving(s.st), t) == Some(Committing) && s.st.txns[t].status == Committing ==>
              RecoveryFindsPublished(s.st, t)
    ensures t !in s.h.pub ==> !RecoveryFindsPublished(s.st, t)
  {
    ViewOf(s, t);
    hide InvCommit, InvWal, InvRecovery, RowsOk, IdsOk, WalTxns, LastStatus, LastKeys, LastAbout;
    hide PubOk, ChainsFollowLog, ForeignOk, RecoveryFindsPublished;
    if t !in s.h.pub || (LastStatus(Surviving(s.st), t) == Some(Committing) && s.st.txns[t].status == Committing) {
      SurvivorHasAll(s, t);
      RecoveryIsRight(s, t);
    }
  }

  /** A published survivor without a terminal record is in flight, and its keys are in the log. */
  lemma SurvivorHasAll(s: Sys, t: string)
    requires View(s, t) && t in s.st.txns && t in WalTxns(Surviving(s.st)) && InvLost(s)
    requires t in s.h.pub ==> LastStatus(Surviving(s.st), t) == Some(Committing) && s.st.txns[t].status == Committing
    ensures t in s.h.pub ==> s.h.pub[t] == s.st.globalVersion && LastKeys(Surviving(s.st), t) == s.st.txns[t].writeKeys
  {
    SurvivingLast(s.st, t);
    StatusOfLast(Surviving(s.st), t);
    hide WalTxns, LastAbout;
  }

  lemma PickCore(s: Sound, t: string)
    requires RecoverEnabled(s, Pick(t)) && InvLost(s)
    ensures InvCore(RecoverNext(s, Pick(t)))
  {
    SurvivingLast(s.st, t);
    assert t in s.st.txns;
    DecideIsRight(s, t);
  }

  // ---------- Recovery's writes ----------

  lemma WalTxnsAppend(w: seq<WalRecord>, r: WalRecord)
    ensures WalTxns(w) <= WalTxns(w + [r])
    ensures forall t :: t in WalTxns(w + [r]) && t !in WalTxns(w) ==> About(r, t)
    ensures !r.LogMemtableFlushed? ==> r.txn in WalTxns(w + [r])
    ensures forall t :: !About(r, t) ==> LastStatus(w + [r], t) == LastStatus(w, t)
  {
    assert (w + [r])[..|w|] == w;
    assert forall x :: x in w ==> x in w + [r];
    assert r in w + [r];
  }

  ghost function ProceedLogs(s: Sys): seq<WalRecord>
    requires RecoverEnabled(s, Proceed)
  {
    match s.mode.pc
    case UndoLog(t) => [LogAborted(t)]
    case AdoptLog(t) => [LogCommitted(t, CommitVersionOf(s.st.txns[t]))]
    case AdoptResult(t) => [LogCommitResult(t, CommitVersionOf(s.st.txns[t]))]
    case _ => []
  }

  lemma UndoGood(s: Sys)
    requires RecoverEnabled(s, Proceed) && View(s, s.mode.pc.t) && (s.mode.pc.UndoClean? || s.mode.pc.UndoLog?)
    requires RecoveryPcOk(s.mode.pc, s.st.txns[s.mode.pc.t], LastAbout(s.st.wal, s.mode.pc.t), s.h.pub)
    ensures GoodStep(s, RecoverNext(s, Proceed), s.mode.pc.t, ProceedLogs(s))
  {
    assert RecoverNext(s, Proceed).st.wal == s.st.wal + ProceedLogs(s);
    GrownLast(s.st.wal, RecoverNext(s, Proceed).st.wal, s.mode.pc.t, ProceedLogs(s));
  }

  lemma UndoStoreGood(s: Sys)
    requires RecoverEnabled(s, Proceed) && View(s, s.mode.pc.t) && (s.mode.pc.UndoUnpin? || s.mode.pc.UndoStore?)
    requires RecoveryPcOk(s.mode.pc, s.st.txns[s.mode.pc.t], LastAbout(s.st.wal, s.mode.pc.t), s.h.pub)
    ensures GoodStep(s, RecoverNext(s, Proceed), s.mode.pc.t, ProceedLogs(s))
  {
    assert RecoverNext(s, Proceed).st.wal == s.st.wal + ProceedLogs(s);
    GrownLast(s.st.wal, RecoverNext(s, Proceed).st.wal, s.mode.pc.t, ProceedLogs(s));
  }

  lemma AdoptGood(s: Sys)
    requires RecoverEnabled(s, Proceed) && View(s, s.mode.pc.t) && (s.mode.pc.AdoptLog? || s.mode.pc.AdoptResult?)
    requires RecoveryPcOk(s.mode.pc, s.st.txns[s.mode.pc.t], LastAbout(s.st.wal, s.mode.pc.t), s.h.pub)
    ensures GoodStep(s, RecoverNext(s, Proceed), s.mode.pc.t, ProceedLogs(s))
  {
    assert RecoverNext(s, Proceed).st.wal == s.st.wal + ProceedLogs(s);
    GrownLast(s.st.wal, RecoverNext(s, Proceed).st.wal, s.mode.pc.t, ProceedLogs(s));
  }

  lemma AdoptStoreGood(s: Sys)
    requires RecoverEnabled(s, Proceed) && View(s, s.mode.pc.t) && (s.mode.pc.AdoptStore?)
    requires RecoveryPcOk(s.mode.pc, s.st.txns[s.mode.pc.t], LastAbout(s.st.wal, s.mode.pc.t), s.h.pub)
    ensures GoodStep(s, RecoverNext(s, Proceed), s.mode.pc.t, ProceedLogs(s))
  {
    assert RecoverNext(s, Proceed).st.wal == s.st.wal + ProceedLogs(s);
    GrownLast(s.st.wal, RecoverNext(s, Proceed).st.wal, s.mode.pc.t, ProceedLogs(s));
  }

  /** Writing about one transaction leaves every other one's recorded outcome alone. */
  lemma ProceedOutcomes(s: Sys, u: string)
    requires RecoverEnabled(s, Proceed) && s.mode.pc.t in WalTxns(Surviving(s.st))
    ensures var s' := RecoverNext(s, Proceed);
            && s'.st.walFloor <= |s'.st.wal|
            && WalTxns(Surviving(s'.st)) == WalTxns(Surviving(s.st))
            && (u != s.mode.pc.t && u in s.st.txns && Settled(s.st, u) ==> u in s'.st.txns && Settled(s'.st, u))
  {
    var s', t, w := RecoverNext(s, Proceed), s.mode.pc.t, Surviving(s.st);
    if ProceedLogs(s) != [] {
      var r := ProceedLogs(s)[0];
      assert Surviving(s'.st) == w + [r];
      WalTxnsAppend(w, r);
    }
  }

  lemma ProceedRecovery(s: Sys)
    requires InvRecovery(s) && RecoverEnabled(s, Proceed)
    ensures InvRecovery(RecoverNext(s, Proceed))
  {
    var s', t := RecoverNext(s, Proceed), s.mode.pc.t;
    ProceedOutcomes(s, if s.h.cut.Some? then s.h.cut.value else "");
    GrownLast(s.st.wal, s'.st.wal, t, ProceedLogs(s));
  }

  lemma ProceedCore(s: Sound)
    requires RecoverEnabled(s, Proceed)
    ensures InvCore(RecoverNext(s, Proceed))
  {
    var t := s.mode.pc.t;
    ViewOf(s, t);
    if s.mode.pc.UndoClean? || s.mode.pc.UndoLog? { UndoGood(s); }
    else if s.mode.pc.UndoUnpin? || s.mode.pc.UndoStore? { UndoStoreGood(s); }
    else if s.mode.pc.AdoptStore? { AdoptStoreGood(s); }
    else { AdoptGood(s); }
    OneTxnFrame(s, RecoverNext(s, Proceed), t, ProceedLogs(s));
    ProceedRecovery(s);
  }

  /** When recovery is done, a published transaction without a terminal record is one recovery has passed over. */
  lemma ResumeSettled(s: Sys, t: string)
    requires InvRecovery(s) && InvWal(s) && RecoverEnabled(s, Resume)
    requires t in s.h.pub && t in s.st.txns && s.st.txns[t].status == Committing
    requires LastAbout(s.st.wal, t).Some? && LastAbout(s.st.wal, t).value.LogCommitting?
    ensures t in RecoverNext(s, Resume).h.lost
  {
    assert WalRow(t, s.st.txns[t], s.st.wal, s.h.intent, s.h.pub, Exempt(InFlight(s), s.h.lost));
    if t !in s.h.lost && s.h.cutLogged {
      SurvivingLast(s.st, t);
      StatusOfLast(Surviving(s.st), t);
    }
  }

  lemma ResumeCore(s: Sound)
    requires RecoverEnabled(s, Resume)
    ensures InvCore(RecoverNext(s, Resume))
  {
    var s' := RecoverNext(s, Resume);
    forall t | t in s'.st.txns
      ensures WalRow(t, s'.st.txns[t], s'.st.wal, s'.h.intent, s'.h.pub, Exempt(InFlight(s'), s'.h.lost))
    {
      assert WalRow(t, s.st.txns[t], s.st.wal, s.h.intent, s.h.pub, Exempt(InFlight(s), s.h.lost));
      if t in s.h.pub && s.st.txns[t].status == Committing && LastAbout(s.st.wal, t).value.LogCommitting? {
        ResumeSettled(s, t);
      }
    }
  }

  /** Recovery only ever lengthens the log. */
  lemma RecoverGrows(s: Sys, a: RecoverAction)
    requires RecoverEnabled(s, a)
    ensures var s' := RecoverNext(s, a);
            && s'.h.begun == s.h.begun && s'.h.stagers == s.h.stagers && s'.h.allocVer == s.h.allocVer
            && s'.st.globalVersion == s.st.globalVersion && |s.st.wal| <= |s'.st.wal| && s'.h.origin == s.h.origin
  {
    hide CommitVersionOf;
  }

  lemma RecoverCounts(s: Sys, a: RecoverAction)
    requires InvCounts(s) && RecoverEnabled(s, a)
    ensures InvCounts(RecoverNext(s, a))
  {
    hide RecoverNext;
    RecoverGrows(s, a);
  }

  // ---------- Transactions recovery passed over ----------

  /** A step about somebody else leaves a transaction that was passed over alone. */
  lemma LostFrame(s: Sys, s': Sys, t0: string, added: seq<WalRecord>, t: string)
    requires LostOk(s, t) && OneTxn(s, s', t0, added) && t != t0 && InFlight(s') != Some(t)
    requires s'.st.walFloor == s.st.walFloor
    ensures LostOk(s', t)
  {
    assert SameAt(s.st.txns, s'.st.txns, t) && SameAt(s.begins, s'.begins, t);
    hide WalTxns;
    assert Surviving(s'.st) == Surviving(s.st) + added;
    SurvivorsGrow(Surviving(s.st), added, t);
  }

  lemma SurvivorsGrow(w: seq<WalRecord>, added: seq<WalRecord>, t: string)
    requires t !in WalTxns(w) && forall r :: r in added ==> !About(r, t)
    ensures t !in WalTxns(w + added)
  {
    forall r | r in w + added
      ensures !About(r, t)
    {
    }
  }

  lemma ClientLost(s: Sound, a: ClientAction, t: string)
    requires ClientEnabled(s, a) && LostOk(s, t)
    ensures LostOk(ClientNext(s, a), t)
  {
    hide InvCommit, InvPub, InvWal, InvRecovery, RowsOk, VersionsOk, LocalOk, WalTxns;
    if AboutReader(a) {
      assert ClientNext(s, a).st.wal == s.st.wal;
    } else {
      ViewOf(s, a.t);
      ClientLocal(s, a);
      LostFrame(s, ClientNext(s, a), a.t, ClientLogs(s, a), t);
    }
  }

  lemma CommitLost(s: Sound, a: CommitAction, t: string)
    requires CommitEnabled(s, a) && LostOk(s, t)
    ensures LostOk(CommitNext(s, a), t)
  {
    CommitViewOf(s, a);
    CommitGood(s, a);
    LostIsNoTarget(s, a, t);
    hide InvPub, InvWal, InvRecovery, InvTables, InvCommit, LocalOk, EffectOf, WalTxns, CommitView, CommitEnabled;
    LostFrame(s, CommitNext(s, a), Target(s.commit, a), EffectOf(s, a).logs, t);
  }

  lemma LostIsNoTarget(s: Sys, a: CommitAction, t: string)
    requires CommitEnabled(s, a) && LostOk(s, t) && InvCommit(s)
    ensures Target(s.commit, a) != t && InFlight(CommitNext(s, a)) != Some(t)
  {
    hide WalTxns, SnapshotConflict, ReconcileFindsPublished;
  }

  lemma SweepLost(s: Sound, a: BackgroundAction, t: string)
    requires BackgroundEnabled(s, a) && IsSweep(a) && LostOk(s, t)
    ensures LostOk(BackgroundNext(s, a), t)
  {
    ViewOf(s, a.t);
    SweepGood(s, a);
    hide InvPub, InvWal, InvRecovery, LocalOk, WalTxns, RowsOk, VersionsOk;
    LostFrame(s, BackgroundNext(s, a), a.t, SweepLogs(a), t);
  }

  lemma OtherLost(s: Sys, a: BackgroundAction, t: string)
    requires BackgroundEnabled(s, a) && !IsSweep(a) && LostOk(s, t)
    ensures LostOk(BackgroundNext(s, a), t)
  {
    var w, s' := Surviving(s.st), BackgroundNext(s, a);
    if a.LogFlush? {
      assert Surviving(s'.st) == w + [LogMemtableFlushed(a.upTo)];
    } else if a.Truncate? {
      assert forall r :: r in Surviving(s'.st) ==> r in w;
    }
  }

  lemma ProceedLost(s: Sound, t: string)
    requires RecoverEnabled(s, Proceed) && LostOk(s, t)
    ensures LostOk(RecoverNext(s, Proceed), t)
  {
    hide InvPub, InvWal, InvTables, InvCommit, CommitVersionOf, LastStatus;
    ProceedOutcomes(s, t);
  }

  lemma ResumeLost(s: Sound, t: string)
    requires RecoverEnabled(s, Resume) && (t in s.h.lost ==> LostOk(s, t)) && t in RecoverNext(s, Resume).h.lost
    ensures LostOk(RecoverNext(s, Resume), t)
  {
    hide InvPub, InvTables, InvCommit, LastStatus, WalTxns, WalRowsOk;
  }

  lemma PickLost(s: Sys, r: RecoverAction, t: string)
    requires RecoverEnabled(s, r) && r.Pick? && LostOk(s, t)
    ensures LostOk(RecoverNext(s, r), t)
  {
  }

  lemma CrashLost(s: Sys, t: string)
    requires CrashEnabled(s) && LostOk(s, t)
    ensures LostOk(CrashNext(s), t)
  {
    assert InFlight(CrashNext(s)) == InFlight(s);
  }

  lemma IntentLost(s: Sound, t: string)
    requires LogIntentEnabled(s) && LostOk(s, t)
    ensures LostOk(LogIntentNext(s), t)
  {
    ViewOf(s, s.commit.t);
    hide InvPub, InvWal, InvTables, InvRecovery, View, WalTxns;
    var added := [LogCommitting(s.commit.t, s.st.txns[s.commit.t].writeKeys)];
    assert Surviving(LogIntentNext(s).st) == Surviving(s.st) + added;
    SurvivorsGrow(Surviving(s.st), added, t);
  }

  lemma QuietLost(s: Sound, a: Action, t: string)
    requires Enabled(s, a) && LostOk(s, t) && (a.Allocate? || a.ReleasePin? || a.AbortClean?)
    ensures LostOk(Next(s, a), t)
  {
    hide InvPub, InvWal, InvTables, InvRecovery, WalTxns, PcOk;
    assert Surviving(Next(s, a).st) == Surviving(s.st);
    assert InFlight(Next(s, a)) == InFlight(s);
  }

  lemma PublishLost(s: Sound, t: string)
    requires PublishEnabled(s) && LostOk(s, t)
    ensures LostOk(PublishNext(s), t)
  {
    hide InvPub, InvWal, InvTables, InvRecovery, WalTxns, PcOk, PublishNext;
    if Publishes(s) { PublishNextIs(s); } else { PublishNothing(s); }
  }

  lemma StepLost(s: Sys, a: Action, t: string)
    requires Inv(s) && Enabled(s, a) && t in Next(s, a).h.lost
    ensures LostOk(Next(s, a), t)
  {
    hide InvPub, InvWal, InvTables, InvCommit, InvRecovery, InvCounts, LostOk;
    hide ClientNext, CommitNext, PublishNext, BackgroundNext;
    StepKeepsLost(s, a);
    match a
    case Client(c) => ClientLost(s, c, t);
    case Commit(m) => CommitLost(s, m, t);
    case Background(b) => if IsSweep(b) { SweepLost(s, b, t); } else { OtherLost(s, b, t); }
    case Crash => CrashLost(s, t);
    case LogIntent => IntentLost(s, t);
    case Publish => PublishLost(s, t);
    case Recover(Pick(x)) => PickLost(s, Pick(x), t);
    case Recover(Proceed) => ProceedLost(s, t);
    case Recover(Resume) => ResumeLost(s, t);
    case _ => QuietLost(s, a, t);
  }

  // ---------- What no step touches ----------

  lemma ClientKeepsOrigin(s: Sys, a: ClientAction)
    requires ClientEnabled(s, a)
    ensures ClientNext(s, a).h.origin == s.h.origin && ClientNext(s, a).h.lost == s.h.lost
  {
  }

  lemma CommitKeepsOrigin(s: Sys, a: CommitAction)
    requires CommitEnabled(s, a)
    ensures CommitNext(s, a).h.origin == s.h.origin && CommitNext(s, a).h.lost == s.h.lost
  {
    hide EffectOf;
  }

  lemma BackgroundKeepsOrigin(s: Sys, a: BackgroundAction)
    requires BackgroundEnabled(s, a)
    ensures BackgroundNext(s, a).h.origin == s.h.origin && BackgroundNext(s, a).h.lost == s.h.lost
  {
    hide CommittedAt;
  }

  lemma RecoverKeepsOrigin(s: Sys, a: RecoverAction)
    requires RecoverEnabled(s, a)
    ensures RecoverNext(s, a).h.origin == s.h.origin && s.h.lost <= RecoverNext(s, a).h.lost
    ensures !a.Resume? ==> RecoverNext(s, a).h.lost == s.h.lost
  {
    hide CommitVersionOf, Decide;
  }

  lemma PublishKeepsOrigin(s: Sys)
    requires PublishEnabled(s)
    ensures PublishNext(s).h.origin == s.h.origin && PublishNext(s).h.lost == s.h.lost
  {
    hide CanAppend, AppendAll, Batch, Extend;
  }

  lemma StepKeepsLost(s: Sys, a: Action)
    requires Enabled(s, a)
    ensures Next(s, a).h.origin == s.h.origin && s.h.lost <= Next(s, a).h.lost
    ensures a != Recover(Resume) ==> Next(s, a).h.lost == s.h.lost
  {
    hide ClientNext, CommitNext, PublishNext, BackgroundNext, RecoverNext;
    match a
    case Client(c) => ClientKeepsOrigin(s, c);
    case Commit(m) => CommitKeepsOrigin(s, m);
    case Background(b) => BackgroundKeepsOrigin(s, b);
    case Recover(r) => RecoverKeepsOrigin(s, r);
    case Publish => PublishKeepsOrigin(s);
    case _ =>
  }

  // ---------- Every step ----------

  lemma AllocatorIsNew(s: Sys)
    requires InvTables(s) && InvCommit(s) && AllocateEnabled(s)
    ensures s.commit.t in s.h.begun && s.commit.t !in s.h.allocVer
    ensures s.st.txns[s.commit.t].writeKeys != {} ==> s.commit.t in s.h.stagers
  {
    assert RowOk(s.commit.t, s.st.txns[s.commit.t], s.h.stagers, s.h.allocVer, s.h.intent);
  }

  lemma StepCounts(s: Sys, a: Action)
    requires Inv(s) && Enabled(s, a)
    ensures InvCounts(Next(s, a))
  {
    hide ClientNext, BackgroundNext, RecoverNext, CommitNext, PublishNext, AllocateNext, InvPub, InvWal, InvRecovery, InvLost;
    match a
    case Client(c) => ClientCounts(s, c);
    case Commit(m) => CommitCounts(s, m);
    case Publish => PublishCounts(s);
    case Background(b) => BackgroundCounts(s, b);
    case Recover(r) => RecoverCounts(s, r);
    case Allocate => AllocatorIsNew(s); AllocateCounts(s);
    case _ =>
  }

  lemma CommitCounts(s: Sys, m: CommitAction)
    requires InvCounts(s) && CommitEnabled(s, m)
    ensures InvCounts(CommitNext(s, m))
  {
    hide EffectOf;
  }

  lemma PublishCounts(s: Sys)
    requires InvCounts(s) && PublishEnabled(s)
    ensures InvCounts(PublishNext(s))
  {
    hide CanAppend, AppendAll, Batch, Extend;
  }

  lemma StepCore(s: Sys, a: Action)
    requires Inv(s) && Enabled(s, a)
    ensures InvCore(Next(s, a))
  {
    match a
    case Client(c) => ClientCore(s, c);
    case Commit(m) => CommitCore(s, m);
    case Allocate => AllocateCore(s);
    case LogIntent => WalIsLong(s); LogIntentCore(s);
    case Publish => PublishCore(s);
    case ReleasePin => ReleasePinCore(s);
    case AbortClean => AbortCleanCore(s);
    case Background(b) => BackgroundCore(s, b);
    case Crash => CrashCore(s);
    case Recover(r) =>
      match r
      case Pick(t) => PickCore(s, t);
      case Proceed => ProceedCore(s);
      case Resume => ResumeCore(s);
  }

  /** Every step of every actor keeps the invariant. */
  lemma StepInv(s: Sys, a: Action)
    requires Inv(s) && Enabled(s, a)
    ensures Inv(Next(s, a))
  {
    StepCounts(s, a);
    StepCore(s, a);
    forall t | t in Next(s, a).h.lost
      ensures LostOk(Next(s, a), t)
    {
      StepLost(s, a, t);
    }
  }

  lemma {:induction false} RunInv(s: Sys, acts: seq<Action>, s': Sys)
    requires Inv(s) && Run(s, acts, s')
    ensures Inv(s')
    decreases |acts|
  {
    if acts != [] {
      StepInv(s, acts[0]);
      RunInv(Next(s, acts[0]), acts[1..], s');
    }
  }

  lemma {:induction false} RunOrigin(s: Sys, acts: seq<Action>, s': Sys)
    requires Run(s, acts, s')
    ensures s'.h.origin == s.h.origin
    decreases |acts|
  {
    if acts != [] {
      hide Next, Enabled;
      StepKeepsLost(s, acts[0]);
      RunOrigin(Next(s, acts[0]), acts[1..], s');
    }
  }

  /** The invariant holds in every run over a store that started empty or rebuilt. */
  lemma StartedInv(o: Origin, chains: map<string, Entries>, s: Sys)
    requires ChainsFit(o, chains) && Leads(StartFrom(o, chains), s)
    ensures Inv(s) && s.h.origin == o
  {
    var acts :| Run(StartFrom(o, chains), acts, s);
    StartInv(o, chains);
    hide Run, Inv;
    RunInv(StartFrom(o, chains), acts, s);
    RunOrigin(StartFrom(o, chains), acts, s);
  }

  lemma ReachableInv(s: Sys)
    requires Reachable(s)
    ensures Inv(s) && s.h.origin.Blank?
  {
    StartedInv(Blank, map[], s);
  }
}
