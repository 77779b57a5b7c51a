/**
 What the protocol promises over whole runs: races on a transaction's status have one winner, terminal
 rows are final, published entries and recorded outcomes agree after every crash and every failed
 commit, and truncation never reaches the record recovery decides by.
 */
module MachineOutcomes {
  import opened Primitives
  import opened VersionChains
  import opened Stores
  import opened Machine
  import opened MachineInvariant
  import opened MachineSteps
  import opened MachineRecovery

  // ---------- Rows only move forward ----------

  predicate RowMoves(r: TxnState, r': TxnState) {
    && r'.snapshot == r.snapshot
    && (Terminal(r.status) ==> r' == r)
    && (r.status != Active ==> r'.status != Active && r'.writeKeys == r.writeKeys)
    && r.writeKeys <= r'.writeKeys
  }

  ghost predicate RowsMove(txns: map<string, TxnState>, txns': map<string, TxnState>) {
    forall t :: t in txns ==> t in txns' && RowMoves(txns[t], txns'[t])
  }

  lemma ClientRows(s: Sys, c: ClientAction)
    requires ClientEnabled(s, c) && IdsOk(s.h.begun, s.st.txns, s.h.allocVer, s.h.intent, s.begins, s.sweeps)
    ensures RowsMove(s.st.txns, ClientNext(s, c).st.txns)
  {
  }

  lemma CommitRows(s: Sys, m: CommitAction)
    requires CommitEnabled(s, m) && InvCommit(s)
    ensures RowsMove(s.st.txns, CommitNext(s, m).st.txns)
  {
  }

  lemma BackgroundRows(s: Sys, b: BackgroundAction)
    requires BackgroundEnabled(s, b)
    ensures RowsMove(s.st.txns, BackgroundNext(s, b).st.txns)
  {
  }

  lemma RecoverRows(s: Sys, r: RecoverAction)
    requires RecoverEnabled(s, r) && InvRecovery(s)
    ensures RowsMove(s.st.txns, RecoverNext(s, r).st.txns)
  {
    hide CommitVersionOf, WalTxns, Settled, LastAbout, RecoveryFindsPublished, LastStatus;
  }

  lemma SameRows(txns: map<string, TxnState>)
    ensures RowsMove(txns, txns)
  {
  }

  lemma StepRows(s: Sound, a: Action)
    requires Enabled(s, a)
    ensures RowsMove(s.st.txns, Next(s, a).st.txns)
  {
    hide ClientNext, CommitNext, PublishNext, BackgroundNext, RecoverNext;
    hide InvWal, RowsOk, VersionsOk, IdsOk, InvPub, InvRecovery, InvCommit, RowMoves;
    SameRows(s.st.txns);
    match a
    case Client(c) => ClientRows(s, c);
    case Commit(m) => CommitRows(s, m);
    case Background(b) => BackgroundRows(s, b);
    case Recover(r) => RecoverRows(s, r);
    case Publish => PublishKeeps(s);
    case _ =>
  }

  lemma RowsMoveOn(a: map<string, TxnState>, b: map<string, TxnState>, c: map<string, TxnState>)
    requires RowsMove(a, b) && RowsMove(b, c)
    ensures RowsMove(a, c)
  {
  }

  /** Statuses only move forward and a terminal row never changes again, in every run. */
  lemma {:induction false} RowsAreMonotone(s: Sys, acts: seq<Action>, s': Sys)
    requires Inv(s) && Run(s, acts, s')
    ensures RowsMove(s.st.txns, s'.st.txns)
    decreases |acts|
  {
    if acts != [] {
      hide Next, Enabled, InvCounts, InvTables, InvCommit, InvPub, InvWal, InvRecovery, RowsMove;
      StepInv(s, acts[0]);
      StepRows(s, acts[0]);
      RowsAreMonotone(Next(s, acts[0]), acts[1..], s');
      RowsMoveOn(s.st.txns, Next(s, acts[0]).st.txns, s'.st.txns);
    }
  }

  // ---------- One winner ----------

  /** The three compare-and-sets that take a transaction out of Active. */
  predicate Claims(a: Action, t: string) {
    a == Commit(Claim(t)) || a == Commit(AbortClaim(t)) || a == Background(SweepClaim(t))
  }

  function ClaimCount(acts: seq<Action>, t: string): nat {
    if acts == [] then 0 else (if Claims(acts[0], t) then 1 else 0) + ClaimCount(acts[1..], t)
  }

  predicate Left(s: Sys, t: string) {
    t in s.st.txns && s.st.txns[t].status != Active
  }

  lemma ClaimLeaves(s: Sys, a: Action, t: string)
    requires Enabled(s, a) && Claims(a, t)
    ensures !Left(s, t) && Left(Next(s, a), t)
  {
  }

  /** Of all commits, aborts and sweeps of a transaction, at most one wins. */
  lemma {:induction false} OneWinner(s: Sys, acts: seq<Action>, s': Sys, t: string)
    requires Inv(s) && Run(s, acts, s')
    ensures ClaimCount(acts, t) <= if Left(s, t) then 0 else 1
    decreases |acts|
  {
    if acts != [] {
      hide Next, Enabled, InvCounts, InvTables, InvCommit, InvPub, InvWal, InvRecovery;
      StepInv(s, acts[0]);
      StepRows(s, acts[0]);
      if Claims(acts[0], t) { ClaimLeaves(s, acts[0], t); }
      OneWinner(Next(s, acts[0]), acts[1..], s', t);
    }
  }

  // ---------- What chains hold of a transaction ----------

  predicate Holds(c: Entries, t: string) {
    exists e :: e in c && e.txnId == t
  }

  predicate AllHold(st: Store, t: string)
    requires t in st.txns
  {
    forall k :: k in st.txns[t].writeKeys ==> Holds(ChainOf(st.chains, k), t)
  }

  predicate NoneHold(st: Store, t: string)
    requires t in st.txns
  {
    forall k :: k in st.txns[t].writeKeys ==> !Holds(ChainOf(st.chains, k), t)
  }

  /** While a transaction owns the newest version its entries stand in all of its keys' chains or in none. */
  lemma NewestAllOrNone(s: Sys, t: string)
    requires InvPub(s) && VersionsOk(s.h.allocVer, s.h.origin, s.st.globalVersion) && t in s.st.txns
    requires t in s.h.pub ==> s.h.pub[t] == s.st.globalVersion
    ensures t in s.h.pub ==> AllHold(s.st, t)
    ensures t !in s.h.pub ==> NoneHold(s.st, t)
    ensures s.st.txns[t].writeKeys != {} ==> !(AllHold(s.st, t) && NoneHold(s.st, t))
  {
    if t in s.h.pub {
      forall k | k in s.st.txns[t].writeKeys
        ensures Holds(ChainOf(s.st.chains, k), t)
      {
        NewestIsMine(s, t, k);
        var c := s.st.chains[k];
        assert c[|c| - 1] in c;
      }
    } else {
      forall k | k in s.st.txns[t].writeKeys
        ensures !Holds(ChainOf(s.st.chains, k), t)
      {
        NoneIsMine(s, t, k);
      }
    }
  }

  // ---------- Decisive records are never followed by a Begin or Stage of the same transaction ----------

  predicate Opening(r: WalRecord) {
    r.LogBegin? || r.LogStage?
  }

  ghost predicate OrderOk(wal: seq<WalRecord>) {
    forall i, j :: 0 <= i < j < |wal| && Decisive(wal[i]) && Opening(wal[j]) ==> wal[i].txn != wal[j].txn
  }

  ghost predicate DecidedOk(wal: seq<WalRecord>, begun: set<string>, txns: map<string, TxnState>) {
    forall i :: 0 <= i < |wal| && Decisive(wal[i]) ==>
      wal[i].txn in begun && wal[i].txn in txns && txns[wal[i].txn].status != Active
  }

  /** Whoever is in the log has begun, or was swept before. */
  ghost predicate BegunOk(wal: seq<WalRecord>, begun: set<string>, txns: map<string, TxnState>) {
    forall i :: 0 <= i < |wal| && !wal[i].LogMemtableFlushed? ==> RecordBegun(wal[i], begun, txns)
  }

  predicate RecordBegun(r: WalRecord, begun: set<string>, txns: map<string, TxnState>)
    requires !r.LogMemtableFlushed?
  {
    r.txn in begun || (r.LogAborted? && r.txn in txns && txns[r.txn].status == Aborted)
  }

  ghost predicate InvOrder(s: Sys) {
    && OrderOk(s.st.wal) && DecidedOk(s.st.wal, s.h.begun, s.st.txns) && BegunOk(s.st.wal, s.h.begun, s.st.txns)
    && (s.mode.Recovering? && !s.mode.pc.Choose? ==> s.mode.pc.t in s.h.begun)
  }

  /** A record that may follow the log as it is. */
  predicate Follows(s: Sys, r: WalRecord) {
    && (Decisive(r) ==> r.txn in s.h.begun && Left(s, r.txn))
    && (Opening(r) ==> r.txn !in s.h.begun || !Left(s, r.txn))
    && (r.LogCommitting? ==> s.commit.Checked? && s.commit.t == r.txn)
  }

  ghost predicate LogStep(s: Sys, s': Sys) {
    && s.h.begun <= s'.h.begun
    && (s'.st.wal == s.st.wal || exists r :: s'.st.wal == s.st.wal + [r] && Follows(s, r) && Admits(s', r))
  }

  /** The record's transaction has begun by then, or was swept. */
  predicate Admits(s: Sys, r: WalRecord) {
    r.LogMemtableFlushed? || RecordBegun(r, s.h.begun, s.st.txns)
  }

  lemma OrderKept(s: Sys, s': Sys)
    requires InvOrder(s) && LogStep(s, s') && RowsMove(s.st.txns, s'.st.txns)
    requires s'.mode.Recovering? && !s'.mode.pc.Choose? ==> s'.mode.pc.t in s'.h.begun
    ensures InvOrder(s')
  {
    if s'.st.wal != s.st.wal {
      var r :| s'.st.wal == s.st.wal + [r] && Follows(s, r) && Admits(s', r);
      forall i, j | 0 <= i < j < |s'.st.wal| && Decisive(s'.st.wal[i]) && Opening(s'.st.wal[j])
        ensures s'.st.wal[i].txn != s'.st.wal[j].txn
      {
        assert s'.st.wal[i] == s.st.wal[i];
      }
    }
  }

  lemma LogStepBy(s: Sys, s': Sys, added: seq<WalRecord>)
    requires s.h.begun <= s'.h.begun && s'.st.wal == s.st.wal + added && |added| <= 1
    requires added != [] ==> Follows(s, added[0]) && Admits(s', added[0])
    ensures LogStep(s, s')
  {
    if added != [] {
      assert added == [added[0]];
    }
  }

  lemma ClientLogStep(s: Sys, c: ClientAction)
    requires ClientEnabled(s, c) && IdsOk(s.h.begun, s.st.txns, s.h.allocVer, s.h.intent, s.begins, s.sweeps)
    ensures LogStep(s, ClientNext(s, c))
  {
    LogStepBy(s, ClientNext(s, c), ClientLogs(s, c));
  }

  lemma CommitLogStep(s: Sys, m: CommitAction)
    requires CommitEnabled(s, m) && InvCommit(s)
    ensures LogStep(s, CommitNext(s, m))
  {
    LogStepBy(s, CommitNext(s, m), EffectOf(s, m).logs);
  }

  lemma BackgroundLogStep(s: Sys, b: BackgroundAction)
    requires BackgroundEnabled(s, b) && IdsOk(s.h.begun, s.st.txns, s.h.allocVer, s.h.intent, s.begins, s.sweeps)
    ensures LogStep(s, BackgroundNext(s, b))
  {
    LogStepBy(s, BackgroundNext(s, b), if b.LogFlush? then [LogMemtableFlushed(b.upTo)] else SweepLogs(b));
  }

  lemma RecoverLogStep(s: Sys, r: RecoverAction)
    requires RecoverEnabled(s, r) && InvRecovery(s) && PubRows(s.h.pub, s.st.txns, s.h.allocVer)
    requires IdsOk(s.h.begun, s.st.txns, s.h.allocVer, s.h.intent, s.begins, s.sweeps)
    requires s.mode.Recovering? && !s.mode.pc.Choose? ==> s.mode.pc.t in s.h.begun
    ensures LogStep(s, RecoverNext(s, r))
  {
    hide CommitVersionOf;
    LogStepBy(s, RecoverNext(s, r), if r.Proceed? then ProceedLogs(s) else []);
  }

  lemma CommitterHasBegun(s: Sys)
    requires InvCommit(s) && !s.commit.Idle?
    ensures s.commit.t in s.h.begun
  {
  }

  lemma StepLog(s: Sound, a: Action)
    requires Enabled(s, a) && (s.mode.Recovering? && !s.mode.pc.Choose? ==> s.mode.pc.t in s.h.begun)
    ensures LogStep(s, Next(s, a))
  {
    hide ClientNext, CommitNext, PublishNext, BackgroundNext, RecoverNext, LogStep;
    hide InvWal, RowsOk, VersionsOk, IdsOk, ChainsFollowLog, PubRows, CommittedIsPublished, LogIsPublished;
    hide PublishedIsLogged, FirstCommitterWins, InvRecovery, InvCommit;
    match a
    case Client(c) => ClientLogStep(s, c);
    case Commit(m) => CommitLogStep(s, m);
    case Background(b) => BackgroundLogStep(s, b);
    case Recover(r) => RecoverLogStep(s, r);
    case LogIntent =>
      CommitterHasBegun(s);
      LogStepBy(s, Next(s, a), [LogCommitting(s.commit.t, s.st.txns[s.commit.t].writeKeys)]);
    case Publish => PublishLog(s); LogStepBy(s, Next(s, a), []);
    case _ => LogStepBy(s, Next(s, a), []);
  }

  lemma PublishLog(s: Sys)
    requires PublishEnabled(s) && InvCommit(s)
    ensures PublishNext(s).st.wal == s.st.wal && PublishNext(s).h.begun == s.h.begun
  {
    hide PublishNext;
    if Publishes(s) { PublishNextIs(s); } else { PublishNothing(s); }
  }

  /** Recovery only ever works on transactions that have begun. */
  lemma StepBegun(s: Sound, a: Action)
    requires Enabled(s, a) && InvOrder(s)
    ensures var s' := Next(s, a); s'.mode.Recovering? && !s'.mode.pc.Choose? ==> s'.mode.pc.t in s'.h.begun
  {
    hide InvPub, InvWal, InvCommit, RowsOk, VersionsOk, OrderOk, DecidedOk, BegunOk, CommitVersionOf;
    if a.Recover? && a.r.Pick? {
      if !Decide(s.st, a.r.t).Choose? {
        PickedIsBegun(s, a.r.t);
      }
    } else if a.Publish? {
      PublishKeeps(s);
    }
  }

  lemma PickedIsBegun(s: Sys, t: string)
    requires BegunOk(s.st.wal, s.h.begun, s.st.txns) && s.st.walFloor <= |s.st.wal| && !Decide(s.st, t).Choose?
    ensures Decide(s.st, t).t == t && t in s.h.begun
  {
    var w := Surviving(s.st);
    StatusOfLast(w, t);
    NoneAbout(w, t);
    var p := AboutExists(w, t);
    assert w[p] == s.st.wal[s.st.walFloor + p];
  }

  /** One step: everything that is kept, and how rows and log moved. */
  lemma StepAll(s: Sys, a: Action)
    requires Inv(s) && InvOrder(s) && Enabled(s, a)
    ensures Inv(Next(s, a)) && InvOrder(Next(s, a)) && RowsMove(s.st.txns, Next(s, a).st.txns) && LogStep(s, Next(s, a))
  {
    hide Next, Enabled, InvCounts, InvTables, InvCommit, InvPub, InvWal, InvRecovery, InvLost;
    hide OrderOk, DecidedOk, BegunOk, LogStep, RowsMove;
    StepInv(s, a);
    StepRows(s, a);
    StepLog(s, a);
    StepBegun(s, a);
    OrderKept(s, Next(s, a));
  }

  lemma {:induction false} RunOrder(s: Sys, acts: seq<Action>, s': Sys)
    requires Inv(s) && InvOrder(s) && Run(s, acts, s')
    ensures Inv(s') && InvOrder(s')
    decreases |acts|
  {
    if acts != [] {
      hide Next, Enabled, Inv, InvOrder, LogStep, RowsMove;
      StepAll(s, acts[0]);
      RunOrder(Next(s, acts[0]), acts[1..], s');
    }
  }

  /** Recovery's fold says Committed only when the last record does. */
  lemma {:induction false} CommittedIsLast(w: seq<WalRecord>, t: string)
    requires OrderOk(w) && LastStatus(w, t) == Some(Committed)
    ensures LastAbout(w, t).Some? && Decisive(LastAbout(w, t).value)
  {
    var r, before := w[|w| - 1], w[..|w| - 1];
    if !About(r, t) {
      CommittedIsLast(before, t);
    } else if Opening(r) {
      CommittedIsLast(before, t);
      NoneAbout(before, t);
    }
  }

  lemma StartedOrder(o: Origin, chains: map<string, Entries>, s: Sys)
    requires ChainsFit(o, chains) && Leads(StartFrom(o, chains), s)
    ensures Inv(s) && InvOrder(s) && s.h.origin == o
  {
    hide Run, Inv, InvOrder, ChainsFit;
    StartedInv(o, chains, s);
    StartInv(o, chains);
    StartOrder(o, chains);
    var acts :| Run(StartFrom(o, chains), acts, s);
    RunOrder(StartFrom(o, chains), acts, s);
  }

  lemma StartOrder(o: Origin, chains: map<string, Entries>)
    ensures InvOrder(StartFrom(o, chains))
  {
  }

  lemma ReachableOrder(s: Sys)
    requires Reachable(s)
    ensures Inv(s) && InvOrder(s) && s.h.origin.Blank?
  {
    hide Inv, InvOrder;
    StartedOrder(Blank, map[], s);
  }

  // ---------- Crash atomicity ----------

  /** What the store says became of a transaction: its row, or the log's terminal record. */
  function Outcome(st: Store, t: string): Option<TxnStatus>
    requires t in st.txns && st.walFloor <= |st.wal|
  {
    if Terminal(st.txns[t].status) then Some(st.txns[t].status)
    else match LastStatus(Surviving(st), t)
      case Some(Committed) => Some(Committed)
      case Some(Aborted) => Some(Aborted)
      case _ => None
  }

  lemma SurvivingOrder(st: Store)
    requires st.walFloor <= |st.wal| && OrderOk(st.wal)
    ensures OrderOk(Surviving(st))
  {
    var w := Surviving(st);
    forall i, j | 0 <= i < j < |w| && Decisive(w[i]) && Opening(w[j])
      ensures w[i].txn != w[j].txn
    {
      assert Decisive(st.wal[st.walFloor + i]) && Opening(st.wal[st.walFloor + j]);
    }
  }

  /** A recorded outcome is the truth about publication. */
  lemma OutcomeIsTrue(s: Sys, t: string)
    requires View(s, t) && OrderOk(s.st.wal) && t in s.st.txns && s.st.txns[t].writeKeys != {}
    ensures Outcome(s.st, t) == Some(Committed) ==> t in s.h.pub
    ensures Outcome(s.st, t) == Some(Aborted) ==> t !in s.h.pub
  {
    var w := Surviving(s.st);
    StatusOfLast(w, t);
    if LastStatus(w, t).Some? {
      NoneAbout(w, t);
      SurvivingLast(s.st, t);
      if LastStatus(w, t) == Some(Committed) {
        SurvivingOrder(s.st);
        CommittedIsLast(w, t);
      }
    }
  }

  /** A transaction cut after publishing left its Committing record where recovery finds it. */
  lemma IntentIsFound(s: Sys, t: string)
    requires View(s, t) && InFlight(s) == Some(t) && t in s.h.pub && s.h.origin.Blank?
    ensures t in WalTxns(Surviving(s.st))
  {
    var p := s.h.intent[t];
    assert Surviving(s.st)[p - s.st.walFloor] == s.st.wal[p];
    assert s.st.wal[p] in Surviving(s.st);
  }

  /** With recovery done, the outcome is recorded exactly when recovery had a record to go by. */
  lemma CutIsSettled(s: Sys, t: string)
    requires InvRecovery(s) && s.mode == Recovering({}, Choose) && s.h.cut == Some(t)
    ensures Outcome(s.st, t) == Some(Committed) || Outcome(s.st, t) == Some(Aborted) <==> s.h.cutLogged
  {
    NoneAbout(Surviving(s.st), t);
    StatusOfLast(Surviving(s.st), t);
  }

  /** The cut transaction's outcome against its chains, in any state the steps keep. */
  lemma CutOutcome(s: Sys, t: string)
    requires Inv(s) && InvOrder(s) && s.mode == Recovering({}, Choose) && s.h.cut == Some(t)
    requires t in s.st.txns && s.st.txns[t].writeKeys != {} && s.st.walFloor <= |s.st.wal|
    ensures AllHold(s.st, t) != NoneHold(s.st, t)
    ensures Outcome(s.st, t) == Some(Committed) <==> AllHold(s.st, t) && s.h.cutLogged
    ensures Outcome(s.st, t) == Some(Aborted) <==> NoneHold(s.st, t) && s.h.cutLogged
    ensures s.h.origin.Blank? && AllHold(s.st, t) ==> s.h.cutLogged
  {
    ViewOf(s, t);
    hide InvPub, InvWal, InvCommit, RowsOk, IdsOk, WalRow, RowOk, LastStatus, WalTxns, AllHold, NoneHold, InvLost, InvCounts;
    NewestAllOrNone(s, t);
    OutcomeIsTrue(s, t);
    CutIsSettled(s, t);
    if t in s.h.pub && s.h.origin.Blank? {
      IntentIsFound(s, t);
    }
  }

  /**
   A commit cut after any durable step, however often recovery itself was cut: once recovery is done,
   the transaction is recorded Committed exactly when all its keys' chains hold its entry, and Aborted
   exactly when none does and some record of it had survived truncation when the crash came.
   */
  lemma CrashAtomicity(s: Sys, t: string)
    requires Reachable(s) && s.mode == Recovering({}, Choose) && s.h.cut == Some(t)
    requires t in s.st.txns && s.st.txns[t].writeKeys != {} && s.st.walFloor <= |s.st.wal|
    ensures AllHold(s.st, t) != NoneHold(s.st, t)
    ensures Outcome(s.st, t) == Some(Committed) <==> AllHold(s.st, t)
    ensures Outcome(s.st, t) == Some(Aborted) <==> NoneHold(s.st, t) && s.h.cutLogged
  {
    hide Inv, InvOrder, AllHold, NoneHold, Outcome;
    ReachableOrder(s);
    CutOutcome(s, t);
  }

  /**
   The same in every run over a rebuilt store, where truncation may reach the commit in flight: one of both outcomes
   is recorded if and only if a record of the transaction had survived when the crash came, and then it is the true one.
   */
  lemma CrashAtomicityRebuilt(o: Origin, chains: map<string, Entries>, s: Sys, t: string)
    requires ChainsFit(o, chains) && Leads(StartFrom(o, chains), s) && s.mode == Recovering({}, Choose) && s.h.cut == Some(t)
    requires t in s.st.txns && s.st.txns[t].writeKeys != {} && s.st.walFloor <= |s.st.wal|
    ensures AllHold(s.st, t) != NoneHold(s.st, t)
    ensures Outcome(s.st, t) == Some(Committed) <==> AllHold(s.st, t) && s.h.cutLogged
    ensures Outcome(s.st, t) == Some(Aborted) <==> NoneHold(s.st, t) && s.h.cutLogged
    ensures Outcome(s.st, t) == None <==> !s.h.cutLogged
  {
    hide Inv, InvOrder, AllHold, NoneHold, LastStatus, Leads, ChainsFit;
    StartedOrder(o, chains, s);
    CutOutcome(s, t);
  }

  // ---------- A commit without an outcome ----------

  /** Recovery is passing it over, or has. */
  predicate PassedOver(s: Sys, t: string) {
    t in s.h.lost || (s.mode.Recovering? && s.h.cut == Some(t) && !s.h.cutLogged)
  }

  lemma StepPassed(s: Sys, a: Action, t: string)
    requires InvRecovery(s) && Enabled(s, a) && PassedOver(s, t)
    ensures PassedOver(Next(s, a), t)
  {
    hide ClientNext, ClientEnabled, CommitNext, PublishNext, BackgroundNext, RecoverNext, WalTxns, Settled, RecoveryPcOk;
    StepKeepsLost(s, a);
    if t !in s.h.lost {
      match a
      case Recover(r) => RecoverPassed(s, r, t);
      case Client(c) => ClientRuns(s, c);
      case _ =>
    }
  }

  lemma ClientRuns(s: Sys, c: ClientAction)
    requires ClientEnabled(s, c)
    ensures s.mode.Running?
  {
  }

  lemma RecoverPassed(s: Sys, r: RecoverAction, t: string)
    requires RecoverEnabled(s, r) && s.h.cut == Some(t) && !s.h.cutLogged
    ensures PassedOver(RecoverNext(s, r), t)
  {
    hide Decide, CommitVersionOf;
  }

  lemma {:induction false} RunPassed(s: Sys, acts: seq<Action>, s': Sys, t: string)
    requires Inv(s) && Run(s, acts, s') && PassedOver(s, t)
    ensures Inv(s') && PassedOver(s', t)
    decreases |acts|
  {
    if acts != [] {
      hide Next, Enabled, InvCounts, InvTables, InvCommit, InvPub, InvWal, InvRecovery, InvLost, PassedOver;
      StepInv(s, acts[0]);
      StepPassed(s, acts[0], t);
      RunPassed(Next(s, acts[0]), acts[1..], s', t);
    }
  }

  lemma PassedHasNone(s: Sys, t: string)
    requires InvRecovery(s) && InvLost(s) && PassedOver(s, t)
    ensures t in s.st.txns && s.st.txns[t].status == Committing && s.st.walFloor <= |s.st.wal| && Outcome(s.st, t) == None
  {
    hide Settled, RecoveryPcOk;
    assert t in s.h.lost ==> LostOk(s, t);
    NoneAbout(Surviving(s.st), t);
    StatusOfLast(Surviving(s.st), t);
  }

  /**
   A commit whose records were all gone when the crash came never gets an outcome, over an empty or a rebuilt store:
   in every later state of every run its row is Committing and nothing is recorded.
   */
  lemma LostForGood(o: Origin, chains: map<string, Entries>, s: Sys, acts: seq<Action>, s': Sys, t: string)
    requires ChainsFit(o, chains) && Leads(StartFrom(o, chains), s) && Run(s, acts, s')
    requires s.mode.Recovering? && s.h.cut == Some(t) && !s.h.cutLogged
    ensures t in s'.st.txns && s'.st.txns[t].status == Committing && s'.st.walFloor <= |s'.st.wal|
    ensures Outcome(s'.st, t) == None
  {
    hide InvCounts, InvCore, InvLost, Leads, ChainsFit, Run, Outcome;
    StartedInv(o, chains, s);
    RunPassed(s, acts, s', t);
    CoreRecovers(s');
    PassedHasNone(s', t);
  }

  lemma CoreRecovers(s: Sys)
    requires InvCore(s)
    ensures InvRecovery(s)
  {
    hide InvTables, InvCommit, InvPub, InvWal, InvRecovery;
  }

  // ---------- A recorded outcome persists while its row or its record does ----------

  predicate TerminalRecord(r: WalRecord, t: string) {
    About(r, t) && (Decisive(r) || r.LogAborted?)
  }

  ghost predicate RecordSurvives(st: Store, t: string)
    requires st.walFloor <= |st.wal|
  {
    exists r :: r in Surviving(st) && TerminalRecord(r, t)
  }

  /** Claimed and not yet published. */
  predicate Early(pc: CommitPc, t: string) {
    (pc.Claimed? || InWindow(pc)) && pc.t == t
  }

  /** An undo cut between its log record and its row left the row active, and the transaction may still commit. */
  predicate Reopened(s: Sys, t: string) {
    HasStatus(s.st, t, Active) || Early(s.commit, t)
  }

  /** The outcome in the row, or in the log as if it had never been truncated. */
  ghost predicate Fixed(s: Sys, t: string, o: TxnStatus) {
    && t in s.st.txns && s.st.txns[t].writeKeys != {} && Terminal(o)
    && (s.st.txns[t].status == o || (s.st.txns[t].status == Committing && LastStatus(s.st.wal, t) == Some(o)))
    && (t in s.h.pub <==> o == Committed)
    && (o == Aborted ==> !Early(s.commit, t))
  }

  lemma ClientShape(s: Sys, c: ClientAction)
    requires ClientEnabled(s, c)
    ensures ClientNext(s, c).h.pub == s.h.pub && ClientNext(s, c).commit == s.commit
  {
  }

  lemma CommitShape(s: Sys, m: CommitAction, t: string)
    requires CommitEnabled(s, m) && Early(CommitNext(s, m).commit, t)
    ensures Early(s.commit, t) || HasStatus(s.st, t, Active)
  {
    hide SnapshotConflict, ReconcileFindsPublished;
  }

  lemma BackgroundShape(s: Sys, b: BackgroundAction)
    requires BackgroundEnabled(s, b)
    ensures BackgroundNext(s, b).h.pub == s.h.pub && BackgroundNext(s, b).commit == s.commit
  {
  }

  lemma RecoverShape(s: Sys, r: RecoverAction)
    requires RecoverEnabled(s, r)
    ensures RecoverNext(s, r).h.pub == s.h.pub && RecoverNext(s, r).commit == s.commit
  {
    hide Decide, CommitVersionOf;
  }

  lemma PublishShape(s: Sys)
    requires PublishEnabled(s)
    ensures var s' := PublishNext(s);
            (s'.h.pub == s.h.pub || s'.h.pub == s.h.pub[s.commit.t := s.commit.v]) && (s'.commit.Failed? || s'.commit.Appended?)
  {
    hide CanAppend, AppendAll, Batch;
  }

  /** Only a publishing commit's own transaction becomes published, and only an active one becomes early. */
  lemma StepShape(s: Sound, a: Action, t: string)
    requires Enabled(s, a)
    ensures t in s.h.pub ==> t in Next(s, a).h.pub
    ensures t in Next(s, a).h.pub && t !in s.h.pub ==> Early(s.commit, t)
    ensures Early(Next(s, a).commit, t) ==> Early(s.commit, t) || HasStatus(s.st, t, Active)
  {
    hide ClientNext, ClientEnabled, CommitEnabled, EffectOf, RecoverNext, RecoverEnabled, BackgroundNext, BackgroundEnabled;
    hide PublishNext, InvTables, InvPub, InvWal, InvRecovery, InvCommit;
    match a
    case Client(c) => ClientShape(s, c);
    case Commit(m) => if Early(CommitNext(s, m).commit, t) { CommitShape(s, m, t); }
    case Background(b) => BackgroundShape(s, b);
    case Recover(r) => RecoverShape(s, r);
    case Publish => PublishShape(s);
    case _ =>
  }

  lemma FixedKept(s: Sys, s': Sys, t: string, o: TxnStatus)
    requires Fixed(s, t, o) && LogStep(s, s') && RowsMove(s.st.txns, s'.st.txns) && InvCommit(s)
    requires PubRows(s'.h.pub, s'.st.txns, s'.h.allocVer) && CommittedIsPublished(s'.st.txns, s'.h.pub)
    requires WalRow(t, s'.st.txns[t], s'.st.wal, s'.h.intent, s'.h.pub, Exempt(InFlight(s'), s'.h.lost))
    requires t in s'.h.pub ==> t in s.h.pub || Early(s.commit, t)
    requires t in s.h.pub ==> t in s'.h.pub
    requires Early(s'.commit, t) ==> Early(s.commit, t) || HasStatus(s.st, t, Active)
    ensures Fixed(s', t, o)
  {
    hide LastStatus;
    if s'.st.wal != s.st.wal {
      var r :| s'.st.wal == s.st.wal + [r] && Follows(s, r) && Admits(s', r);
      LastAboutAppend(s.st.wal, r);
      LastStatusAppend(s.st.wal, r, t);
    }
  }

  lemma LastStatusAppend(w: seq<WalRecord>, r: WalRecord, t: string)
    ensures LastStatus(w + [r], t) ==
            if !About(r, t) || (Opening(r) && LastStatus(w, t).Some?) then LastStatus(w, t)
            else Some(if Opening(r) then Active else if r.LogCommitting? then Committing else if r.LogAborted? then Aborted else Committed)
  {
    assert (w + [r])[..|w|] == w;
  }

  /** With a terminal record among the survivors the fold over them is the fold over the whole log. */
  lemma {:induction false} SuffixStatus(w: seq<WalRecord>, f: nat, t: string)
    requires f <= |w| && LastStatus(w, t).Some? && Terminal(LastStatus(w, t).value)
    ensures (exists r :: r in w[f..] && TerminalRecord(r, t)) ==> LastStatus(w[f..], t) == LastStatus(w, t)
    ensures (exists r :: r in w[f..] && TerminalRecord(r, t)) <==>
            LastStatus(w[f..], t).Some? && Terminal(LastStatus(w[f..], t).value)
  {
    if f < |w| {
      var r, before := w[|w| - 1], w[..|w| - 1];
      assert w[f..][..|w| - f - 1] == before[f..];
      assert w[f..] == before[f..] + [r];
      if !About(r, t) || Opening(r) {
        SuffixStatus(before, f, t);
        assert forall q :: q in w[f..] && TerminalRecord(q, t) <==> q in before[f..] && TerminalRecord(q, t);
      } else {
        assert r in w[f..];
      }
    } else {
      assert w[f..] == [];
    }
  }

  lemma {:induction false} StatusFromSuffix(w: seq<WalRecord>, f: nat, t: string)
    requires f <= |w| && LastStatus(w[f..], t).Some? && Terminal(LastStatus(w[f..], t).value)
    ensures LastStatus(w, t) == LastStatus(w[f..], t)
  {
    var r, before := w[|w| - 1], w[..|w| - 1];
    assert w[f..][..|w| - f - 1] == before[f..];
    if !About(r, t) || Opening(r) {
      StatusFromSuffix(before, f, t);
    }
  }

  lemma StepFixed(s: Sys, a: Action, t: string, o: TxnStatus)
    requires Inv(s) && InvOrder(s) && Enabled(s, a) && Fixed(s, t, o)
    ensures Inv(Next(s, a)) && InvOrder(Next(s, a)) && Fixed(Next(s, a), t, o)
  {
    var n := Next(s, a);
    StepAll(s, a);
    StepShape(s, a, t);
    assert t in n.st.txns;
    ViewOf(n, t);
    hide Next, Enabled, InvCounts, InvTables, InvCommit, WalRow, InvRecovery, ChainsFollowLog, PubRows, LogIsPublished;
    hide LogStep, LastStatus, InvLost, InvOrder, ForeignOk, FirstCommitterWins, PublishedIsLogged;
    FixedKept(s, n, t, o);
  }

  lemma {:induction false} RunFixed(s: Sys, acts: seq<Action>, s': Sys, t: string, o: TxnStatus)
    requires Inv(s) && InvOrder(s) && Run(s, acts, s') && Fixed(s, t, o)
    ensures Inv(s') && Fixed(s', t, o)
    decreases |acts|
  {
    if acts != [] {
      hide Next, Enabled, Inv, InvOrder, Fixed;
      StepFixed(s, acts[0], t, o);
      RunFixed(Next(s, acts[0]), acts[1..], s', t, o);
    }
  }

  lemma OutcomeFixes(s: Sys, t: string)
    requires View(s, t) && OrderOk(s.st.wal) && t in s.st.txns && s.st.txns[t].writeKeys != {}
    requires Outcome(s.st, t).Some? && (Outcome(s.st, t) == Some(Aborted) ==> !Reopened(s, t))
    ensures Fixed(s, t, Outcome(s.st, t).value)
  {
    OutcomeIsTrue(s, t);
    if !Terminal(s.st.txns[t].status) {
      StatusFromSuffix(s.st.wal, s.st.walFloor, t);
    }
  }

  /**
   A recorded outcome is answered in every later state exactly while the row is terminal or a terminal record of
   the transaction lies above the truncation point; after that nothing is recorded, and never the opposite. The
   one exception is an abort logged by an undo that was cut before it stored the row.
   */
  lemma OutcomePersists(s: Sys, acts: seq<Action>, s': Sys, t: string)
    requires Reachable(s) && Run(s, acts, s') && t in s.st.txns && s.st.txns[t].writeKeys != {}
    requires s.st.walFloor <= |s.st.wal| && Outcome(s.st, t).Some?
    requires Outcome(s.st, t) == Some(Aborted) ==> !Reopened(s, t)
    ensures t in s'.st.txns && s'.st.walFloor <= |s'.st.wal|
    ensures Outcome(s'.st, t) ==
            if Terminal(s'.st.txns[t].status) || RecordSurvives(s'.st, t) then Outcome(s.st, t) else None
  {
    ReachableOrder(s);
    ViewOf(s, t);
    hide InvPub, InvWal, InvCommit, RowsOk, IdsOk, WalRow, RowOk, VersionsOk, LastStatus, Next, Enabled;
    OutcomeFixes(s, t);
    var o := Outcome(s.st, t).value;
    RunFixed(s, acts, s', t, o);
    FixedAnswers(s', t, o);
  }

  lemma FixedAnswers(s: Sys, t: string, o: TxnStatus)
    requires Fixed(s, t, o) && s.st.walFloor <= |s.st.wal|
    ensures Outcome(s.st, t) == if Terminal(s.st.txns[t].status) || RecordSurvives(s.st, t) then Some(o) else None
  {
    if !Terminal(s.st.txns[t].status) {
      SuffixStatus(s.st.wal, s.st.walFloor, t);
    }
  }

  // ---------- Recovery finishes ----------

  function PcRank(pc: RecoveryPc): nat {
    match pc
    case Choose => 0
    case UndoClean(_) => 4
    case UndoLog(_) => 3
    case UndoUnpin(_) => 2
    case UndoStore(_) => 1
    case AdoptLog(_) => 3
    case AdoptResult(_) => 2
    case AdoptStore(_) => 1
  }

  function Rank(m: Mode): nat
    requires m.Recovering?
  {
    5 * |m.todo| + PcRank(m.pc)
  }

  lemma RecoveryNears(s: Sys, r: RecoverAction)
    requires RecoverEnabled(s, r) && !r.Resume?
    ensures RecoverNext(s, r).mode.Recovering? && Rank(RecoverNext(s, r).mode) < Rank(s.mode)
  {
    hide CommitVersionOf, RecoveryFindsPublished, LastStatus;
    if r.Pick? {
      assert |s.mode.todo - {r.t}| == |s.mode.todo| - 1;
    }
  }

  /** Recovery is never stuck, and every one of its steps but the last brings it nearer to its end. */
  lemma RecoveryFinishes(s: Sys)
    requires Reachable(s) && s.mode.Recovering?
    ensures exists r :: RecoverEnabled(s, r)
    ensures forall r :: RecoverEnabled(s, r) && !r.Resume? ==>
              RecoverNext(s, r).mode.Recovering? && Rank(RecoverNext(s, r).mode) < Rank(s.mode)
  {
    ReachableInv(s);
    hide InvTables, InvCommit, InvPub, InvWal, RecoverNext, Rank, WalTxns, Settled, RecoveryPcOk;
    if !s.mode.pc.Choose? {
      assert RecoverEnabled(s, Proceed);
    } else if s.mode.todo == {} {
      assert RecoverEnabled(s, Resume);
    } else {
      var t :| t in s.mode.todo;
      assert RecoverEnabled(s, Pick(t));
    }
    forall r | RecoverEnabled(s, r) && !r.Resume?
      ensures RecoverNext(s, r).mode.Recovering? && Rank(RecoverNext(s, r).mode) < Rank(s.mode)
    {
      RecoveryNears(s, r);
    }
  }

  // ---------- Failure atomicity ----------

  /**
   A commit that ran to its end, was rejected, or failed after any step and was reconciled: once its
   status is terminal, it is Committed exactly when all its keys' chains hold its entry and Aborted
   exactly when none does.
   */
  lemma FailureAtomicity(s: Sys, t: string)
    requires Reachable(s) && s.commit == Unpinning(t) && t in s.st.txns && s.st.txns[t].writeKeys != {}
    ensures s.st.txns[t].status == Committed <==> AllHold(s.st, t)
    ensures s.st.txns[t].status == Aborted <==> NoneHold(s.st, t)
  {
    ReachableInv(s);
    ViewOf(s, t);
    hide InvPub, InvWal, RowsOk, IdsOk, WalRow, RowOk, AllHold, NoneHold;
    NewestAllOrNone(s, t);
  }

  /** Recovery's chain test and reconciliation's answer alike about the transaction in flight. */
  lemma DecidersAgree(s: Sys, t: string)
    requires Reachable(s) && InFlight(s) == Some(t) && t in s.st.txns && s.st.txns[t].status == Committing
    requires s.st.walFloor <= |s.st.wal| && LastStatus(Surviving(s.st), t) == Some(Committing)
    ensures RecoveryFindsPublished(s.st, t) <==> ReconcileFindsPublished(s.st, t)
    ensures ReconcileFindsPublished(s.st, t) <==> t in s.h.pub
  {
    ReachableInv(s);
    ViewOf(s, t);
    NoneAbout(Surviving(s.st), t);
    StatusOfLast(Surviving(s.st), t);
    hide InvPub, InvWal, InvCommit, RowsOk, IdsOk, WalRow, LastStatus, ReconcileFindsPublished, RecoveryFindsPublished, WalTxns;
    SurvivorIsJudged(s, t);
    ReconcileIsRight(s, t);
  }

  // ---------- Terminal statuses against the full history ----------

  /** Whatever was pruned since: committed means every key's history has the entry, aborted means none has. */
  lemma TerminalMeansPublished(s: Sys, t: string)
    requires Reachable(s) && t in s.st.txns && Terminal(s.st.txns[t].status) && s.st.txns[t].writeKeys != {}
    ensures s.st.txns[t].status == Committed <==> forall k :: k in s.st.txns[t].writeKeys ==> LogHolds(s.h.log, k, t)
    ensures s.st.txns[t].status == Aborted <==> forall k :: k in s.st.txns[t].writeKeys ==> !LogHolds(s.h.log, k, t)
  {
    ReachableInv(s);
    hide InvTables, InvCommit, InvWal, InvRecovery, FirstCommitterWins, ChainsFollowLog;
    var k :| k in s.st.txns[t].writeKeys;
    if s.st.txns[t].status == Aborted {
      forall k | k in s.st.txns[t].writeKeys
        ensures !LogHolds(s.h.log, k, t)
      {
        assert forall e :: k in s.h.log && e in s.h.log[k] ==> EntryOk(k, e, s.h.pub, s.st.txns);
      }
    }
  }

  /** A swept or aborted transaction never gains an entry, in any later state of any run. */
  lemma AbortedNeverAppears(s: Sys, acts: seq<Action>, s': Sys, t: string, k: string)
    requires Reachable(s) && Run(s, acts, s') && t in s.st.txns && s.st.txns[t].status == Aborted
    ensures !LogHolds(s'.h.log, k, t) && !Holds(ChainOf(s'.st.chains, k), t)
  {
    hide InvCommit, InvWal, InvRecovery, RowsOk, FirstCommitterWins, InvCounts, InvLost, Run, Reachable;
    ReachableInv(s);
    RunInv(s, acts, s');
    RowsAreMonotone(s, acts, s');
    NoneIsMine(s', t, k);
    assert forall e :: k in s'.h.log && e in s'.h.log[k] ==> EntryOk(k, e, s'.h.pub, s'.st.txns);
  }

  /** The sweeper never touches the write set of a transaction that is committing. */
  lemma SweeperSparesCommitting(s: Sys, b: BackgroundAction, t: string)
    requires Reachable(s) && BackgroundEnabled(s, b) && HasStatus(s.st, t, Committing)
    ensures WriteSet(BackgroundNext(s, b).st, t) == WriteSet(s.st, t)
    ensures BackgroundNext(s, b).st.txns[t] == s.st.txns[t]
  {
    ReachableInv(s);
    hide InvCommit, InvWal, InvRecovery, InvPub, RowsOk, VersionsOk, BackgroundNext;
    SweepSpares(s, b, t);
  }

  lemma SweepSpares(s: Sys, b: BackgroundAction, t: string)
    requires BackgroundEnabled(s, b) && HasStatus(s.st, t, Committing)
    requires forall u :: u in s.sweeps ==> u in s.st.txns && s.st.txns[u].status == Aborted
    ensures WriteSet(BackgroundNext(s, b).st, t) == WriteSet(s.st, t)
    ensures BackgroundNext(s, b).st.txns[t] == s.st.txns[t]
  {
  }

  /**
   Asking to commit again: a finished commit reports the version its entries carry, now and in every
   later state.
   */
  lemma RepeatedCommit(s: Sys, acts: seq<Action>, s': Sys, t: string)
    requires Reachable(s) && Run(s, acts, s') && HasStatus(s.st, t, Committed) && s.st.txns[t].writeKeys != {}
    ensures t in s.h.pub && CommitVersionOf(s.st.txns[t]) == s.h.pub[t]
    ensures HasStatus(s'.st, t, Committed) && CommitVersionOf(s'.st.txns[t]) == s.h.pub[t]
    ensures forall k, e :: k in s'.h.log && e in s'.h.log[k] && e.txnId == t ==> e.commitVersion == s.h.pub[t]
  {
    hide InvCore, InvCounts, InvLost, CommitVersionOf, Run, Reachable;
    ReachableInv(s);
    RunInv(s, acts, s');
    RowsAreMonotone(s, acts, s');
    VersionIsPublished(s, t);
    VersionIsPublished(s', t);
    LogCarries(s', t);
  }

  lemma VersionIsPublished(s: Sys, t: string)
    requires Inv(s) && HasStatus(s.st, t, Committed) && s.st.txns[t].writeKeys != {}
    ensures t in s.h.pub && CommitVersionOf(s.st.txns[t]) == s.h.pub[t]
  {
    hide InvCommit, InvWal, InvRecovery, VersionsOk, IdsOk, FirstCommitterWins, LogIsPublished;
    assert RowOk(t, s.st.txns[t], s.h.stagers, s.h.allocVer, s.h.intent);
  }

  lemma LogCarries(s: Sys, t: string)
    requires Inv(s) && t in s.h.pub
    ensures forall k, e :: k in s.h.log && e in s.h.log[k] && e.txnId == t ==> e.commitVersion == s.h.pub[t]
  {
    hide InvCommit, InvWal, InvRecovery, InvTables, FirstCommitterWins;
    forall k, e | k in s.h.log && e in s.h.log[k] && e.txnId == t
      ensures e.commitVersion == s.h.pub[t]
    {
      assert EntryOk(k, e, s.h.pub, s.st.txns);
    }
  }

  // ---------- First committer wins ----------

  /**
   On every key, over the whole history whatever was pruned: the writer of a later entry had a snapshot
   at or above the version of every earlier one.
   */
  lemma FirstCommitterWon(s: Sys, k: string, i: nat, j: nat)
    requires Reachable(s) && k in s.h.log && i < j < |s.h.log[k]|
    ensures var earlier, later := s.h.log[k][i], s.h.log[k][j];
            && earlier.commitVersion < later.commitVersion
            && later.txnId in s.st.txns && earlier.txnId != later.txnId
            && earlier.commitVersion <= s.st.txns[later.txnId].snapshot
  {
    ReachableInv(s);
    hide InvCommit, InvWal, InvRecovery, InvTables;
    var earlier, later := s.h.log[k][i], s.h.log[k][j];
    assert EntryOk(k, earlier, s.h.pub, s.st.txns) && EntryOk(k, later, s.h.pub, s.st.txns);
  }

  // ---------- Truncation ----------

  /** The log is at least twice as long as the global version, so truncation by version stays behind it. */
  lemma WalOutrunsVersions(s: Sys)
    requires Reachable(s)
    ensures 2 * s.st.globalVersion <= |s.st.wal| && s.st.walFloor <= s.st.globalVersion
  {
    ReachableInv(s);
    WalIsLong(s);
  }

  lemma TruncationIsKnown(s: Sound, upTo: u64)
    requires BackgroundEnabled(s, Truncate(upTo))
    ensures upTo <= s.st.globalVersion
  {
    hide InvCore;
    CommittedIsKnown(s, upTo);
  }

  /** Truncating up to any committed version leaves the Committing record of the commit in flight. */
  lemma TruncationSparesIntent(s: Sys, upTo: u64, t: string)
    requires Reachable(s) && BackgroundEnabled(s, Truncate(upTo)) && InFlight(s) == Some(t) && t in s.h.intent
    ensures t in s.st.txns && s.h.intent[t] < |s.st.wal|
    ensures s.st.wal[s.h.intent[t]] == LogCommitting(t, s.st.txns[t].writeKeys)
    ensures TruncateWal(s.st, upTo).walFloor <= s.h.intent[t]
  {
    hide BackgroundEnabled, CommittedAt, Reachable, InvCounts, InvTables, InvCommit, InvPub, InvWal, InvRecovery, RowOk;
    ReachableInv(s);
    TruncationIsKnown(s, upTo);
    ViewOf(s, t);
  }
}
