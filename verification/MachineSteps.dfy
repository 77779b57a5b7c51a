/** Every step keeps the invariant. Most steps touch one transaction; one frame lemma covers the others. */
module MachineSteps {
  import opened Primitives
  import opened VersionChains
  import opened Stores
  import opened Machine
  import opened MachineInvariant

  // ---------- The frame of a step that touches one transaction ----------

  ghost predicate SameAt<T>(m: map<string, T>, m': map<string, T>, u: string) {
    if u in m then u in m' && m'[u] == m[u] else u !in m'
  }

  ghost predicate SameBut<T>(m: map<string, T>, m': map<string, T>, t0: string) {
    forall u :: u != t0 ==> SameAt(m, m', u)
  }

  predicate RowKept(r: TxnState, r': TxnState) {
    && r'.snapshot == r.snapshot && r'.writeKeys == r.writeKeys && r'.alloc == r.alloc
    && (r'.status == r.status || (r.status == Committing && r'.status == Committed))
  }

  ghost predicate WalGrows(wal: seq<WalRecord>, wal': seq<WalRecord>, t0: string, added: seq<WalRecord>) {
    wal' == wal + added && |added| <= 1 && forall r, u :: r in added && About(r, u) ==> u == t0
  }

  /** Nothing about any transaction but `t0` changed, and nothing was published or pruned. */
  ghost predicate OneTxn(s: Sys, s': Sys, t0: string, added: seq<WalRecord>) {
    && WalGrows(s.st.wal, s'.st.wal, t0, added)
    && s'.st.chains == s.st.chains && s'.h.log == s.h.log && s'.h.pub == s.h.pub
    && s'.h.lost == s.h.lost && s'.h.origin == s.h.origin
    && SameBut(s.st.txns, s'.st.txns, t0) && SameBut(s.h.intent, s'.h.intent, t0)
    && SameBut(s.h.allocVer, s'.h.allocVer, t0)
    && SameBut(s.begins, s'.begins, t0) && SameBut(s.sweeps, s'.sweeps, t0)
    && s.h.begun <= s'.h.begun <= s.h.begun + {t0} && s.h.stagers <= s'.h.stagers
    && (InFlight(s).Some? && InFlight(s) != Some(t0) ==> InFlight(s') == InFlight(s))
  }

  /** What the step must establish about `t0` itself. */
  ghost predicate LocalOk(s: Sys, s': Sys, t0: string) {
    if t0 in s'.st.txns then
      var rec := s'.st.txns[t0];
      && RowOk(t0, rec, s'.h.stagers, s'.h.allocVer, s'.h.intent)
      && WalRow(t0, rec, s'.st.wal, s'.h.intent, s'.h.pub, Exempt(InFlight(s'), s'.h.lost))
      && (t0 in s'.h.intent || t0 in s'.h.allocVer ==> t0 in s'.h.begun)
      && (t0 in s'.begins ==> t0 !in s'.h.begun && s'.begins[t0].Stored?)
      && (t0 in s'.sweeps ==> rec.status == Aborted)
      && (t0 in s.h.pub ==> t0 in s.st.txns && RowKept(s.st.txns[t0], rec) && SameAt(s.h.allocVer, s'.h.allocVer, t0))
      && (rec.status == Committed && rec.writeKeys != {} ==> t0 in s.h.pub)
      && (t0 !in s.st.txns ==> Unused(s.h.log, t0))
    else
      && t0 !in s.st.txns && LastAbout(s'.st.wal, t0).None?
      && t0 !in s'.h.begun && t0 !in s'.h.intent && t0 !in s'.h.allocVer && t0 !in s'.sweeps
      && (t0 in s'.begins ==> s'.begins[t0].Captured?)
  }

  lemma PubFrame(log: map<string, Entries>, pub: map<string, u64>,
                 txns: map<string, TxnState>, av: map<string, u64>,
                 txns': map<string, TxnState>, av': map<string, u64>)
    requires PubOk(log, pub, txns, av)
    requires forall t :: t in pub ==> t in av' && av'[t] == av[t]
    requires forall t :: t in pub ==> t in txns' && RowKept(txns[t], txns'[t])
    requires CommittedIsPublished(txns', pub)
    requires forall t :: t in txns' && t !in txns ==> Unused(log, t)
    ensures PubOk(log, pub, txns', av')
  {
    forall k, e | k in log && e in log[k]
      ensures EntryOk(k, e, pub, txns') && (e.txnId in txns' ==> e.txnId in txns)
    {
      assert EntryOk(k, e, pub, txns);
    }
    forall k | k in log
      ensures WritersSawPrefix(txns', log[k])
    {
      var full := log[k];
      assert WritersSawPrefix(txns, full);
      forall j | 0 <= j < |full| && full[j].txnId in txns'
        ensures full[j].txnId in pub && full[j].txnId in txns
      {
        assert full[j] in full && EntryOk(k, full[j], pub, txns');
      }
    }
  }

  lemma GrownLast(wal: seq<WalRecord>, wal': seq<WalRecord>, t0: string, added: seq<WalRecord>)
    requires WalGrows(wal, wal', t0, added)
    ensures forall u :: u != t0 ==> LastAbout(wal', u) == LastAbout(wal, u)
    ensures added == [] ==> wal' == wal
    ensures added != [] && About(added[0], t0) ==> LastAbout(wal', t0) == Some(added[0])
  {
    if added == [] {
      assert wal' == wal;
    } else {
      assert added == [added[0]] && added[0] in added;
      LastAboutAppend(wal, added[0]);
    }
  }

  lemma WalFrame(s: Sys, s': Sys, t0: string, added: seq<WalRecord>)
    requires WalRowsOk(s.st.txns, s.st.wal, s.h.intent, s.h.pub, Exempt(InFlight(s), s.h.lost))
    requires OneTxn(s, s', t0, added) && LocalOk(s, s', t0)
    ensures WalRowsOk(s'.st.txns, s'.st.wal, s'.h.intent, s'.h.pub, Exempt(InFlight(s'), s'.h.lost))
  {
    GrownLast(s.st.wal, s'.st.wal, t0, added);
    forall u | u in s'.st.txns
      ensures WalRow(u, s'.st.txns[u], s'.st.wal, s'.h.intent, s'.h.pub, Exempt(InFlight(s'), s'.h.lost))
    {
      if u != t0 {
        assert SameAt(s.st.txns, s'.st.txns, u) && SameAt(s.h.intent, s'.h.intent, u);
        assert WalRow(u, s.st.txns[u], s.st.wal, s.h.intent, s.h.pub, Exempt(InFlight(s), s.h.lost));
      }
    }
    forall u | u !in s'.st.txns
      ensures LastAbout(s'.st.wal, u).None?
    {
      assert u != t0 ==> SameAt(s.st.txns, s'.st.txns, u);
    }
  }

  lemma RowsFrame(s: Sys, s': Sys, t0: string, added: seq<WalRecord>)
    requires InvTables(s) && OneTxn(s, s', t0, added) && LocalOk(s, s', t0)
    ensures RowsOk(s'.st.txns, s'.h.stagers, s'.h.allocVer, s'.h.intent)
    ensures IdsOk(s'.h.begun, s'.st.txns, s'.h.allocVer, s'.h.intent, s'.begins, s'.sweeps)
  {
    forall u | u in s'.st.txns
      ensures RowOk(u, s'.st.txns[u], s'.h.stagers, s'.h.allocVer, s'.h.intent)
    {
      if u != t0 {
        assert SameAt(s.st.txns, s'.st.txns, u) && SameAt(s.h.intent, s'.h.intent, u) && SameAt(s.h.allocVer, s'.h.allocVer, u);
        assert RowOk(u, s.st.txns[u], s.h.stagers, s.h.allocVer, s.h.intent);
      }
    }
    forall u
      ensures u in s'.h.begun ==> u in s'.st.txns
      ensures u in s'.h.intent ==> u in s'.h.begun
      ensures u in s'.h.allocVer ==> u in s'.h.begun
      ensures u in s'.begins ==> u !in s'.h.begun && (s'.begins[u].Captured? ==> u !in s'.st.txns) && (s'.begins[u].Stored? ==> u in s'.st.txns)
      ensures u in s'.sweeps ==> u in s'.st.txns && s'.st.txns[u].status == Aborted
    {
      if u != t0 {
        assert SameAt(s.st.txns, s'.st.txns, u) && SameAt(s.h.intent, s'.h.intent, u) && SameAt(s.h.allocVer, s'.h.allocVer, u);
        assert SameAt(s.begins, s'.begins, u) && SameAt(s.sweeps, s'.sweeps, u);
      }
    }
  }

  lemma OneTxnFrame(s: Sound, s': Sys, t0: string, added: seq<WalRecord>)
    requires OneTxn(s, s', t0, added) && LocalOk(s, s', t0)
    requires s'.st.walFloor <= |s'.st.wal| && s'.st.walFloor <= s'.st.globalVersion
    requires VersionsOk(s'.h.allocVer, s'.h.origin, s'.st.globalVersion)
    requires FlightOk(InFlight(s'), s'.st.txns, s'.h.allocVer, s'.st.globalVersion, s'.h.intent, s'.h.origin)
    ensures InvTables(s') && InvPub(s') && InvWal(s')
  {
    RowsFrame(s, s', t0, added);
    WalFrame(s, s', t0, added);
    forall t | t in s.h.pub
      ensures t in s'.h.allocVer && s'.h.allocVer[t] == s.h.allocVer[t] && t in s'.st.txns && RowKept(s.st.txns[t], s'.st.txns[t])
    {
      if t != t0 {
        assert SameAt(s.st.txns, s'.st.txns, t) && SameAt(s.h.allocVer, s'.h.allocVer, t);
      }
    }
    forall t | t in s'.st.txns && s'.st.txns[t].status == Committed && s'.st.txns[t].writeKeys != {}
      ensures t in s.h.pub
    {
      if t != t0 {
        assert SameAt(s.st.txns, s'.st.txns, t);
      }
    }
    RowsGrow(s, s', t0);
    PubFrame(s.h.log, s.h.pub, s.st.txns, s.h.allocVer, s'.st.txns, s'.h.allocVer);
  }

  lemma RowsGrow(s: Sys, s': Sys, t0: string)
    requires SameBut(s.st.txns, s'.st.txns, t0) && LocalOk(s, s', t0) && s'.h.log == s.h.log && s'.h.origin == s.h.origin
    requires ForeignOk(s.h.log, s.st.txns, s.h.origin)
    ensures forall t :: t in s'.st.txns && t !in s.st.txns ==> Unused(s.h.log, t)
    ensures ForeignOk(s'.h.log, s'.st.txns, s'.h.origin)
  {
    forall t
      ensures t in s'.st.txns && t !in s.st.txns ==> Unused(s.h.log, t)
      ensures t in s.st.txns ==> t in s'.st.txns
    {
      if t != t0 {
        assert SameAt(s.st.txns, s'.st.txns, t);
      }
    }
  }

  /** A step about another transaction leaves the committer's facts alone. */
  lemma OtherPc(s: Sys, s': Sys, t0: string, added: seq<WalRecord>)
    requires InvCommit(s) && OneTxn(s, s', t0, added)
    requires s'.commit == s.commit && s'.st.globalVersion == s.st.globalVersion
    requires s.commit.Idle? || s.commit.t != t0
    ensures InvCommit(s')
  {
    if !s.commit.Idle? {
      GrownLast(s.st.wal, s'.st.wal, t0, added);
      var u := s.commit.t;
      assert SameAt(s.st.txns, s'.st.txns, u) && SameAt(s.h.intent, s'.h.intent, u);
      assert SameAt(s.sweeps, s'.sweeps, u) && SameAt(s.h.allocVer, s'.h.allocVer, u);
    }
  }

  /** What the invariant says about one transaction. */
  ghost predicate View(s: Sys, t: string) {
    var st, h := s.st, s.h;
    && st.walFloor <= |st.wal| && st.walFloor <= st.globalVersion
    && (t in h.begun ==> t in st.txns) && (t in h.intent || t in h.allocVer ==> t in h.begun)
    && (t in s.begins ==>
          t !in h.begun && (s.begins[t].Captured? ==> t !in st.txns) && (s.begins[t].Stored? ==> t in st.txns))
    && (t in s.sweeps ==> t in st.txns && st.txns[t].status == Aborted)
    && (t in h.pub ==>
          && t in st.txns && t in h.allocVer && h.pub[t] == h.allocVer[t]
          && (st.txns[t].status == Committing || st.txns[t].status == Committed))
    && (if t in st.txns then
          && RowOk(t, st.txns[t], h.stagers, h.allocVer, h.intent)
          && WalRow(t, st.txns[t], st.wal, h.intent, h.pub, Exempt(InFlight(s), h.lost))
          && (st.txns[t].status == Committed && st.txns[t].writeKeys != {} ==> t in h.pub)
        else LastAbout(st.wal, t).None?)
    && FlightOk(InFlight(s), st.txns, h.allocVer, st.globalVersion, h.intent, h.origin)
  }

  lemma ViewOf(s: Sound, t: string)
    ensures View(s, t)
  {
  }

  /** The step about `t0` is fine for `t0`, and its frame holds. */
  ghost predicate GoodStep(s: Sys, s': Sys, t0: string, added: seq<WalRecord>) {
    && OneTxn(s, s', t0, added) && LocalOk(s, s', t0)
    && s'.st.walFloor <= |s'.st.wal| && s'.st.walFloor <= s'.st.globalVersion
    && FlightOk(InFlight(s'), s'.st.txns, s'.h.allocVer, s'.st.globalVersion, s'.h.intent, s'.h.origin)
  }

  // ---------- Client steps ----------

  lemma ClientCounts(s: Sys, a: ClientAction)
    requires InvCounts(s) && ClientEnabled(s, a)
    ensures InvCounts(ClientNext(s, a))
  {
  }

  predicate AboutReader(a: ClientAction) {
    a.AcquireReader? || a.DropReader?
  }

  function ClientLogs(s: Sys, a: ClientAction): seq<WalRecord> {
    match a
    case BeginLog(t) => [LogBegin(t, if t in s.st.txns then s.st.txns[t].snapshot else 0)]
    case Stage(t, k, _) => [LogStage(t, k)]
    case _ => []
  }

  predicate IsBegin(a: ClientAction) {
    a.BeginCapture? || a.BeginStore? || a.BeginLog?
  }

  lemma BeginLocal(s: Sys, a: ClientAction)
    requires IsBegin(a) && View(s, a.t) && ClientEnabled(s, a)
    ensures GoodStep(s, ClientNext(s, a), a.t, ClientLogs(s, a))
  {
    var s' := ClientNext(s, a);
    assert s'.st.wal == s.st.wal + ClientLogs(s, a);
    GrownLast(s.st.wal, s'.st.wal, a.t, ClientLogs(s, a));
  }

  lemma ClientLocal(s: Sys, a: ClientAction)
    requires !AboutReader(a) && View(s, a.t) && ClientEnabled(s, a)
    ensures GoodStep(s, ClientNext(s, a), a.t, ClientLogs(s, a))
  {
    hide GoodStep, View, ClientNext;
    if IsBegin(a) {
      BeginLocal(s, a);
    } else {
      StageLocal(s, a);
    }
  }

  lemma StageLocal(s: Sys, a: ClientAction)
    requires (a.Stage? || a.Heartbeat?) && View(s, a.t) && ClientEnabled(s, a)
    ensures GoodStep(s, ClientNext(s, a), a.t, ClientLogs(s, a))
  {
    var s' := ClientNext(s, a);
    assert s'.st.wal == s.st.wal + ClientLogs(s, a);
    GrownLast(s.st.wal, s'.st.wal, a.t, ClientLogs(s, a));
  }

  lemma ClientCore(s: Sound, a: ClientAction)
    requires ClientEnabled(s, a)
    ensures InvCore(ClientNext(s, a))
  {
    if !AboutReader(a) {
      var s' := ClientNext(s, a);
      ViewOf(s, a.t);
      ClientLocal(s, a);
      OneTxnFrame(s, s', a.t, ClientLogs(s, a));
      OtherPc(s, s', a.t, ClientLogs(s, a));
    }
  }

  // ---------- Commit and abort steps ----------

  /** What a one-row step must establish about its transaction. */
  ghost predicate EffectOk(s: Sys, t: string, e: Effect) {
    var h := s.h;
    var last := if e.logs == [] then LastAbout(s.st.wal, t) else Some(e.logs[0]);
    && !e.next.Idle? && e.next.t == t && t in h.begun && t !in s.sweeps
    && |e.logs| <= 1 && (e.logs != [] ==> About(e.logs[0], t))
    && RowOk(t, e.row, h.stagers, h.allocVer, h.intent)
    && WalRowAt(t, e.row, s.st.wal, last, h.intent, h.pub, Exempt(if InCommitting(e.next) then Some(t) else None, h.lost))
    && PcOk(e.next, e.row, last, h.allocVer, s.st.globalVersion, h.intent, h.pub)
    && (t in h.pub ==> t in s.st.txns && RowKept(s.st.txns[t], e.row))
    && (e.row.status == Committed && e.row.writeKeys != {} ==> t in h.pub)
    && (h.origin.Blank? && t in h.intent && InCommitting(e.next) ==> s.st.globalVersion <= h.intent[t])
  }

  lemma PerformGood(s: Sys, t: string, e: Effect)
    requires View(s, t) && t in s.st.txns && s.mode.Running? && EffectOk(s, t, e)
    requires s.commit.Idle? || s.commit.t == t
    ensures GoodStep(s, Perform(s, t, e), t, e.logs) && InvCommit(Perform(s, t, e))
  {
    GrownLast(s.st.wal, Perform(s, t, e).st.wal, t, e.logs);
  }

  /** What the invariant tells each committer step about its own transaction. */
  ghost predicate CommitView(s: Sys, a: CommitAction)
    requires CommitEnabled(s, a)
  {
    var t := Target(s.commit, a);
    && View(s, t) && InvCommit(s)
    && (a.Reconcile? ==> (ReconcileFindsPublished(s.st, t) <==> t in s.h.pub))
  }

  lemma ClaimEffect(s: Sys, a: CommitAction)
    requires CommitEnabled(s, a) && CommitView(s, a) && (a.Claim? || a.AbortClaim? || a.FindCycle? || a.CheckChains?)
    ensures EffectOk(s, Target(s.commit, a), EffectOf(s, a))
  {
  }

  lemma StoreEffect(s: Sys, a: CommitAction)
    requires CommitEnabled(s, a) && CommitView(s, a)
    requires a.StoreCommitted? || a.StoreRejected? || a.StoreFixed? || a.Fail? || a.Reconcile?
    ensures EffectOk(s, Target(s.commit, a), EffectOf(s, a))
  {
  }

  lemma StoreIntentEffect(s: Sys)
    requires CommitEnabled(s, StoreIntent) && CommitView(s, StoreIntent)
    ensures EffectOk(s, s.commit.t, EffectOf(s, StoreIntent))
  {
    var keys := s.st.txns[s.commit.t].writeKeys;
    if keys != {} {
      var k :| k in keys;
      assert k in Uniform(keys, s.commit.v);
    }
  }

  lemma LogEffect(s: Sys, a: CommitAction)
    requires CommitEnabled(s, a) && CommitView(s, a) && (a.LogDone? || a.LogResult?)
    ensures EffectOk(s, Target(s.commit, a), EffectOf(s, a))
  {
  }

  lemma LogAbortEffect(s: Sys, a: CommitAction)
    requires CommitEnabled(s, a) && CommitView(s, a) && (a.LogReject? || a.AbortLog?)
    ensures EffectOk(s, Target(s.commit, a), EffectOf(s, a))
  {
  }

  lemma CommitGood(s: Sys, a: CommitAction)
    requires CommitEnabled(s, a) && CommitView(s, a)
    ensures GoodStep(s, CommitNext(s, a), Target(s.commit, a), EffectOf(s, a).logs) && InvCommit(CommitNext(s, a))
  {
    if a.Claim? || a.AbortClaim? || a.FindCycle? || a.CheckChains? { ClaimEffect(s, a); }
    else if a.StoreIntent? { StoreIntentEffect(s); }
    else if a.LogDone? || a.LogResult? { LogEffect(s, a); }
    else if a.LogReject? || a.AbortLog? { LogAbortEffect(s, a); }
    else { StoreEffect(s, a); }
    PerformGood(s, Target(s.commit, a), EffectOf(s, a));
  }

  lemma CommitViewOf(s: Sound, a: CommitAction)
    requires CommitEnabled(s, a)
    ensures CommitView(s, a)
  {
    var t := Target(s.commit, a);
    ViewOf(s, t);
    if a.Reconcile? {
      ReconcileIsRight(s, t);
    }
  }

  lemma CommitCore(s: Sound, a: CommitAction)
    requires CommitEnabled(s, a)
    ensures InvCore(CommitNext(s, a))
  {
    CommitViewOf(s, a);
    CommitGood(s, a);
    OneTxnFrame(s, CommitNext(s, a), Target(s.commit, a), EffectOf(s, a).logs);
  }

  // ---------- The committer's other steps ----------

  lemma AllocateGood(s: Sys)
    requires AllocateEnabled(s) && View(s, s.commit.t) && InvCommit(s)
    ensures GoodStep(s, AllocateNext(s), s.commit.t, []) && InvCommit(AllocateNext(s))
  {
    assert s.st.wal == s.st.wal + [];
  }

  lemma AllocateVersions(s: Sys)
    requires AllocateEnabled(s) && VersionsOk(s.h.allocVer, s.h.origin, s.st.globalVersion)
    ensures VersionsOk(AllocateNext(s).h.allocVer, s.h.origin, AllocateNext(s).st.globalVersion)
  {
  }

  lemma AllocateCore(s: Sound)
    requires AllocateEnabled(s)
    ensures InvCore(AllocateNext(s))
  {
    ViewOf(s, s.commit.t);
    AllocateGood(s);
    AllocateVersions(s);
    OneTxnFrame(s, AllocateNext(s), s.commit.t, []);
  }

  lemma AllocateCounts(s: Sys)
    requires InvCounts(s) && AllocateEnabled(s) && s.commit.t in s.h.begun && s.commit.t !in s.h.allocVer
    requires s.st.txns[s.commit.t].writeKeys != {} ==> s.commit.t in s.h.stagers
    ensures InvCounts(AllocateNext(s))
  {
  }

  /** At least two log records precede each allocated version. */
  lemma WalIsLong(s: Sys)
    requires InvCounts(s)
    ensures 2 * (s.st.globalVersion - Base(s.h.origin)) <= |s.st.wal|
  {
    SubsetSize(s.h.allocVer.Keys, s.h.begun);
    SubsetSize(s.h.allocVer.Keys, s.h.stagers);
  }

  lemma LogIntentGood(s: Sys)
    requires LogIntentEnabled(s) && View(s, s.commit.t) && InvCommit(s)
    requires s.h.origin.Blank? ==> s.st.globalVersion <= |s.st.wal|
    ensures GoodStep(s, LogIntentNext(s), s.commit.t, [LogCommitting(s.commit.t, s.st.txns[s.commit.t].writeKeys)])
    ensures InvCommit(LogIntentNext(s))
  {
    GrownLast(s.st.wal, LogIntentNext(s).st.wal, s.commit.t, [LogCommitting(s.commit.t, s.st.txns[s.commit.t].writeKeys)]);
  }

  lemma LogIntentCore(s: Sound)
    requires LogIntentEnabled(s) && (s.h.origin.Blank? ==> s.st.globalVersion <= |s.st.wal|)
    ensures InvCore(LogIntentNext(s))
  {
    ViewOf(s, s.commit.t);
    LogIntentGood(s);
    OneTxnFrame(s, LogIntentNext(s), s.commit.t, [LogCommitting(s.commit.t, s.st.txns[s.commit.t].writeKeys)]);
  }

  lemma ReleasePinCore(s: Sound)
    requires ReleasePinEnabled(s)
    ensures InvCore(ReleasePinNext(s))
  {
    assert InFlight(ReleasePinNext(s)) == InFlight(s);
  }

  lemma AbortCleanCore(s: Sound)
    requires AbortCleanEnabled(s)
    ensures InvCore(AbortCleanNext(s))
  {
    assert InFlight(AbortCleanNext(s)) == InFlight(s);
  }

  // ---------- Publishing ----------

  lemma EntryIsOlder(s: Sys, k: string, e: VersionEntry)
    requires InvPub(s) && VersionsOk(s.h.allocVer, s.h.origin, s.st.globalVersion) && k in s.h.log && e in s.h.log[k]
    requires !s.commit.Idle? && s.commit.t in s.h.allocVer && s.commit.t !in s.h.pub && s.h.allocVer[s.commit.t] == s.st.globalVersion
    ensures e.commitVersion < s.st.globalVersion
  {
    hide CommittedIsPublished, PublishedIsLogged, FirstCommitterWins, ChainsFollowLog;
    assert EntryOk(k, e, s.h.pub, s.st.txns);
  }

  /** Every chain the commit appends to ends below its version and within its snapshot. */
  lemma PublishKey(s: Sys, k: string, e: VersionEntry)
    requires InvPub(s) && VersionsOk(s.h.allocVer, s.h.origin, s.st.globalVersion)
    requires s.commit.Intended? && s.commit.t in s.st.txns && s.commit.t in s.h.allocVer && s.commit.t !in s.h.pub
    requires s.h.allocVer[s.commit.t] == s.st.globalVersion == e.commitVersion
    requires AppendOne(ChainOf(s.st.chains, k), e, s.st.txns[s.commit.t].snapshot).Some?
    ensures AppendOne(ChainOf(s.st.chains, k), e, s.st.txns[s.commit.t].snapshot).value == ChainOf(s.st.chains, k) + [e]
    ensures var full := ChainOf(s.h.log, k);
            && Ascending(full + [e]) && IsSuffix(ChainOf(s.st.chains, k) + [e], full + [e])
            && forall i :: 0 <= i < |full| ==> full[i].commitVersion <= s.st.txns[s.commit.t].snapshot
  {
    var c, full := ChainOf(s.st.chains, k), ChainOf(s.h.log, k);
    NoneIsMine(s, s.commit.t, k);
    forall i | 0 <= i < |full|
      ensures full[i].commitVersion < e.commitVersion
    {
      assert full[i] in full;
      EntryIsOlder(s, k, full[i]);
    }
    if c != [] {
      assert c[|c| - 1] == full[|full| - 1] && c[|c| - 1] in c;
      forall i | 0 <= i < |full|
        ensures full[i].commitVersion <= Latest(c)
      {
        assert i < |full| - 1 ==> full[i].commitVersion < full[|full| - 1].commitVersion;
      }
      assert c + [e] == (full + [e])[|full| - |c|..];
    }
  }

  ghost predicate Publishes(s: Sys) {
    && PublishEnabled(s)
    && CanAppend(s.st.chains, Batch(s.st, s.commit.t, s.commit.v), s.st.txns[s.commit.t].snapshot)
    && s.st.txns[s.commit.t].writeKeys != {}
  }

  lemma PublishNextIs(s: Sys)
    requires Publishes(s)
    ensures var batch := Batch(s.st, s.commit.t, s.commit.v);
            var s' := PublishNext(s);
            && s'.st == s.st.(chains := AppendAll(s.st.chains, batch, s.st.txns[s.commit.t].snapshot))
            && s'.h == s.h.(log := Extend(s.h.log, batch), pub := s.h.pub[s.commit.t := s.commit.v])
            && s' == s.(st := s'.st, h := s'.h, commit := Appended(s.commit.t, s.commit.v))
  {
  }

  /** What one published key's history and chain look like afterwards. */
  ghost predicate KeyOk(k: string, chains: map<string, Entries>, log: map<string, Entries>, txns: map<string, TxnState>)
    requires k in log && k in chains
  {
    Ascending(log[k]) && IsSuffix(chains[k], log[k]) && WritersSawPrefix(txns, log[k])
  }

  lemma PublishedKeyOk(s: Sys, k: string)
    requires Publishes(s) && InvPub(s) && VersionsOk(s.h.allocVer, s.h.origin, s.st.globalVersion)
    requires s.commit.t in s.h.allocVer && s.commit.t !in s.h.pub && k in s.st.txns[s.commit.t].writeKeys
    requires s.h.allocVer[s.commit.t] == s.st.globalVersion == s.commit.v
    ensures var e := EntryFor(s.commit.t, s.commit.v, k, WriteSet(s.st, s.commit.t));
            && AppendOne(ChainOf(s.st.chains, k), e, s.st.txns[s.commit.t].snapshot) == Some(ChainOf(s.st.chains, k) + [e])
            && Ascending(ChainOf(s.h.log, k) + [e])
            && IsSuffix(ChainOf(s.st.chains, k) + [e], ChainOf(s.h.log, k) + [e])
            && WritersSawPrefix(s.st.txns, ChainOf(s.h.log, k) + [e])
  {
    hide AppendOne, Ascending, PubRows, CommittedIsPublished, LogIsPublished, PublishedIsLogged;
    var batch := Batch(s.st, s.commit.t, s.commit.v);
    assert k in batch;
    PublishKey(s, k, batch[k]);
    assert k in s.h.log ==> WritersSawPrefix(s.st.txns, s.h.log[k]);
  }

  lemma PublishChains(s: Sys)
    requires Publishes(s) && InvPub(s) && VersionsOk(s.h.allocVer, s.h.origin, s.st.globalVersion)
    requires s.commit.t in s.h.allocVer && s.commit.t !in s.h.pub
    requires s.h.allocVer[s.commit.t] == s.st.globalVersion == s.commit.v
    ensures var batch := Batch(s.st, s.commit.t, s.commit.v);
            var chains := AppendAll(s.st.chains, batch, s.st.txns[s.commit.t].snapshot);
            ChainsFollowLog(chains, Extend(s.h.log, batch)) && FirstCommitterWins(Extend(s.h.log, batch), s.st.txns)
  {
    var batch := Batch(s.st, s.commit.t, s.commit.v);
    var chains, log := AppendAll(s.st.chains, batch, s.st.txns[s.commit.t].snapshot), Extend(s.h.log, batch);
    assert log.Keys == chains.Keys;
    forall k | k in log
      ensures KeyOk(k, chains, log, s.st.txns)
    {
      if k in batch {
        PublishedKeyOk(s, k);
      } else {
        assert KeyOk(k, s.st.chains, s.h.log, s.st.txns);
      }
    }
  }

  lemma ExtendEntries(log: map<string, Entries>, pub: map<string, u64>, txns: map<string, TxnState>,
                      t: string, v: u64, batch: map<string, VersionEntry>)
    requires LogIsPublished(log, pub, txns) && PublishedIsLogged(log, pub, txns)
    requires t in txns && t !in pub && batch.Keys == txns[t].writeKeys
    requires forall k :: k in batch ==> batch[k].txnId == t && batch[k].commitVersion == v && batch[k].backendKey == k
    ensures LogIsPublished(Extend(log, batch), pub[t := v], txns)
    ensures PublishedIsLogged(Extend(log, batch), pub[t := v], txns)
  {
    var log', pub' := Extend(log, batch), pub[t := v];
    forall k, e | k in log' && e in log'[k]
      ensures EntryOk(k, e, pub', txns)
    {
      if k in log && e in log[k] {
        assert EntryOk(k, e, pub, txns);
      } else {
        assert k in batch && e == batch[k];
      }
    }
    forall u, k | u in pub' && u in txns && k in txns[u].writeKeys
      ensures LogHolds(log', k, u)
    {
      if u == t {
        assert log'[k][|log'[k]| - 1] == batch[k] && batch[k] in log'[k];
      } else {
        assert LogHolds(log, k, u);
        var e :| e in log[k] && e.txnId == u;
        assert e in log'[k];
      }
    }
  }

  lemma PubRowsGrow(pub: map<string, u64>, txns: map<string, TxnState>, av: map<string, u64>, t: string, v: u64)
    requires PubRows(pub, txns, av) && CommittedIsPublished(txns, pub)
    requires t in txns && t in av && av[t] == v && txns[t].status == Committing
    requires txns[t].writeKeys != {} && txns[t].alloc != map[]
    ensures PubRows(pub[t := v], txns, av) && CommittedIsPublished(txns, pub[t := v])
  {
  }

  lemma PublishWal(s: Sys)
    requires Publishes(s) && InvWal(s) && InvCommit(s)
    ensures InvWal(PublishNext(s)) && InvCommit(PublishNext(s))
  {
    PublishNextIs(s);
    var s', t := PublishNext(s), s.commit.t;
    forall u | u in s'.st.txns
      ensures WalRow(u, s'.st.txns[u], s'.st.wal, s'.h.intent, s'.h.pub, Exempt(InFlight(s'), s'.h.lost))
    {
      assert WalRow(u, s.st.txns[u], s.st.wal, s.h.intent, s.h.pub, Exempt(InFlight(s), s.h.lost));
    }
  }

  lemma PublishForeign(s: Sys)
    requires Publishes(s) && ForeignOk(s.h.log, s.st.txns, s.h.origin)
    ensures ForeignOk(Extend(s.h.log, Batch(s.st, s.commit.t, s.commit.v)), s.st.txns, s.h.origin)
  {
    hide CanAppend;
    var batch := Batch(s.st, s.commit.t, s.commit.v);
    var log' := Extend(s.h.log, batch);
    forall k, e: VersionEntry | k in log' && e in log'[k] && e.txnId !in s.st.txns
      ensures k in s.h.log && e in s.h.log[k]
    {
      assert k in batch ==> batch[k].txnId in s.st.txns;
    }
  }

  lemma PublishPub(s: Sys)
    requires Publishes(s) && InvPub(s) && VersionsOk(s.h.allocVer, s.h.origin, s.st.globalVersion)
    requires s.commit.t in s.h.allocVer && s.commit.t !in s.h.pub
    requires s.h.allocVer[s.commit.t] == s.st.globalVersion == s.commit.v
    requires s.st.txns[s.commit.t].status == Committing && s.st.txns[s.commit.t].alloc != map[]
    ensures var batch := Batch(s.st, s.commit.t, s.commit.v);
            && PubOk(Extend(s.h.log, batch), s.h.pub[s.commit.t := s.commit.v], s.st.txns, s.h.allocVer)
            && ChainsFollowLog(AppendAll(s.st.chains, batch, s.st.txns[s.commit.t].snapshot), Extend(s.h.log, batch))
            && ForeignOk(Extend(s.h.log, batch), s.st.txns, s.h.origin)
  {
    PublishForeign(s);
    PublishChains(s);
    PubRowsGrow(s.h.pub, s.st.txns, s.h.allocVer, s.commit.t, s.commit.v);
    ExtendEntries(s.h.log, s.h.pub, s.st.txns, s.commit.t, s.commit.v, Batch(s.st, s.commit.t, s.commit.v));
  }

  lemma PublishCore(s: Sound)
    requires PublishEnabled(s)
    ensures InvCore(PublishNext(s))
  {
    if Publishes(s) {
      PublishPub(s);
      PublishWal(s);
      PublishNextIs(s);
    } else {
      PublishNothing(s);
    }
  }

  lemma PublishNothing(s: Sys)
    requires PublishEnabled(s) && !Publishes(s) && InvCommit(s)
    ensures var s' := PublishNext(s);
            s' == s.(commit := s'.commit) && InFlight(s') == InFlight(s) && InvCommit(s')
  {
  }

  /** Publishing touches neither pins, rows nor holders. */
  lemma PublishKeeps(s: Sys)
    requires PublishEnabled(s) && InvCommit(s)
    ensures var s' := PublishNext(s);
            && s'.st.pins == s.st.pins && s'.st.txns == s.st.txns && s'.h.holds == s.h.holds
            && s'.begins == s.begins && s'.sweeps == s.sweeps && s'.readers == s.readers
            && s'.mode == s.mode && s'.h.crashed == s.h.crashed
            && InCommitting(s.commit) && InCommitting(s'.commit)
  {
    hide PublishNext;
    if Publishes(s) {
      PublishNextIs(s);
    } else {
      PublishNothing(s);
    }
  }
}
