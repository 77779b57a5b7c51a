/**
 What every step of the protocol keeps, in every run, crashes and failed steps included. Each part is
 stated over just the tables it speaks about, so a step that leaves those alone keeps it at once.
 */
module MachineInvariant {
  import opened Primitives
  import opened VersionChains
  import opened Stores
  import opened Machine

  // ---------- The last log record about a transaction ----------

  function LastAbout(w: seq<WalRecord>, t: string): Option<WalRecord> {
    if w == [] then None
    else if About(w[|w| - 1], t) then Some(w[|w| - 1])
    else LastAbout(w[..|w| - 1], t)
  }

  lemma LastAboutAppend(w: seq<WalRecord>, r: WalRecord)
    ensures forall t :: LastAbout(w + [r], t) == if About(r, t) then Some(r) else LastAbout(w, t)
  {
    assert (w + [r])[..|w|] == w;
  }

  /** Truncating below a record about `t` does not change which record about `t` is last. */
  lemma {:induction false} SuffixSees(w: seq<WalRecord>, f: nat, p: nat, t: string)
    requires f <= p < |w| && About(w[p], t)
    ensures LastAbout(w[f..], t) == LastAbout(w, t)
  {
    if !About(w[|w| - 1], t) {
      assert w[f..][..|w| - f - 1] == w[..|w| - 1][f..];
      SuffixSees(w[..|w| - 1], f, p, t);
    }
  }

  lemma {:induction false} AboutExists(w: seq<WalRecord>, t: string) returns (p: nat)
    requires t in WalTxns(w)
    ensures p < |w| && About(w[p], t)
  {
    var r :| r in w && !r.LogMemtableFlushed? && r.txn == t;
    p :| p < |w| && w[p] == r;
  }

  lemma {:induction false} NoneAbout(w: seq<WalRecord>, t: string)
    ensures LastAbout(w, t).None? <==> t !in WalTxns(w)
    ensures LastAbout(w, t).Some? ==> LastAbout(w, t).value in w && About(LastAbout(w, t).value, t)
  {
    if w != [] {
      var b := w[..|w| - 1];
      assert w == b + [w[|w| - 1]];
      NoneAbout(b, t);
      if About(w[|w| - 1], t) {
        assert w[|w| - 1] in w;
      } else {
        assert forall r :: r in w && About(r, t) <==> r in b && About(r, t);
        assert t in WalTxns(w) <==> exists r :: r in w && About(r, t);
        assert t in WalTxns(b) <==> exists r :: r in b && About(r, t);
      }
    }
  }

  /** Recovery's folded status agrees with the last record whenever that record is decisive. */
  lemma {:induction false} StatusOfLast(w: seq<WalRecord>, t: string)
    ensures LastAbout(w, t).None? ==> LastStatus(w, t).None?
    ensures LastAbout(w, t).Some? ==> LastStatus(w, t).Some?
    ensures LastAbout(w, t).Some? && LastAbout(w, t).value.LogCommitting? ==>
              LastStatus(w, t) == Some(Committing) && LastKeys(w, t) == LastAbout(w, t).value.keys
    ensures LastAbout(w, t).Some? && (LastAbout(w, t).value.LogCommitted? || LastAbout(w, t).value.LogCommitResult?) ==>
              LastStatus(w, t) == Some(Committed)
    ensures LastAbout(w, t).Some? && LastAbout(w, t).value.LogAborted? ==> LastStatus(w, t) == Some(Aborted)
  {
    if w != [] && !About(w[|w| - 1], t) {
      StatusOfLast(w[..|w| - 1], t);
    }
  }

  // ---------- Counting and shape ----------

  lemma {:induction false} SubsetSize<T>(a: set<T>, b: set<T>)
    requires a <= b
    ensures |a| <= |b|
  {
    if a != {} {
      var x :| x in a;
      SubsetSize(a - {x}, b - {x});
    }
  }

  /** The WAL has at least one Begin and one Stage record per allocated version, so its length bounds the version. */
  ghost predicate Counts(begun: set<string>, stagers: set<string>, av: map<string, u64>, o: Origin, gv: u64, n: nat) {
    && |begun| + |stagers| <= n
    && Base(o) + |av| == gv && av.Keys <= begun && av.Keys <= stagers
  }

  /** Allocated versions are distinct, above whatever was there at the start and at most the global version. */
  ghost predicate VersionsOk(av: map<string, u64>, o: Origin, gv: u64) {
    && Base(o) <= gv && (forall t :: t in av ==> Base(o) < av[t] <= gv)
    && (forall t, u :: t in av && u in av && av[t] == av[u] ==> t == u)
  }

  ghost predicate RowOk(t: string, rec: TxnState, stagers: set<string>, av: map<string, u64>, intent: map<string, nat>) {
    && (rec.writeKeys != {} ==> t in stagers)
    && (rec.status == Active ==> rec.alloc == map[] && t !in av && t !in intent)
    && (t in av ==> t in stagers)
    && (rec.alloc != map[] ==> t in av && rec.alloc == Uniform(rec.writeKeys, av[t]))
  }

  ghost predicate RowsOk(txns: map<string, TxnState>, stagers: set<string>, av: map<string, u64>, intent: map<string, nat>) {
    forall t :: t in txns ==> RowOk(t, txns[t], stagers, av, intent)
  }

  ghost predicate IdsOk(begun: set<string>, txns: map<string, TxnState>, av: map<string, u64>, intent: map<string, nat>,
                        begins: map<string, BeginPc>, sweeps: map<string, SweepPc>)
  {
    && begun <= txns.Keys && intent.Keys <= begun && av.Keys <= begun
    && (forall t :: t in begins ==>
          t !in begun && (begins[t].Captured? ==> t !in txns) && (begins[t].Stored? ==> t in txns))
    && (forall t :: t in sweeps ==> t in txns && txns[t].status == Aborted)
  }

  /** Where the committer stands, against its row, its version, its last log record and its publication. */
  ghost predicate PcOk(pc: CommitPc, rec: TxnState, last: Option<WalRecord>,
                       av: map<string, u64>, gv: u64, intent: map<string, nat>, pub: map<string, u64>)
    requires !pc.Idle?
  {
    && (InCommitting(pc) ==> rec.status == Committing)
    && (pc.Unpinning? ==> Terminal(rec.status))
    && (pc.AbortCleaning? || pc.AbortLogging? ==> rec.status == Aborted)
    && (pc.t in av ==> av[pc.t] == gv)
    && (pc.Claimed? ==> pc.t !in av && pc.t !in intent)
    && (InWindow(pc) || pc.Appended? || pc.WalDone? || pc.ResultDone? ==>
          if rec.writeKeys == {} then pc.v == rec.snapshot else pc.t in av && pc.v == av[pc.t])
    && (pc.Claimed? || pc.Allocated? || pc.Checked? || pc.Logged? ==> rec.alloc == map[])
    && (pc.Intended? || pc.Appended? || pc.WalDone? || pc.ResultDone? ==>
          rec.writeKeys == {} || rec.alloc != map[])
    && (pc.Logged? || pc.Intended? || pc.Appended? ==>
          pc.t in intent && last == Some(LogCommitting(pc.t, rec.writeKeys)))
    && (pc.Claimed? || InWindow(pc) || pc.Rejecting? || pc.Rejected? ==> pc.t !in pub)
    && (pc.Appended? || pc.WalDone? || pc.ResultDone? ==> rec.writeKeys == {} || pc.t in pub)
    && (pc.FixUp? ==> pc.t in pub)
  }

  ghost predicate InvCommit(s: Sys) {
    var pc := s.commit;
    pc.Idle? || (
      && pc.t in s.h.begun && pc.t in s.st.txns && pc.t !in s.sweeps
      && PcOk(pc, s.st.txns[pc.t], LastAbout(s.st.wal, pc.t), s.h.allocVer, s.st.globalVersion, s.h.intent, s.h.pub))
  }

  // ---------- Publication ----------

  /** Published transactions carry their version on every written key and are never active or aborted. */
  ghost predicate PubRows(pub: map<string, u64>, txns: map<string, TxnState>, av: map<string, u64>) {
    forall t :: t in pub ==>
      && t in txns && t in av && pub[t] == av[t]
      && (txns[t].status == Committing || txns[t].status == Committed)
      && txns[t].writeKeys != {} && txns[t].alloc != map[]
  }

  ghost predicate CommittedIsPublished(txns: map<string, TxnState>, pub: map<string, u64>) {
    forall t :: t in txns && txns[t].status == Committed && txns[t].writeKeys != {} ==> t in pub
  }

  ghost predicate EntryOk(k: string, e: VersionEntry, pub: map<string, u64>, txns: map<string, TxnState>) {
    e.txnId in txns ==>
      && e.txnId in pub && e.commitVersion == pub[e.txnId] && e.backendKey == k
      && k in txns[e.txnId].writeKeys
  }

  /** An entry of a transaction without a row was there at the start. */
  ghost predicate ForeignOk(log: map<string, Entries>, txns: map<string, TxnState>, o: Origin) {
    forall k, e :: k in log && e in log[k] && e.txnId !in txns ==> o.Rebuilt? && e.commitVersion <= o.base
  }

  /** Every entry appended since then belongs to a published transaction that wrote the key. */
  ghost predicate LogIsPublished(log: map<string, Entries>, pub: map<string, u64>, txns: map<string, TxnState>) {
    forall k, e :: k in log && e in log[k] ==> EntryOk(k, e, pub, txns)
  }

  ghost predicate LogHolds(log: map<string, Entries>, k: string, t: string) {
    k in log && exists e :: e in log[k] && e.txnId == t
  }

  /** Every key of a published transaction received its entry. */
  ghost predicate PublishedIsLogged(log: map<string, Entries>, pub: map<string, u64>, txns: map<string, TxnState>) {
    forall t, k :: t in pub && t in txns && k in txns[t].writeKeys ==> LogHolds(log, k, t)
  }

  /** Each entry's writer had a snapshot at or above every earlier entry of the key. */
  ghost predicate WritersSawPrefix(txns: map<string, TxnState>, full: Entries) {
    forall i, j :: 0 <= i < j < |full| && full[j].txnId in txns ==>
      full[i].commitVersion <= txns[full[j].txnId].snapshot
  }

  /** First committer wins, on the unpruned history. */
  ghost predicate FirstCommitterWins(log: map<string, Entries>, txns: map<string, TxnState>) {
    forall k :: k in log ==> WritersSawPrefix(txns, log[k])
  }

  /** Publication is all-or-nothing, and first committer wins. */
  ghost predicate PubOk(log: map<string, Entries>, pub: map<string, u64>, txns: map<string, TxnState>, av: map<string, u64>) {
    && PubRows(pub, txns, av) && CommittedIsPublished(txns, pub)
    && LogIsPublished(log, pub, txns) && PublishedIsLogged(log, pub, txns)
    && FirstCommitterWins(log, txns)
  }

  predicate IsSuffix(c: Entries, full: Entries) {
    c != [] && |c| <= |full| && c == full[|full| - |c|..]
  }

  /** GC only ever drops a prefix of a key's history. */
  ghost predicate ChainsFollowLog(chains: map<string, Entries>, log: map<string, Entries>) {
    && log.Keys == chains.Keys
    && forall k :: k in log ==> Ascending(log[k]) && IsSuffix(chains[k], log[k])
  }

  // ---------- The log ----------

  /** The transaction whose commit is running, or was running when the crash came. */
  function InFlight(s: Sys): Option<string> {
    if s.mode.Recovering? then s.h.cut
    else if InCommitting(s.commit) then Some(s.commit.t) else None
  }

  /** Who may be published without a terminal record: the transaction in flight, and those recovery passed over. */
  function Exempt(flight: Option<string>, lost: set<string>): set<string> {
    lost + if flight.Some? then {flight.value} else {}
  }

  predicate Decisive(r: WalRecord) {
    r.LogCommitted? || r.LogCommitResult?
  }

  /** What the log says about one transaction, `last` being the last record about it. */
  ghost predicate WalRowAt(t: string, rec: TxnState, wal: seq<WalRecord>, last: Option<WalRecord>,
                           intent: map<string, nat>, pub: map<string, u64>, exempt: set<string>)
  {
    && (t in intent ==> intent[t] < |wal| && wal[intent[t]] == LogCommitting(t, rec.writeKeys))
    && (t in pub ==> t in intent && last.Some? && (last.value.LogCommitting? || Decisive(last.value)))
    && (last.Some? && last.value.LogCommitting? ==> t in intent && last.value.keys == rec.writeKeys)
    && (last.Some? && Decisive(last.value) ==> (rec.writeKeys == {} || t in pub) && rec.status != Active)
    && (t in pub && rec.status == Committing && last.value.LogCommitting? ==> t in exempt)
  }

  ghost predicate WalRow(t: string, rec: TxnState, wal: seq<WalRecord>, intent: map<string, nat>,
                         pub: map<string, u64>, exempt: set<string>)
  {
    WalRowAt(t, rec, wal, LastAbout(wal, t), intent, pub, exempt)
  }

  /** What the log says about each transaction, against what happened to it. */
  ghost predicate WalRowsOk(txns: map<string, TxnState>, wal: seq<WalRecord>, intent: map<string, nat>,
                            pub: map<string, u64>, exempt: set<string>)
  {
    && (forall t :: t in txns ==> WalRow(t, txns[t], wal, intent, pub, exempt))
    && (forall t :: t !in txns ==> LastAbout(wal, t).None?)
  }

  /** The in-flight transaction owns the newest version, and its intent record lies beyond any truncation. */
  ghost predicate FlightOk(flight: Option<string>, txns: map<string, TxnState>, av: map<string, u64>, gv: u64,
                           intent: map<string, nat>, o: Origin)
  {
    flight.Some? ==>
      && flight.value in txns && txns[flight.value].status != Active
      && (flight.value in av ==> av[flight.value] == gv)
      && (o.Blank? && flight.value in intent ==> gv <= intent[flight.value])
  }

  /** Recovery wrote the outcome down: in the row, or as the log's folded status. */
  predicate Settled(st: Store, t: string)
    requires t in st.txns && st.walFloor <= |st.wal|
  {
    || Terminal(st.txns[t].status)
    || LastStatus(Surviving(st), t) == Some(Committed)
    || LastStatus(Surviving(st), t) == Some(Aborted)
  }

  /** Where recovery stands with one transaction. */
  ghost predicate RecoveryPcOk(pc: RecoveryPc, rec: TxnState, last: Option<WalRecord>, pub: map<string, u64>)
    requires !pc.Choose?
  {
    && !Terminal(rec.status)
    && (pc.UndoClean? || pc.UndoLog? || pc.UndoUnpin? || pc.UndoStore? ==> pc.t !in pub)
    && (pc.UndoUnpin? || pc.UndoStore? ==> last == Some(LogAborted(pc.t)))
    && (pc.AdoptLog? || pc.AdoptResult? || pc.AdoptStore? ==> pc.t in pub)
    && (pc.AdoptResult? || pc.AdoptStore? ==> last.Some? && Decisive(last.value))
  }

  ghost predicate InvRecovery(s: Sys) {
    var st, h := s.st, s.h;
    && st.walFloor <= |st.wal|
    && (s.mode.Running? ==> h.cut.None?)
    && (s.mode.Recovering? ==>
      && s.commit.Idle? && s.begins == map[] && s.sweeps == map[] && s.readers == map[]
      && s.mode.todo <= WalTxns(Surviving(st))
      && (!s.mode.pc.Choose? ==>
            && s.mode.pc.t in st.txns && s.mode.pc.t in WalTxns(Surviving(st))
            && RecoveryPcOk(s.mode.pc, st.txns[s.mode.pc.t], LastAbout(st.wal, s.mode.pc.t), h.pub))
      && (h.cut.Some? ==>
            && h.cut.value in st.txns
            && h.cutLogged == (h.cut.value in WalTxns(Surviving(st)))
            && (!h.cutLogged ==> st.txns[h.cut.value].status == Committing)
            && (h.cutLogged && h.cut.value !in s.mode.todo ==>
                  (!s.mode.pc.Choose? && s.mode.pc.t == h.cut.value) || Settled(st, h.cut.value))))
  }

  // ---------- The whole invariant ----------

  ghost predicate InvCounts(s: Sys) {
    Counts(s.h.begun, s.h.stagers, s.h.allocVer, s.h.origin, s.st.globalVersion, |s.st.wal|)
  }

  ghost predicate InvTables(s: Sys) {
    var st, h := s.st, s.h;
    && st.walFloor <= |st.wal| && st.walFloor <= st.globalVersion
    && VersionsOk(h.allocVer, h.origin, st.globalVersion)
    && RowsOk(st.txns, h.stagers, h.allocVer, h.intent)
    && IdsOk(h.begun, st.txns, h.allocVer, h.intent, s.begins, s.sweeps)
  }

  ghost predicate InvPub(s: Sys) {
    && PubOk(s.h.log, s.h.pub, s.st.txns, s.h.allocVer)
    && ChainsFollowLog(s.st.chains, s.h.log) && ForeignOk(s.h.log, s.st.txns, s.h.origin)
  }

  ghost predicate InvWal(s: Sys) {
    && WalRowsOk(s.st.txns, s.st.wal, s.h.intent, s.h.pub, Exempt(InFlight(s), s.h.lost))
    && FlightOk(InFlight(s), s.st.txns, s.h.allocVer, s.st.globalVersion, s.h.intent, s.h.origin)
  }

  ghost predicate InvCore(s: Sys) {
    InvTables(s) && InvCommit(s) && InvPub(s) && InvWal(s) && InvRecovery(s)
  }

  /** A transaction recovery passed over is Committing for good, and the log that is left does not know it. */
  ghost predicate LostOk(s: Sys, t: string) {
    && t in s.st.txns && t !in s.begins && s.st.txns[t].status == Committing
    && s.st.walFloor <= |s.st.wal| && t !in WalTxns(Surviving(s.st)) && InFlight(s) != Some(t)
  }

  ghost predicate InvLost(s: Sys) {
    forall t :: t in s.h.lost ==> LostOk(s, t)
  }

  ghost predicate Inv(s: Sys) {
    InvCounts(s) && InvCore(s) && InvLost(s)
  }

  /** Chains a store may start with: in order, none empty, nothing above the version counter. */
  ghost predicate ChainsFit(o: Origin, chains: map<string, Entries>) {
    && (o.Blank? ==> chains == map[])
    && forall k :: k in chains ==> chains[k] != [] && Ascending(chains[k]) && forall e :: e in chains[k] ==> e.commitVersion <= Base(o)
  }

  lemma StartInv(o: Origin, chains: map<string, Entries>)
    requires ChainsFit(o, chains)
    ensures Inv(StartFrom(o, chains))
  {
    forall k | k in chains
      ensures IsSuffix(chains[k], chains[k])
    {
      assert chains[k][0..] == chains[k];
    }
  }

  lemma InitInv()
    ensures Inv(Init)
  {
    StartInv(Blank, map[]);
  }

  /** States that satisfy the invariant. */
  type Sound = s: Sys | InvCore(s) ghost witness (InitInv(); Init)

  // ---------- The in-flight transaction's entries are the newest ----------

  /** While a transaction is in flight nothing is appended over it, so each of its keys' chains ends in its entry. */
  lemma NewestIsMine(s: Sys, t: string, k: string)
    requires InvPub(s) && VersionsOk(s.h.allocVer, s.h.origin, s.st.globalVersion)
    requires t in s.h.pub && k in s.st.txns[t].writeKeys && s.h.pub[t] == s.st.globalVersion
    ensures k in s.st.chains && s.st.chains[k] != []
    ensures var e := s.st.chains[k][|s.st.chains[k]| - 1]; e.txnId == t && e.commitVersion == s.h.pub[t]
  {
    hide CommittedIsPublished, FirstCommitterWins, ForeignOk;
    assert LogHolds(s.h.log, k, t);
    var full := s.h.log[k];
    var e :| e in full && e.txnId == t;
    var i :| 0 <= i < |full| && full[i] == e;
    var last := full[|full| - 1];
    assert last in full && EntryOk(k, e, s.h.pub, s.st.txns);
    EntryIsKnown(s, k, last);
    assert last.commitVersion <= s.st.globalVersion == e.commitVersion;
  }

  /** No entry lies above the version counter. */
  lemma EntryIsKnown(s: Sys, k: string, e: VersionEntry)
    requires InvPub(s) && VersionsOk(s.h.allocVer, s.h.origin, s.st.globalVersion) && k in s.h.log && e in s.h.log[k]
    ensures e.commitVersion <= s.st.globalVersion
  {
    hide CommittedIsPublished, PublishedIsLogged, FirstCommitterWins, ChainsFollowLog;
    assert EntryOk(k, e, s.h.pub, s.st.txns);
  }

  /** No chain holds an entry of an unpublished transaction, nor one at its allocated version. */
  lemma NoneIsMine(s: Sys, t: string, k: string)
    requires InvPub(s) && VersionsOk(s.h.allocVer, s.h.origin, s.st.globalVersion) && t in s.st.txns && t !in s.h.pub
    ensures forall e :: e in ChainOf(s.st.chains, k) ==> e.txnId != t
    ensures t in s.h.allocVer ==> forall e :: e in ChainOf(s.st.chains, k) ==> e.commitVersion != s.h.allocVer[t]
  {
    if k in s.st.chains {
      var c, full := s.st.chains[k], s.h.log[k];
      forall e | e in c
        ensures EntryOk(k, e, s.h.pub, s.st.txns)
      {
        assert e in full;
      }
    }
  }

  /** The two deciders' different chain tests both answer "was it published?": recovery's … */
  lemma RecoveryIsRight(s: Sys, t: string)
    requires InvPub(s) && VersionsOk(s.h.allocVer, s.h.origin, s.st.globalVersion) && s.st.walFloor <= |s.st.wal|
    requires t in s.st.txns && RowOk(t, s.st.txns[t], s.h.stagers, s.h.allocVer, s.h.intent)
    requires t in s.h.pub ==> s.h.pub[t] == s.st.globalVersion && LastKeys(Surviving(s.st), t) == s.st.txns[t].writeKeys
    ensures RecoveryFindsPublished(s.st, t) <==> t in s.h.pub
  {
    var st, rec := s.st, s.st.txns[t];
    if t in s.h.pub {
      assert rec.alloc == Uniform(rec.writeKeys, s.h.pub[t]);
      var some :| some in rec.writeKeys;
      assert some in rec.alloc;
      forall k | k in rec.alloc
        ensures Latest(ChainOf(st.chains, k)) == rec.alloc[k]
      {
        NewestIsMine(s, t, k);
      }
    } else {
      forall k | k in rec.alloc
        ensures Latest(ChainOf(st.chains, k)) != rec.alloc[k]
      {
        NoneIsMine(s, t, k);
        var c := ChainOf(st.chains, k);
        if c != [] {
          assert c[|c| - 1] in c;
        }
      }
    }
  }

  /** … and the failed commit's reconciliation's. */
  lemma ReconcileIsRight(s: Sys, t: string)
    requires InvPub(s) && VersionsOk(s.h.allocVer, s.h.origin, s.st.globalVersion) && t in s.st.txns
    requires RowOk(t, s.st.txns[t], s.h.stagers, s.h.allocVer, s.h.intent)
    requires t in s.h.pub ==> s.h.pub[t] == s.st.globalVersion
    ensures ReconcileFindsPublished(s.st, t) <==> t in s.h.pub
  {
    var st, rec := s.st, s.st.txns[t];
    if t in s.h.pub {
      assert rec.alloc == Uniform(rec.writeKeys, s.h.pub[t]);
      var some :| some in rec.writeKeys;
      assert some in rec.alloc;
      forall k | k in rec.alloc
        ensures exists e :: e in ChainOf(st.chains, k) && e.txnId == t && e.commitVersion == rec.alloc[k]
      {
        NewestIsMine(s, t, k);
        var c := st.chains[k];
        assert c[|c| - 1] in ChainOf(st.chains, k);
      }
    } else if rec.alloc != map[] {
      var some :| some in rec.alloc;
      NoneIsMine(s, t, some);
    }
  }
}
