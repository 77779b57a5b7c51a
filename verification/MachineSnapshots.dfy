/**
 Snapshot pins and what they protect, in every run without a crash: the reference count of each
 snapshot is the number of its holders, so GC never prunes what a holder can still read.
 */
module MachineSnapshots {
  import opened Primitives
  import opened VersionChains
  import opened Stores
  import opened Machine
  import opened MachineInvariant
  import opened MachineSteps
  import opened MachineRecovery

  // ---------- Reference counts ----------

  function HoldersAt(holds: map<Holder, u64>, s: u64): set<Holder> {
    set w | w in holds && holds[w] == s
  }

  ghost predicate PinsOk(pins: map<u64, nat>, holds: map<Holder, u64>) {
    && (forall s: u64 :: PinCount(pins, s) == |HoldersAt(holds, s)|)
    && (forall s :: s in pins ==> pins[s] > 0)
  }

  lemma HoldersAdded(holds: map<Holder, u64>, who: Holder, s: u64, x: u64)
    requires who !in holds
    ensures |HoldersAt(holds[who := s], x)| == |HoldersAt(holds, x)| + if x == s then 1 else 0
  {
    var grown := HoldersAt(holds[who := s], x);
    if x == s {
      assert grown == HoldersAt(holds, x) + {who};
    } else {
      assert grown == HoldersAt(holds, x);
    }
  }

  lemma HoldCounted(pins: map<u64, nat>, holds: map<Holder, u64>, who: Holder, s: u64)
    requires PinsOk(pins, holds) && who !in holds
    ensures PinsOk(Pin(pins, s), holds[who := s])
  {
    forall x: u64
      ensures PinCount(Pin(pins, s), x) == |HoldersAt(holds[who := s], x)|
    {
      HoldersAdded(holds, who, s, x);
      assert PinCount(pins, x) == |HoldersAt(holds, x)|;
    }
  }

  lemma ReleaseCounted(pins: map<u64, nat>, holds: map<Holder, u64>, who: Holder)
    requires PinsOk(pins, holds) && who in holds
    ensures PinsOk(Unpin(pins, holds[who]), holds - {who})
  {
    var s, rest := holds[who], holds - {who};
    assert rest[who := s] == holds;
    forall x: u64
      ensures PinCount(Unpin(pins, s), x) == |HoldersAt(rest, x)|
    {
      HoldersAdded(rest, who, s, x);
      assert PinCount(pins, x) == |HoldersAt(holds, x)|;
    }
  }

  /** A held snapshot is pinned. */
  lemma HeldIsPinned(pins: map<u64, nat>, holds: map<Holder, u64>, who: Holder)
    requires PinsOk(pins, holds) && who in holds
    ensures holds[who] in pins
  {
    assert who in HoldersAt(holds, holds[who]);
    assert PinCount(pins, holds[who]) == |HoldersAt(holds, holds[who])|;
  }

  // ---------- Who holds a pin ----------

  predicate Finishing(pc: CommitPc, t: string) {
    (pc.Unpinning? || pc.AbortCleaning? || pc.AbortLogging?) && pc.t == t
  }

  predicate Holding(t: string, begins: map<string, BeginPc>, txns: map<string, TxnState>, pc: CommitPc,
                    sweeps: map<string, SweepPc>)
  {
    || (t in begins && begins[t].Captured?)
    || (t in txns && (!Terminal(txns[t].status) || Finishing(pc, t) || t in sweeps))
  }

  ghost predicate HoldOk(t: string, holds: map<Holder, u64>, begins: map<string, BeginPc>, txns: map<string, TxnState>,
                         pc: CommitPc, sweeps: map<string, SweepPc>)
  {
    && (TxnHolder(t) in holds <==> Holding(t, begins, txns, pc, sweeps))
    && (TxnHolder(t) in holds && t in txns ==> holds[TxnHolder(t)] == txns[t].snapshot)
    && (t in begins && begins[t].Captured? && TxnHolder(t) in holds ==> holds[TxnHolder(t)] == begins[t].snapshot)
  }

  ghost predicate HoldsOk(holds: map<Holder, u64>, begins: map<string, BeginPc>, txns: map<string, TxnState>,
                          pc: CommitPc, sweeps: map<string, SweepPc>)
  {
    forall t :: HoldOk(t, holds, begins, txns, pc, sweeps)
  }

  ghost predicate ReadersOk(holds: map<Holder, u64>, readers: map<nat, u64>) {
    forall r: nat :: if r in readers then ReaderHolder(r) in holds && holds[ReaderHolder(r)] == readers[r]
                     else ReaderHolder(r) !in holds
  }

  // ---------- What a pin protects ----------

  /** At or above the horizon, pruned chains read like the full history. */
  ghost predicate ReadsAgree(chains: map<string, Entries>, log: map<string, Entries>, horizon: u64) {
    forall k, s :: k in log && k in chains && horizon <= s ==> ReadAt(chains[k], s) == ReadAt(log[k], s)
  }

  ghost predicate HorizonOk(holds: map<Holder, u64>, horizon: u64, gv: u64) {
    && horizon <= gv
    && forall w :: w in holds ==> horizon <= holds[w] <= gv
  }

  /** The version being committed, while its entries are not yet appended. */
  function Pending(s: Sys): Option<u64> {
    if InWindow(s.commit) && s.commit.t in s.st.txns && s.st.txns[s.commit.t].writeKeys != {} then Some(s.commit.v) else None
  }

  ghost predicate QuietOk(quiet: set<Holder>, holds: map<Holder, u64>, pending: Option<u64>) {
    forall w :: w in quiet ==> w in holds && (pending.Some? ==> holds[w] < pending.value)
  }

  ghost predicate InvPins(s: Sys) {
    && PinsOk(s.st.pins, s.h.holds)
    && HoldsOk(s.h.holds, s.begins, s.st.txns, s.commit, s.sweeps)
    && ReadersOk(s.h.holds, s.readers)
  }

  ghost predicate InvViews(s: Sys) {
    && HorizonOk(s.h.holds, s.h.horizon, s.st.globalVersion)
    && ReadsAgree(s.st.chains, s.h.log, s.h.horizon)
    && QuietOk(s.h.quiet, s.h.holds, Pending(s))
  }

  ghost predicate InvSnap(s: Sys) {
    !s.h.crashed ==> s.mode.Running? && InvPins(s) && InvViews(s)
  }

  lemma InitSnap()
    ensures InvSnap(Init)
  {
    assert forall s: u64 :: HoldersAt(map[], s) == {};
  }

  /** Sound states whose pin account and views are right too. */
  type Pinned = s: Sys | InvCore(s) && InvSnap(s) ghost witness (InitInv(); InitSnap(); Init)

  // ---------- Pins, step by step ----------

  predicate SameHold(m: map<Holder, u64>, m': map<Holder, u64>, w: Holder) {
    if w in m then w in m' && m'[w] == m[w] else w !in m'
  }

  ghost predicate HoldsSameBut(m: map<Holder, u64>, m': map<Holder, u64>, t0: string) {
    forall w :: w != TxnHolder(t0) ==> SameHold(m, m', w)
  }

  lemma HoldsFrame(s: Sys, s': Sys, t0: string)
    requires HoldsOk(s.h.holds, s.begins, s.st.txns, s.commit, s.sweeps)
    requires SameBut(s.begins, s'.begins, t0) && SameBut(s.st.txns, s'.st.txns, t0) && SameBut(s.sweeps, s'.sweeps, t0)
    requires HoldsSameBut(s.h.holds, s'.h.holds, t0)
    requires forall u :: u != t0 ==> (Finishing(s.commit, u) <==> Finishing(s'.commit, u))
    requires HoldOk(t0, s'.h.holds, s'.begins, s'.st.txns, s'.commit, s'.sweeps)
    ensures HoldsOk(s'.h.holds, s'.begins, s'.st.txns, s'.commit, s'.sweeps)
  {
    forall u
      ensures HoldOk(u, s'.h.holds, s'.begins, s'.st.txns, s'.commit, s'.sweeps)
    {
      if u != t0 {
        assert SameHold(s.h.holds, s'.h.holds, TxnHolder(u));
        assert HoldOk(u, s.h.holds, s.begins, s.st.txns, s.commit, s.sweeps);
        assert SameAt(s.begins, s'.begins, u) && SameAt(s.st.txns, s'.st.txns, u) && SameAt(s.sweeps, s'.sweeps, u);
      }
    }
  }

  lemma ReaderFrame(s: Sys, s': Sys)
    requires HoldsOk(s.h.holds, s.begins, s.st.txns, s.commit, s.sweeps)
    requires s'.begins == s.begins && s'.st.txns == s.st.txns && s'.commit == s.commit && s'.sweeps == s.sweeps
    requires forall t :: SameHold(s.h.holds, s'.h.holds, TxnHolder(t))
    ensures HoldsOk(s'.h.holds, s'.begins, s'.st.txns, s'.commit, s'.sweeps)
  {
    forall t
      ensures HoldOk(t, s'.h.holds, s'.begins, s'.st.txns, s'.commit, s'.sweeps)
    {
      assert SameHold(s.h.holds, s'.h.holds, TxnHolder(t));
      assert HoldOk(t, s.h.holds, s.begins, s.st.txns, s.commit, s.sweeps);
    }
  }

  lemma CapturePins(s: Sys, t: string)
    requires InvPins(s) && ClientEnabled(s, BeginCapture(t)) && View(s, t)
    requires GoodStep(s, ClientNext(s, BeginCapture(t)), t, ClientLogs(s, BeginCapture(t)))
    requires !s.commit.Idle? ==> s.commit.t != t
    ensures InvPins(ClientNext(s, BeginCapture(t)))
  {
    assert HoldOk(t, s.h.holds, s.begins, s.st.txns, s.commit, s.sweeps);
    HoldCounted(s.st.pins, s.h.holds, TxnHolder(t), s.st.globalVersion);
    HoldsFrame(s, ClientNext(s, BeginCapture(t)), t);
  }

  lemma ClientPins(s: Sys, a: ClientAction)
    requires InvPins(s) && ClientEnabled(s, a)
    requires !AboutReader(a) ==> View(s, a.t) && GoodStep(s, ClientNext(s, a), a.t, ClientLogs(s, a))
    requires !AboutReader(a) && !s.commit.Idle? ==> s.commit.t != a.t
    ensures InvPins(ClientNext(s, a))
  {
    var s' := ClientNext(s, a);
    match a
    case AcquireReader(r) =>
      HoldCounted(s.st.pins, s.h.holds, ReaderHolder(r), s.st.globalVersion);
      ReaderFrame(s, s');
    case DropReader(r) =>
      ReleaseCounted(s.st.pins, s.h.holds, ReaderHolder(r));
      ReaderFrame(s, s');
    case BeginCapture(t) => CapturePins(s, t);
    case _ =>
      assert HoldOk(a.t, s.h.holds, s.begins, s.st.txns, s.commit, s.sweeps);
      HoldsFrame(s, s', a.t);
  }

  lemma CommitHold(s: Sys, a: CommitAction)
    requires CommitEnabled(s, a) && CommitView(s, a)
    requires HoldOk(Target(s.commit, a), s.h.holds, s.begins, s.st.txns, s.commit, s.sweeps)
    ensures HoldOk(Target(s.commit, a), s.h.holds, s.begins, s.st.txns[Target(s.commit, a) := EffectOf(s, a).row],
                   EffectOf(s, a).next, s.sweeps)
  {
  }

  lemma CommitPins(s: Sys, a: CommitAction)
    requires InvPins(s) && CommitEnabled(s, a) && CommitView(s, a)
    ensures InvPins(CommitNext(s, a))
  {
    var t0 := Target(s.commit, a);
    assert HoldOk(t0, s.h.holds, s.begins, s.st.txns, s.commit, s.sweeps);
    CommitHold(s, a);
    CommitGood(s, a);
    HoldsFrame(s, CommitNext(s, a), t0);
  }

  lemma ReleasePinPins(s: Sys)
    requires InvPins(s) && ReleasePinEnabled(s) && InvCommit(s) && s.commit.t !in s.begins
    ensures InvPins(ReleasePinNext(s))
  {
    assert HoldOk(s.commit.t, s.h.holds, s.begins, s.st.txns, s.commit, s.sweeps);
    ReleaseCounted(s.st.pins, s.h.holds, TxnHolder(s.commit.t));
    HoldsFrame(s, ReleasePinNext(s), s.commit.t);
  }

  /** Moving the committer between two points that both hold, or both do not hold, its pin changes no account. */
  lemma MovePins(s: Sys, s': Sys)
    requires InvPins(s)
    requires s'.st.pins == s.st.pins && s'.st.txns == s.st.txns && s'.h.holds == s.h.holds
    requires s'.begins == s.begins && s'.sweeps == s.sweeps && s'.readers == s.readers
    requires forall u :: Finishing(s.commit, u) <==> Finishing(s'.commit, u)
    ensures InvPins(s')
  {
    forall t
      ensures HoldOk(t, s'.h.holds, s'.begins, s'.st.txns, s'.commit, s'.sweeps)
    {
      assert HoldOk(t, s.h.holds, s.begins, s.st.txns, s.commit, s.sweeps);
    }
  }

  lemma SweepPins(s: Sys, a: BackgroundAction)
    requires InvPins(s) && BackgroundEnabled(s, a) && IsSweep(a) && View(s, a.t)
    requires GoodStep(s, BackgroundNext(s, a), a.t, SweepLogs(a))
    requires s.commit.Idle? || s.commit.t != a.t
    ensures InvPins(BackgroundNext(s, a))
  {
    var s' := BackgroundNext(s, a);
    assert HoldOk(a.t, s.h.holds, s.begins, s.st.txns, s.commit, s.sweeps);
    if a.SweepRelease? {
      ReleaseCounted(s.st.pins, s.h.holds, TxnHolder(a.t));
    }
    HoldsFrame(s, s', a.t);
  }

  // ---------- Views, step by step ----------

  lemma ClientViews(s: Sys, a: ClientAction)
    requires InvViews(s) && InvCommit(s) && ClientEnabled(s, a)
    ensures InvViews(ClientNext(s, a))
  {
  }

  lemma ViewsKept(s: Sys, s': Sys)
    requires InvViews(s)
    requires s'.st.chains == s.st.chains && s'.h.log == s.h.log && s'.h.horizon == s.h.horizon
    requires s.st.globalVersion <= s'.st.globalVersion
    requires forall w :: w in s'.h.holds ==> w in s.h.holds && s'.h.holds[w] == s.h.holds[w]
    requires forall w :: w in s'.h.quiet ==> w in s.h.quiet && w in s'.h.holds
    requires Pending(s').Some? ==> Pending(s') == Pending(s) || Pending(s').value > s.st.globalVersion
    ensures InvViews(s')
  {
  }

  lemma CommitPending(s: Sys, a: CommitAction)
    requires CommitEnabled(s, a)
    ensures Pending(CommitNext(s, a)).Some? ==> Pending(CommitNext(s, a)) == Pending(s)
  {
  }

  lemma CommitViews(s: Pinned, a: CommitAction)
    requires !s.h.crashed && CommitEnabled(s, a)
    ensures InvViews(CommitNext(s, a))
  {
    CommitPending(s, a);
    ViewsKept(s, CommitNext(s, a));
  }

  lemma BothAppend(c: Entries, full: Entries, e: VersionEntry, x: u64)
    requires ReadAt(c, x) == ReadAt(full, x)
    ensures ReadAt(c + [e], x) == ReadAt(full + [e], x)
  {
    AppendReads(c, e, x);
    AppendReads(full, e, x);
  }

  lemma PublishReads(s: Sys, k: string, x: u64)
    requires Publishes(s) && InvPub(s) && VersionsOk(s.h.allocVer, s.h.origin, s.st.globalVersion)
    requires s.commit.t in s.h.allocVer && s.commit.t !in s.h.pub
    requires s.h.allocVer[s.commit.t] == s.st.globalVersion == s.commit.v
    requires k in s.st.txns[s.commit.t].writeKeys
    requires ReadAt(ChainOf(s.st.chains, k), x) == ReadAt(ChainOf(s.h.log, k), x)
    ensures var batch := Batch(s.st, s.commit.t, s.commit.v);
            var chains := AppendAll(s.st.chains, batch, s.st.txns[s.commit.t].snapshot);
            k in chains && ReadAt(chains[k], x) == ReadAt(Extend(s.h.log, batch)[k], x)
  {
    var batch := Batch(s.st, s.commit.t, s.commit.v);
    PublishedKeyOk(s, k);
    BothAppend(ChainOf(s.st.chains, k), ChainOf(s.h.log, k), batch[k], x);
  }

  lemma PublishViews(s: Sys)
    requires InvViews(s) && InvPub(s) && InvCommit(s) && VersionsOk(s.h.allocVer, s.h.origin, s.st.globalVersion) && PublishEnabled(s)
    ensures InvViews(PublishNext(s))
  {
    hide PublishNext;
    if Publishes(s) {
      PublishNextIs(s);
      forall k, x | k in PublishNext(s).h.log && k in PublishNext(s).st.chains && s.h.horizon <= x
        ensures ReadAt(PublishNext(s).st.chains[k], x) == ReadAt(PublishNext(s).h.log[k], x)
      {
        if k in s.st.txns[s.commit.t].writeKeys {
          PublishReads(s, k, x);
        }
      }
    } else {
      PublishNothing(s);
    }
  }

  /** One chain's GC: at or above the threshold, or at or above every version, reads are unchanged. */
  lemma GcReads(c: Entries, full: Entries, m: u64, gv: u64, x: u64)
    requires IsSuffix(c, full) && Ascending(full)
    requires forall e :: e in full ==> e.commitVersion <= gv
    requires m <= x || gv <= x
    ensures ReadAt(Pruned(c, m), x) == ReadAt(c, x)
  {
    if m <= x {
      PrunedReads(c, m, x);
    } else {
      assert c[|c| - 1] in full;
      PrunedShape(c, m);
    }
  }

  lemma GcViews(s: Sys, m: u64)
    requires InvViews(s) && InvPub(s) && VersionsOk(s.h.allocVer, s.h.origin, s.st.globalVersion) && BackgroundEnabled(s, Gc(m))
    requires PinsOk(s.st.pins, s.h.holds)
    ensures InvViews(BackgroundNext(s, Gc(m)))
  {
    var s' := BackgroundNext(s, Gc(m));
    forall w | w in s.h.holds
      ensures m <= s.h.holds[w]
    {
      HeldIsPinned(s.st.pins, s.h.holds, w);
    }
    forall k, x | k in s'.h.log && k in s'.st.chains && s'.h.horizon <= x
      ensures ReadAt(s'.st.chains[k], x) == ReadAt(s'.h.log[k], x)
    {
      forall e | e in s.h.log[k]
        ensures e.commitVersion <= s.st.globalVersion
      {
        assert EntryOk(k, e, s.h.pub, s.st.txns);
      }
      GcReads(s.st.chains[k], s.h.log[k], m, s.st.globalVersion, x);
    }
  }

  // ---------- Every step ----------

  lemma BackgroundSnap(s: Pinned, b: BackgroundAction)
    requires BackgroundEnabled(s, b) && !s.h.crashed
    ensures InvSnap(BackgroundNext(s, b))
  {
    hide InvPub, InvWal, WalRow, RowsOk, PinsOk, HoldOk, PruneAll;
    if IsSweep(b) {
      ViewOf(s, b.t);
      SweepGood(s, b);
      SweepPins(s, b);
    } else if b.Gc? {
      GcViews(s, b.m);
    }
  }

  lemma CommitSnap(s: Pinned, m: CommitAction)
    requires CommitEnabled(s, m) && !s.h.crashed
    ensures InvSnap(CommitNext(s, m))
  {
    CommitViewOf(s, m);
    CommitViews(s, m);
    CommitPins(s, m);
  }

  lemma ClientSnap(s: Pinned, c: ClientAction)
    requires ClientEnabled(s, c) && !s.h.crashed
    ensures InvSnap(ClientNext(s, c))
  {
    if !AboutReader(c) {
      ViewOf(s, c.t);
      ClientLocal(s, c);
    }
    ClientPins(s, c);
    ClientViews(s, c);
  }

  /** Allocation touches the version counter, the committer's place and its version, and nothing else. */
  lemma AllocateIs(s: Sys)
    requires AllocateEnabled(s)
    ensures var s' := AllocateNext(s);
            && s' == s.(st := s'.st, commit := s'.commit, h := s'.h)
            && s'.st == s.st.(globalVersion := s'.st.globalVersion) && s.st.globalVersion <= s'.st.globalVersion
            && s'.h == s.h.(allocVer := s'.h.allocVer)
  {
    var t := s.commit.t;
    if s.st.txns[t].writeKeys == {} {
      assert AllocateNext(s) == s.(commit := Allocated(t, s.st.txns[t].snapshot));
    } else {
      var v := s.st.globalVersion + 1;
      assert AllocateNext(s) == s.(st := s.st.(globalVersion := v), commit := Allocated(t, v),
                                   h := s.h.(allocVer := s.h.allocVer[t := v]));
    }
  }

  lemma AllocatePcs(s: Sys)
    requires AllocateEnabled(s)
    ensures var s' := AllocateNext(s);
            && (forall u :: Finishing(s.commit, u) <==> Finishing(s'.commit, u))
            && (Pending(s').Some? ==> Pending(s') == Pending(s) || Pending(s').value > s.st.globalVersion)
  {
  }

  lemma AllocateSnap(s: Sys)
    requires AllocateEnabled(s) && !s.h.crashed && InvSnap(s)
    ensures InvSnap(AllocateNext(s))
  {
    AllocateIs(s);
    AllocatePcs(s);
    hide AllocateNext, AllocateEnabled, Pending, PinsOk, HoldsOk, ReadersOk, ReadsAgree, HorizonOk, Finishing;
    MovePins(s, AllocateNext(s));
    ViewsKept(s, AllocateNext(s));
  }

  lemma LogIntentSnap(s: Sys)
    requires LogIntentEnabled(s) && !s.h.crashed && InvSnap(s)
    ensures InvSnap(LogIntentNext(s))
  {
    MovePins(s, LogIntentNext(s));
    ViewsKept(s, LogIntentNext(s));
  }

  lemma PublishSnap(s: Pinned)
    requires PublishEnabled(s) && !s.h.crashed
    ensures InvSnap(PublishNext(s))
  {
    PublishViews(s);
    PublishKeeps(s);
    MovePins(s, PublishNext(s));
  }

  lemma ReleasePinSnap(s: Pinned)
    requires ReleasePinEnabled(s) && !s.h.crashed
    ensures InvSnap(ReleasePinNext(s))
  {
    ReleasePinPins(s);
    ViewsKept(s, ReleasePinNext(s));
  }

  lemma AbortCleanSnap(s: Sys)
    requires AbortCleanEnabled(s) && !s.h.crashed && InvSnap(s)
    ensures InvSnap(AbortCleanNext(s))
  {
    MovePins(s, AbortCleanNext(s));
    ViewsKept(s, AbortCleanNext(s));
  }

  lemma CommitterSnap(s: Pinned, a: Action)
    requires Enabled(s, a) && !s.h.crashed
    requires a.Allocate? || a.LogIntent? || a.Publish? || a.ReleasePin? || a.AbortClean?
    ensures InvSnap(Next(s, a))
  {
    match a
    case Allocate => AllocateSnap(s);
    case LogIntent => LogIntentSnap(s);
    case Publish => PublishSnap(s);
    case ReleasePin => ReleasePinSnap(s);
    case AbortClean => AbortCleanSnap(s);
  }

  lemma ClientUncrashed(s: Sys, c: ClientAction)
    requires ClientEnabled(s, c)
    ensures ClientNext(s, c).h.crashed == s.h.crashed
  {
  }

  lemma BackgroundUncrashed(s: Sys, b: BackgroundAction)
    requires BackgroundEnabled(s, b)
    ensures BackgroundNext(s, b).h.crashed == s.h.crashed
  {
  }

  lemma CommitUncrashed(s: Sys, m: CommitAction)
    requires CommitEnabled(s, m)
    ensures CommitNext(s, m).h.crashed == s.h.crashed
  {
  }

  /** Only a crash sets the flag, and nothing clears it. */
  lemma CrashedStays(s: Sys, a: Action)
    requires Enabled(s, a) && InvCommit(s)
    ensures Next(s, a).h.crashed == (s.h.crashed || a.Crash?)
  {
    hide ClientNext, CommitNext, PublishNext, BackgroundNext;
    match a
    case Client(c) => ClientUncrashed(s, c);
    case Commit(m) => CommitUncrashed(s, m);
    case Background(b) => BackgroundUncrashed(s, b);
    case Publish => PublishKeeps(s);
    case _ =>
  }

  lemma StepSnap(s: Pinned, a: Action)
    requires Enabled(s, a)
    ensures InvSnap(Next(s, a))
  {
    hide ClientNext, CommitNext, AllocateNext, LogIntentNext, PublishNext, ReleasePinNext, AbortCleanNext, BackgroundNext;
    if s.h.crashed {
      CrashedStays(s, a);
    } else {
      match a
      case Client(c) => ClientSnap(s, c);
      case Commit(m) => CommitSnap(s, m);
      case Background(b) => BackgroundSnap(s, b);
      case Crash =>
      case Recover(_) =>
      case _ => CommitterSnap(s, a);
    }
  }
}
