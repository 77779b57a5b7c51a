/**
 Snapshots over whole crash-free runs: what a pin counts, that a quiescent snapshot never moves, and
 exactly when a snapshot captured inside a commit's window does.
 */
module MachineViews {
  import opened Primitives
  import opened VersionChains
  import opened Stores
  import opened Machine
  import opened MachineInvariant
  import opened MachineSteps
  import opened MachineRecovery
  import opened MachineSnapshots

  lemma {:induction false} RunSnap(s: Sys, acts: seq<Action>, s': Sys)
    requires Inv(s) && InvSnap(s) && Run(s, acts, s')
    ensures Inv(s') && InvSnap(s')
    decreases |acts|
  {
    if acts != [] {
      hide Next, InvSnap;
      StepInv(s, acts[0]);
      StepSnap(s, acts[0]);
      RunSnap(Next(s, acts[0]), acts[1..], s');
    }
  }

  lemma ReachableSnap(s: Sys)
    requires Reachable(s)
    ensures Inv(s) && InvSnap(s)
  {
    var acts :| Run(Init, acts, s);
    InitInv();
    InitSnap();
    hide InvSnap, InvCore;
    RunSnap(Init, acts, s);
  }

  // ---------- Pin accounting ----------

  function LiveAt(txns: map<string, TxnState>, x: u64): set<string> {
    set t | t in txns && !Terminal(txns[t].status) && txns[t].snapshot == x
  }

  function ReadersAt(readers: map<nat, u64>, x: u64): set<nat> {
    set r | r in readers && readers[r] == x
  }

  function TxnHolders(ts: set<string>): set<Holder> {
    set t | t in ts :: TxnHolder(t)
  }

  function ReaderHolders(rs: set<nat>): set<Holder> {
    set r | r in rs :: ReaderHolder(r)
  }

  lemma {:induction false} TxnHoldersSize(ts: set<string>)
    ensures |TxnHolders(ts)| == |ts|
    decreases |ts|
  {
    if ts != {} {
      var t :| t in ts;
      TxnHoldersSize(ts - {t});
      assert TxnHolders(ts) == TxnHolders(ts - {t}) + {TxnHolder(t)};
    }
  }

  lemma {:induction false} ReaderHoldersSize(rs: set<nat>)
    ensures |ReaderHolders(rs)| == |rs|
    decreases |rs|
  {
    if rs != {} {
      var r :| r in rs;
      ReaderHoldersSize(rs - {r});
      assert ReaderHolders(rs) == ReaderHolders(rs - {r}) + {ReaderHolder(r)};
    }
  }

  lemma HoldersAreLive(s: Sys, x: u64)
    requires HoldsOk(s.h.holds, s.begins, s.st.txns, s.commit, s.sweeps) && ReadersOk(s.h.holds, s.readers)
    requires s.commit.Idle? && s.begins == map[] && s.sweeps == map[]
    ensures HoldersAt(s.h.holds, x) == TxnHolders(LiveAt(s.st.txns, x)) + ReaderHolders(ReadersAt(s.readers, x))
    ensures TxnHolders(LiveAt(s.st.txns, x)) !! ReaderHolders(ReadersAt(s.readers, x))
  {
    forall w
      ensures w in HoldersAt(s.h.holds, x) <==>
                w in TxnHolders(LiveAt(s.st.txns, x)) + ReaderHolders(ReadersAt(s.readers, x))
    {
      if w.TxnHolder? {
        assert HoldOk(w.t, s.h.holds, s.begins, s.st.txns, s.commit, s.sweeps);
      }
    }
  }

  /**
   Between operations, in every run without a crash, the reference count of a snapshot is the number of
   non-terminal transactions plus the number of live readers that hold it.
   */
  lemma PinAccounting(s: Sys, x: u64)
    requires Reachable(s) && !s.h.crashed
    requires s.commit.Idle? && s.begins == map[] && s.sweeps == map[]
    ensures PinCount(s.st.pins, x) == |LiveAt(s.st.txns, x)| + |ReadersAt(s.readers, x)|
  {
    ReachableSnap(s);
    hide InvCore, InvViews, HoldsOk, ReadersOk, LiveAt, ReadersAt;
    assert PinCount(s.st.pins, x) == |HoldersAt(s.h.holds, x)|;
    HoldersAreLive(s, x);
    TxnHoldersSize(LiveAt(s.st.txns, x));
    ReaderHoldersSize(ReadersAt(s.readers, x));
  }

  /** A threshold GC may prune at is at or below every snapshot still in use, in the middle of any operation too. */
  lemma GcStaysBelowLive(s: Sys, m: u64)
    requires Reachable(s) && !s.h.crashed && BackgroundEnabled(s, Gc(m))
    ensures forall t :: t in s.st.txns && !Terminal(s.st.txns[t].status) ==> m <= s.st.txns[t].snapshot
    ensures forall r :: r in s.readers ==> m <= s.readers[r]
  {
    ReachableSnap(s);
    hide InvCore, InvViews, PinsOk;
    forall w | w in s.h.holds
      ensures m <= s.h.holds[w]
    {
      HeldIsPinned(s.st.pins, s.h.holds, w);
    }
    forall t | t in s.st.txns && !Terminal(s.st.txns[t].status)
      ensures m <= s.st.txns[t].snapshot
    {
      assert HoldOk(t, s.h.holds, s.begins, s.st.txns, s.commit, s.sweeps);
      assert TxnHolder(t) in s.h.holds;
    }
    forall r | r in s.readers
      ensures m <= s.readers[r]
    {
      assert ReaderHolder(r) in s.h.holds;
    }
  }

  // ---------- What one step does to a view ----------

  lemma ClientLogKept(s: Sys, c: ClientAction)
    requires ClientEnabled(s, c)
    ensures ClientNext(s, c).h.log == s.h.log && ClientNext(s, c).h.pub == s.h.pub
  {
  }

  lemma BackgroundLogKept(s: Sys, b: BackgroundAction)
    requires BackgroundEnabled(s, b)
    ensures BackgroundNext(s, b).h.log == s.h.log && BackgroundNext(s, b).h.pub == s.h.pub
  {
  }

  /** Only publishing adds to the history. */
  lemma LogKept(s: Sys, a: Action)
    requires Enabled(s, a) && !a.Publish?
    ensures Next(s, a).h.log == s.h.log && Next(s, a).h.pub == s.h.pub
  {
    hide ClientNext, BackgroundNext, PublishNext, CommitVersionOf, EffectOf;
    match a
    case Client(c) => ClientLogKept(s, c);
    case Background(b) => BackgroundLogKept(s, b);
    case _ =>
  }

  lemma ClientHeld(s: Sys, c: ClientAction, w: Holder)
    requires ClientEnabled(s, c) && InvPins(s) && w in s.h.holds && w in ClientNext(s, c).h.holds
    ensures ClientNext(s, c).h.holds[w] == s.h.holds[w]
  {
    if c.BeginCapture? {
      assert HoldOk(c.t, s.h.holds, s.begins, s.st.txns, s.commit, s.sweeps);
    }
  }

  lemma BackgroundHeld(s: Sys, b: BackgroundAction, w: Holder)
    requires BackgroundEnabled(s, b) && w in s.h.holds && w in BackgroundNext(s, b).h.holds
    ensures BackgroundNext(s, b).h.holds[w] == s.h.holds[w]
  {
  }

  /** A holder keeps its snapshot as long as it holds one. */
  lemma SnapshotKept(s: Sys, a: Action, w: Holder)
    requires Enabled(s, a) && InvPins(s) && InvCommit(s) && w in s.h.holds && w in Next(s, a).h.holds
    ensures Next(s, a).h.holds[w] == s.h.holds[w]
  {
    hide ClientNext, BackgroundNext, PublishNext, CommitVersionOf, EffectOf, InvPins;
    match a
    case Client(c) => ClientHeld(s, c, w);
    case Background(b) => BackgroundHeld(s, b, w);
    case Publish => PublishKeeps(s);
    case _ =>
  }

  /** A held snapshot reads the pruned chains as if nothing had ever been pruned. */
  lemma HeldReads(s: Sys, w: Holder, k: string)
    requires InvViews(s) && InvPub(s) && w in s.h.holds
    ensures ReadAt(ChainOf(s.st.chains, k), s.h.holds[w]) == ReadAt(ChainOf(s.h.log, k), s.h.holds[w])
  {
    hide PubOk;
    if k in s.h.log {
      assert k in s.st.chains;
    }
  }

  /** Publishing at `v` shows at `x` exactly when `v <= x`. */
  lemma PublishShows(s: Sys, x: u64, k: string)
    requires Publishes(s)
    ensures ReadAt(ChainOf(PublishNext(s).h.log, k), x) ==
              if k in s.st.txns[s.commit.t].writeKeys && s.commit.v <= x
              then Some(Batch(s.st, s.commit.t, s.commit.v)[k])
              else ReadAt(ChainOf(s.h.log, k), x)
    ensures PublishNext(s).h.pub == s.h.pub[s.commit.t := s.commit.v]
  {
    PublishNextIs(s);
    hide PublishNext;
    var batch := Batch(s.st, s.commit.t, s.commit.v);
    if k in batch {
      AppendReads(ChainOf(s.h.log, k), batch[k], x);
    }
  }

  lemma PendingIsNext(s: Sys, w: Holder)
    requires Publishes(s) && InvViews(s) && InvCommit(s) && w in s.h.quiet
    ensures s.h.holds[w] < s.commit.v && s.commit.t !in s.h.pub
  {
  }

  /** No step moves the history as a quiescent holder sees it. */
  lemma StepView(s: Sys, a: Action, w: Holder, k: string)
    requires InvCore(s) && InvViews(s) && Enabled(s, a) && w in s.h.quiet && w in s.h.holds
    ensures ReadAt(ChainOf(Next(s, a).h.log, k), s.h.holds[w]) == ReadAt(ChainOf(s.h.log, k), s.h.holds[w])
    ensures forall t :: t in Next(s, a).h.pub && Next(s, a).h.pub[t] <= s.h.holds[w] <==>
                        t in s.h.pub && s.h.pub[t] <= s.h.holds[w]
  {
    hide InvTables, InvPub, InvWal, InvRecovery, InvViews, InvCommit, PublishNext;
    if !a.Publish? {
      LogKept(s, a);
    } else if Publishes(s) {
      PendingIsNext(s, w);
      PublishShows(s, s.h.holds[w], k);
    } else {
      PublishNothing(s);
    }
  }

  // ---------- Snapshot stability ----------

  /** The holder stays registered, and quiescent, through the whole run. */
  ghost predicate KeepsQuiet(s: Sys, acts: seq<Action>, w: Holder)
    decreases |acts|
  {
    w in s.h.quiet && (acts != [] ==> Enabled(s, acts[0]) && KeepsQuiet(Next(s, acts[0]), acts[1..], w))
  }

  /** The same reads, and the same visible commits, at the holder's snapshot. */
  ghost predicate SameView(s: Sys, s': Sys, w: Holder, k: string)
    requires w in s.h.holds && w in s'.h.holds
  {
    var x := s.h.holds[w];
    && s'.h.holds[w] == x
    && ReadAt(ChainOf(s'.h.log, k), x) == ReadAt(ChainOf(s.h.log, k), x)
    && ReadAt(ChainOf(s'.st.chains, k), x) == ReadAt(ChainOf(s.st.chains, k), x)
    && forall t :: t in s'.h.pub && s'.h.pub[t] <= x <==> t in s.h.pub && s.h.pub[t] <= x
  }

  lemma QuietHolds(s: Sys, w: Holder)
    requires InvSnap(s) && !s.h.crashed && w in s.h.quiet
    ensures w in s.h.holds && InvViews(s) && InvPins(s)
  {
  }

  lemma {:induction false} RunView(s: Sys, acts: seq<Action>, s': Sys, w: Holder, k: string)
    requires Inv(s) && InvSnap(s) && !s.h.crashed && Run(s, acts, s') && KeepsQuiet(s, acts, w)
    ensures Inv(s') && InvSnap(s') && !s'.h.crashed && w in s'.h.quiet
    ensures w in s.h.holds && w in s'.h.holds && SameView(s, s', w, k)
    decreases |acts|
  {
    hide Next, InvSnap, InvCore, InvViews, InvPins, InvCounts, Enabled;
    QuietHolds(s, w);
    if acts != [] {
      StepQuiet(s, acts[0], w, k);
      RunView(Next(s, acts[0]), acts[1..], s', w, k);
    }
  }

  lemma CrashReleases(s: Sys, a: Action)
    requires Enabled(s, a)
    ensures a.Crash? ==> Next(s, a).h.quiet == {}
  {
  }

  lemma StepQuiet(s: Sys, a: Action, w: Holder, k: string)
    requires Inv(s) && InvSnap(s) && !s.h.crashed && Enabled(s, a) && w in s.h.quiet && w in Next(s, a).h.quiet
    ensures Inv(Next(s, a)) && InvSnap(Next(s, a)) && !Next(s, a).h.crashed
    ensures w in s.h.holds && w in Next(s, a).h.holds && SameView(s, Next(s, a), w, k)
  {
    hide InvTables, InvPub, InvWal, InvRecovery, InvViews, InvPins, InvCounts, InvSnap, InvCommit, Next, Enabled;
    StepInv(s, a);
    StepSnap(s, a);
    CrashedStays(s, a);
    CrashReleases(s, a);
    QuietHolds(s, w);
    QuietHolds(Next(s, a), w);
    SnapshotKept(s, a, w);
    StepView(s, a, w, k);
    HeldReads(s, w, k);
    HeldReads(Next(s, a), w, k);
  }

  /**
   A transaction or reader with a quiescent snapshot sees the same version of every key, and the same set
   of commits, from then on until it lets go, through any run of other commits, aborts, sweeps and GC.
   */
  lemma SnapshotStability(s: Sys, acts: seq<Action>, s': Sys, w: Holder)
    requires Reachable(s) && !s.h.crashed && Run(s, acts, s') && KeepsQuiet(s, acts, w)
    ensures w in s.h.holds && w in s'.h.holds
    ensures forall k :: SameView(s, s', w, k)
  {
    ReachableSnap(s);
    forall k
      ensures w in s.h.holds && w in s'.h.holds && SameView(s, s', w, k)
    {
      RunView(s, acts, s', w, k);
    }
    RunView(s, acts, s', w, "");
  }

  // ---------- All or nothing ----------

  /** In an ascending history, a read at or above an entry's version finds something at least as new. */
  lemma {:induction false} ReadFinds(c: Entries, i: nat, x: u64)
    requires Ascending(c) && i < |c| && c[i].commitVersion <= x
    ensures ReadAt(c, x).Some? && c[i].commitVersion <= ReadAt(c, x).value.commitVersion <= x
  {
    if c[|c| - 1].commitVersion > x {
      ReadFinds(c[..|c| - 1], i, x);
    }
  }

  lemma {:induction false} ReadIsBelow(c: Entries, x: u64)
    ensures ReadAt(c, x).Some? ==> ReadAt(c, x).value in c && ReadAt(c, x).value.commitVersion <= x
  {
    if c != [] && c[|c| - 1].commitVersion > x {
      ReadIsBelow(c[..|c| - 1], x);
      assert forall e :: e in c[..|c| - 1] ==> e in c;
    }
  }

  /**
   Every holder's snapshot shows a commit on all of its keys or on none: at least its version on each key
   it wrote when its version is at or below the snapshot, and nothing of it anywhere otherwise.
   */
  lemma AllOrNothing(s: Sys, w: Holder, t: string)
    requires Reachable(s) && !s.h.crashed && w in s.h.holds && t in s.st.txns
    ensures t in s.h.pub && s.h.pub[t] <= s.h.holds[w] ==>
              forall k :: k in s.st.txns[t].writeKeys ==>
                var r := ReadAt(ChainOf(s.st.chains, k), s.h.holds[w]);
                r.Some? && s.h.pub[t] <= r.value.commitVersion
    ensures !(t in s.h.pub && s.h.pub[t] <= s.h.holds[w]) ==>
              forall k :: var r := ReadAt(ChainOf(s.st.chains, k), s.h.holds[w]); r.Some? ==> r.value.txnId != t
  {
    ReachableSnap(s);
    ReachableInv(s);
    hide InvTables, InvWal, InvRecovery, InvCounts, InvCommit, InvPins, InvViews, ReadAt;
    if t in s.h.pub && s.h.pub[t] <= s.h.holds[w] {
      forall k | k in s.st.txns[t].writeKeys
        ensures var r := ReadAt(ChainOf(s.st.chains, k), s.h.holds[w]); r.Some? && s.h.pub[t] <= r.value.commitVersion
      {
        HeldReads(s, w, k);
        SeenOnKey(s, t, k, s.h.holds[w]);
      }
    } else {
      forall k
        ensures var r := ReadAt(ChainOf(s.st.chains, k), s.h.holds[w]); r.Some? ==> r.value.txnId != t
      {
        HeldReads(s, w, k);
        UnseenOnKey(s, t, k, s.h.holds[w]);
      }
    }
  }

  lemma SeenOnKey(s: Sys, t: string, k: string, x: u64)
    requires InvPub(s) && t in s.h.pub && s.h.pub[t] <= x && k in s.st.txns[t].writeKeys
    ensures var r := ReadAt(ChainOf(s.h.log, k), x); r.Some? && s.h.pub[t] <= r.value.commitVersion
  {
    assert LogHolds(s.h.log, k, t);
    var e :| e in s.h.log[k] && e.txnId == t;
    var i :| 0 <= i < |s.h.log[k]| && s.h.log[k][i] == e;
    assert EntryOk(k, e, s.h.pub, s.st.txns);
    ReadFinds(s.h.log[k], i, x);
  }

  lemma UnseenOnKey(s: Sys, t: string, k: string, x: u64)
    requires InvPub(s) && s.h.origin.Blank? && !(t in s.h.pub && s.h.pub[t] <= x)
    ensures var r := ReadAt(ChainOf(s.h.log, k), x); r.Some? ==> r.value.txnId != t
  {
    var r := ReadAt(ChainOf(s.h.log, k), x);
    ReadIsBelow(ChainOf(s.h.log, k), x);
    if r.Some? {
      assert EntryOk(k, r.value, s.h.pub, s.st.txns);
    }
  }

  // ---------- First committer wins, in view ----------

  /** With a quiescent snapshot, the later writer of a key had the earlier write in view from the start. */
  lemma LaterWriterSawEarlier(s: Sys, acts: seq<Action>, s': Sys, t: string, k: string, i: nat, j: nat)
    requires Reachable(s) && !s.h.crashed && Run(s, acts, s') && KeepsQuiet(s, acts, TxnHolder(t))
    requires k in s'.h.log && i < j < |s'.h.log[k]| && s'.h.log[k][j].txnId == t
    ensures TxnHolder(t) in s.h.holds
    ensures var r := ReadAt(ChainOf(s.st.chains, k), s.h.holds[TxnHolder(t)]);
            r.Some? && s'.h.log[k][i].commitVersion <= r.value.commitVersion
  {
    ReachableSnap(s);
    ReachableInv(s);
    RunOrigin(s, acts, s');
    RunView(s, acts, s', TxnHolder(t), k);
    hide InvTables, InvWal, InvRecovery, InvCounts, InvCommit, InvViews, ReadAt, Run, KeepsQuiet, PinsOk, FirstCommitterWins;
    EarlierIsBelow(s', k, i, j);
    assert HoldOk(t, s'.h.holds, s'.begins, s'.st.txns, s'.commit, s'.sweeps);
    HeldReads(s', TxnHolder(t), k);
    ReadFinds(s'.h.log[k], i, s'.h.holds[TxnHolder(t)]);
  }

  lemma EarlierIsBelow(s: Sys, k: string, i: nat, j: nat)
    requires InvPub(s) && s.h.origin.Blank? && k in s.h.log && i < j < |s.h.log[k]|
    ensures Ascending(s.h.log[k]) && s.h.log[k][j].txnId in s.st.txns
    ensures s.h.log[k][i].commitVersion <= s.st.txns[s.h.log[k][j].txnId].snapshot
  {
    assert EntryOk(k, s.h.log[k][j], s.h.pub, s.st.txns);
  }

  // ---------- Captured inside the window ----------

  /** A snapshot captured between a writing commit's allocation and its append is exactly the version being committed. */
  lemma WindowCapture(s: Sys)
    requires Reachable(s) && InWindow(s.commit) && s.commit.t in s.st.txns && s.st.txns[s.commit.t].writeKeys != {}
    ensures s.commit.v == s.st.globalVersion
  {
    ReachableInv(s);
    hide InvTables, InvWal, InvRecovery, InvCounts, InvPub;
  }

  lemma PublishedView(s: Sys, w: Holder, k: string)
    requires Inv(s) && InvSnap(s) && !s.h.crashed && Publishes(s) && w in s.h.holds
    ensures ReadAt(ChainOf(PublishNext(s).st.chains, k), s.h.holds[w]) ==
              if k in s.st.txns[s.commit.t].writeKeys && s.commit.v <= s.h.holds[w]
              then Some(Batch(s.st, s.commit.t, s.commit.v)[k]) else ReadAt(ChainOf(s.st.chains, k), s.h.holds[w])
  {
    hide InvTables, InvWal, InvRecovery, InvCounts, InvPins, InvViews, InvPub, PublishNext, InvCommit, ReadAt, Batch, CanAppend;
    StepSnap(s, Publish);
    StepInv(s, Publish);
    PublishKeeps(s);
    HeldReads(s, w, k);
    HeldReads(PublishNext(s), w, k);
    PublishShows(s, s.h.holds[w], k);
  }

  /**
   Publishing leaves a held snapshot's reads of every key unchanged if and only if the snapshot is below the
   version published; otherwise each written key jumps to the new entry.
   */
  lemma PublishMovesView(s: Sys, w: Holder)
    requires Reachable(s) && !s.h.crashed && Publishes(s) && w in s.h.holds
    ensures (forall k :: ReadAt(ChainOf(PublishNext(s).st.chains, k), s.h.holds[w]) == ReadAt(ChainOf(s.st.chains, k), s.h.holds[w]))
              <==> s.h.holds[w] < s.commit.v
    ensures s.commit.v <= s.h.holds[w] ==>
              forall k :: k in s.st.txns[s.commit.t].writeKeys ==>
                ReadAt(ChainOf(PublishNext(s).st.chains, k), s.h.holds[w]) == Some(Batch(s.st, s.commit.t, s.commit.v)[k])
  {
    hide InvCore, InvSnap, PublishNext, CanAppend, ReadAt, Reachable;
    ReachableSnap(s);
    var x := s.h.holds[w];
    forall k
      ensures ReadAt(ChainOf(PublishNext(s).st.chains, k), x) ==
                if k in s.st.txns[s.commit.t].writeKeys && s.commit.v <= x
                then Some(Batch(s.st, s.commit.t, s.commit.v)[k]) else ReadAt(ChainOf(s.st.chains, k), x)
    {
      PublishedView(s, w, k);
    }
    if s.commit.v <= x {
      var k :| k in s.st.txns[s.commit.t].writeKeys;
      PublishIsNew(s, k, x);
    }
  }

  lemma PublishIsNew(s: Sys, k: string, x: u64)
    requires Publishes(s) && InvCore(s) && k in s.st.txns[s.commit.t].writeKeys
    ensures ReadAt(ChainOf(s.st.chains, k), x) != Some(Batch(s.st, s.commit.t, s.commit.v)[k])
  {
    hide InvWal, InvRecovery, RowsOk, IdsOk;
    NoneIsMine(s, s.commit.t, k);
    ReadIsBelow(ChainOf(s.st.chains, k), x);
  }
}
