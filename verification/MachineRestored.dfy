/**
 Runs of the protocol over a store that a cold rebuild has just filled: the chains and the version counter are
 those of the chunks, the log is empty and starts again at sequence number 1.
 */
module MachineRestored {
  import opened Primitives
  import opened Stores
  import opened Machine
  import opened MachineInvariant
  import opened MachineOutcomes
  import opened MachineExamples
  import Rebuild

  function Restored(r: Rebuild.Rebuilt): Sys {
    StartFrom(Rebuilt(r.globalVersion), r.chains)
  }

  /** What a faithful rebuild leaves is a store the protocol may start from. */
  lemma RestoredFits(ls: seq<Rebuild.Listing>, r: Rebuild.Rebuilt)
    requires Rebuild.Faithful(ls, r)
    ensures ChainsFit(Rebuilt(r.globalVersion), r.chains)
  {
    forall k, e | k in r.chains && e in r.chains[k]
      ensures e.commitVersion <= r.globalVersion
    {
      assert e in ChainOf(r.chains, k) && Rebuild.ChainHolds(Rebuild.AllFound(ls), k, e);
    }
  }

  /**
   After a rebuild, in every run, a cut commit has its true outcome recorded if and only if one of its records had
   survived truncation when the crash came.
   */
  lemma CrashAfterRebuild(ls: seq<Rebuild.Listing>, r: Rebuild.Rebuilt, s: Sys, t: string)
    requires Rebuild.Faithful(ls, r) && Leads(Restored(r), s) && s.mode == Recovering({}, Choose) && s.h.cut == Some(t)
    requires t in s.st.txns && s.st.txns[t].writeKeys != {} && s.st.walFloor <= |s.st.wal|
    ensures AllHold(s.st, t) != NoneHold(s.st, t)
    ensures Outcome(s.st, t) == Some(Committed) <==> AllHold(s.st, t) && s.h.cutLogged
    ensures Outcome(s.st, t) == Some(Aborted) <==> NoneHold(s.st, t) && s.h.cutLogged
    ensures Outcome(s.st, t) == None <==> !s.h.cutLogged
  {
    hide AllHold, NoneHold, Outcome, Leads, ChainsFit, Rebuild.Faithful;
    RestoredFits(ls, r);
    CrashAtomicityRebuilt(Rebuilt(r.globalVersion), r.chains, s, t);
  }

  // ---------- First committer wins, across the rebuild ----------

  /** Every snapshot was captured at or above the given version. */
  ghost predicate Since(s: Sys, v: u64) {
    && v <= s.st.globalVersion
    && (forall t :: t in s.st.txns ==> v <= s.st.txns[t].snapshot)
    && (forall t :: t in s.begins && s.begins[t].Captured? ==> v <= s.begins[t].snapshot)
  }

  lemma ClientSince(s: Sys, c: ClientAction, v: u64)
    requires Since(s, v) && ClientEnabled(s, c)
    ensures Since(ClientNext(s, c), v)
  {
  }

  lemma CommitSince(s: Sys, m: CommitAction, v: u64)
    requires Since(s, v) && CommitEnabled(s, m)
    ensures Since(CommitNext(s, m), v)
  {
    hide SnapshotConflict, ReconcileFindsPublished;
  }

  lemma BackgroundSince(s: Sys, b: BackgroundAction, v: u64)
    requires Since(s, v) && BackgroundEnabled(s, b)
    ensures Since(BackgroundNext(s, b), v)
  {
    hide CommittedAt, PruneAll;
  }

  lemma RecoverSince(s: Sys, a: RecoverAction, v: u64)
    requires Since(s, v) && RecoverEnabled(s, a)
    ensures Since(RecoverNext(s, a), v)
  {
    hide RecoverNext, RecoverEnabled;
    RecoverKeeps(s, a);
    forall t | t in RecoverNext(s, a).st.txns
      ensures v <= RecoverNext(s, a).st.txns[t].snapshot
    {
      RecoverSnapshot(s, a, t);
    }
  }

  lemma RecoverKeeps(s: Sys, a: RecoverAction)
    requires RecoverEnabled(s, a)
    ensures RecoverNext(s, a).st.globalVersion == s.st.globalVersion && RecoverNext(s, a).begins == s.begins
  {
    hide Decide, CommitVersionOf;
  }

  lemma RecoverSnapshot(s: Sys, a: RecoverAction, t: string)
    requires RecoverEnabled(s, a) && t in RecoverNext(s, a).st.txns
    ensures t in s.st.txns && RecoverNext(s, a).st.txns[t].snapshot == s.st.txns[t].snapshot
  {
    hide Decide, CommitVersionOf;
  }

  lemma PublishSince(s: Sys, v: u64)
    requires Since(s, v) && PublishEnabled(s)
    ensures Since(PublishNext(s), v)
  {
    hide CanAppend, AppendAll, Batch, Extend;
  }

  lemma StepSince(s: Sys, a: Action, v: u64)
    requires Since(s, v) && Enabled(s, a)
    ensures Since(Next(s, a), v)
  {
    hide ClientNext, CommitNext, BackgroundNext, RecoverNext, PublishNext;
    match a
    case Client(c) => ClientSince(s, c, v);
    case Commit(m) => CommitSince(s, m, v);
    case Background(b) => BackgroundSince(s, b, v);
    case Recover(r) => RecoverSince(s, r, v);
    case Publish => PublishSince(s, v);
    case _ =>
  }

  lemma {:induction false} RunSince(s: Sys, acts: seq<Action>, s': Sys, v: u64)
    requires Since(s, v) && Run(s, acts, s')
    ensures Since(s', v)
    decreases |acts|
  {
    if acts != [] {
      hide Since, Next, Enabled;
      StepSince(s, acts[0], v);
      RunSince(Next(s, acts[0]), acts[1..], s', v);
    }
  }

  /**
   The rebuilt chain of a record stands under a key that later commits do not check. None of their checks misses
   anything by that: in every run after the rebuild every transaction's snapshot is at or above every version found
   in the chunks, so no rebuilt chain would ever have refused it.
   */
  lemma FirstCommitterAcrossRebuild(ls: seq<Rebuild.Listing>, r: Rebuild.Rebuilt, acts: seq<Action>, s: Sys, t: string)
    requires Rebuild.Faithful(ls, r) && Run(Restored(r), acts, s) && t in s.st.txns
    ensures forall f :: f in Rebuild.AllFound(ls) ==> f.item.version <= s.st.txns[t].snapshot
    ensures forall ck :: !Conflicts(ChainOf(r.chains, ck), s.st.txns[t].snapshot)
  {
    hide Run;
    RunSince(Restored(r), acts, s, r.globalVersion);
    forall ck
      ensures !Conflicts(ChainOf(r.chains, ck), s.st.txns[t].snapshot)
    {
      var c := ChainOf(r.chains, ck);
      if c != [] {
        assert c[|c| - 1] in c && Rebuild.ChainHolds(Rebuild.AllFound(ls), ck, c[|c| - 1]);
      }
    }
  }

  // ---------- Truncation after a rebuild ----------

  /** "t" has staged and "u" has committed one version above the rebuilt ones. */
  lemma OvertakenAbove(r: Rebuild.Rebuilt, k: string, l: string) returns (s: Sys)
    requires k != l && k !in r.chains && l !in r.chains && Unused(r.chains, "t") && Unused(r.chains, "u")
    requires r.globalVersion <= U64_MAX - 2
    ensures Leads(Restored(r), s) && s.mode.Running? && s.commit.Idle? && "t" in s.h.begun
    ensures s.st.globalVersion == r.globalVersion + 1 && s.st.walFloor == 0 && |s.st.wal| == 7 && k !in s.st.chains
    ensures "t" in s.st.txns && s.st.txns["t"] == TxnState(Active, r.globalVersion, 0, {k}, map[])
    ensures HasStatus(s.st, "u", Committed) && "u" in s.h.pub && s.h.pub["u"] == r.globalVersion + 1
  {
    hide Leads;
    var s0 := Restored(r);
    LeadsSelf(s0);
    BeginAndStage(s0, s0, "t", k);
    s := WriteAlone(s0, Staged(s0, "t", k), "u", l);
  }

  /** Then "t" took the next version and logged its intent. */
  lemma IntendedAbove(r: Rebuild.Rebuilt, k: string, l: string) returns (s: Sys)
    requires k != l && k !in r.chains && l !in r.chains && Unused(r.chains, "t") && Unused(r.chains, "u")
    requires r.globalVersion <= U64_MAX - 2
    ensures Leads(Restored(r), s) && s.mode.Running? && s.commit == Intended("t", r.globalVersion + 2)
    ensures s.st.walFloor == 0 && |s.st.wal| == 8 && k !in s.st.chains
    ensures "t" in s.st.txns && s.st.txns["t"].status == Committing && s.st.txns["t"].writeKeys == {k}
    ensures HasStatus(s.st, "u", Committed) && "u" in s.h.pub && s.h.pub["u"] == r.globalVersion + 1
  {
    hide Leads, SnapshotConflict, Uniform;
    var s0 := Restored(r);
    var s1 := OvertakenAbove(r, k, l);
    ClaimAndAllocate(s0, s1, "t");
    var s2 := Started(s1, "t");
    NewKeyIsFree(s2.st, "t", k);
    CheckAndLog(s0, s2);
    s := Ready(s2);
  }

  /** Then it published. */
  lemma PublishedAbove(r: Rebuild.Rebuilt, k: string, l: string) returns (s: Sys)
    requires k != l && k !in r.chains && l !in r.chains && Unused(r.chains, "t") && Unused(r.chains, "u")
    requires r.globalVersion <= U64_MAX - 2
    ensures Leads(Restored(r), s) && s.mode.Running? && s.commit == Appended("t", r.globalVersion + 2)
    ensures s.st.walFloor == 0 && |s.st.wal| == 8 && CommittedAt(s, r.globalVersion + 1)
    ensures "t" in s.st.txns && s.st.txns["t"].status == Committing && s.st.txns["t"].writeKeys == {k}
    ensures AllHold(s.st, "t")
  {
    hide Leads, Batch, CanAppend, AppendAll, Extend, AllHold;
    var s1 := IntendedAbove(r, k, l);
    NewKeyAppends(s1.st, "t", k, s1.commit.v);
    s := PublishNext(s1);
    StepReaches(Restored(r), s1, Publish, s);
    PublishedHolds(s1, k);
    assert "u" in s.h.pub && s.h.pub["u"] == r.globalVersion + 1;
  }

  lemma PublishedHolds(s: Sys, k: string)
    requires PublishEnabled(s) && s.st.txns[s.commit.t].writeKeys == {k} && k !in s.st.chains
    ensures AllHold(PublishNext(s).st, s.commit.t)
  {
    var s', t := PublishNext(s), s.commit.t;
    var e := Batch(s.st, t, s.commit.v)[k];
    assert s'.st.chains[k] == [e] && e in s'.st.chains[k];
  }

  /** The flush of "u" leaves nothing of "t" in the log. */
  lemma FlushedAbove(r: Rebuild.Rebuilt, k: string, l: string) returns (s: Sys)
    requires k != l && k !in r.chains && l !in r.chains && Unused(r.chains, "t") && Unused(r.chains, "u")
    requires 7 <= r.globalVersion <= U64_MAX - 2
    ensures Leads(Restored(r), s) && s.mode.Running? && s.commit == Appended("t", r.globalVersion + 2)
    ensures s.st.walFloor <= |s.st.wal| && WalTxns(Surviving(s.st)) == {}
    ensures "t" in s.st.txns && s.st.txns["t"].status == Committing && s.st.txns["t"].writeKeys == {k}
    ensures AllHold(s.st, "t")
  {
    hide Leads, AllHold, CommittedAt;
    var s1 := PublishedAbove(r, k, l);
    s := FlushLog(Restored(r), s1, r.globalVersion + 1);
    OnlyFlushes(s1.st, r.globalVersion + 1);
    SameHold(s1.st, s.st, "t");
  }

  lemma OnlyFlushes(st: Store, v: u64)
    requires st.walFloor == 0 && |st.wal| <= v
    ensures var st' := TruncateWal(AppendWal(st, LogMemtableFlushed(v)), v);
            st'.walFloor <= |st'.wal| && WalTxns(Surviving(st')) == {}
  {
    var w := Surviving(TruncateWal(AppendWal(st, LogMemtableFlushed(v)), v));
    assert forall x :: x in w ==> x.LogMemtableFlushed?;
  }

  /**
   The log's sequence numbers start over while the versions do not, so a flush after a rebuild truncates by numbers
   the log has not reached. From any rebuilt version of 7 or more there is a run that loses the intent record of a
   commit already in the chains: recovery has nothing to go by, and its row stays Committing although all its keys
   hold its entry.
   */
  lemma RebuildOutrunsLog(r: Rebuild.Rebuilt, k: string, l: string) returns (s: Sys)
    requires k != l && k !in r.chains && l !in r.chains && Unused(r.chains, "t") && Unused(r.chains, "u")
    requires 7 <= r.globalVersion <= U64_MAX - 2
    ensures Leads(Restored(r), s) && s.mode == Recovering({}, Choose) && s.h.cut == Some("t")
    ensures "t" in s.st.txns && s.st.txns["t"].writeKeys == {k} && s.st.walFloor <= |s.st.wal|
    ensures AllHold(s.st, "t") && Outcome(s.st, "t") == None
  {
    hide Leads, AllHold, WalTxns, LastStatus;
    var s2 := FlushedAbove(r, k, l);
    NoneAbout(Surviving(s2.st), "t");
    StatusOfLast(Surviving(s2.st), "t");
    s := CrashNext(s2);
    StepReaches(Restored(r), s2, Crash, s);
    SameHold(s2.st, s.st, "t");
  }

  lemma SameHold(st: Store, st': Store, t: string)
    requires t in st.txns && st'.txns == st.txns && st'.chains == st.chains && AllHold(st, t)
    ensures AllHold(st', t)
  {
  }
}
