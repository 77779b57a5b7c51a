/**
 Commit with its failure reconciliation, explicit abort, begin, the stale sweep and recovery as they run
 over the store, step by step. Each one, run without interruption, is a run of the step machine, whatever
 subset of its fallible store calls fails.
 */
module Coordinators {
  import opened Primitives
  import opened VersionChains
  import opened Stores
  import opened ChainBatches
  import opened LocalStores
  import opened Machine
  import opened MachineInvariant
  import opened MachineRecovery
  import opened MachineOutcomes
  import opened CommitEffects
  import L = SiLocks
  import H = SiHistory
  import T = SiTies

  lemma ReachableOn(s: Sys, s': Sys)
    requires Reachable(s) && Leads(s, s')
    ensures Reachable(s')
  {
    LeadsOn(Init, s, s');
  }

  lemma StaysReachable(s: Sys, s': Sys)
    requires Leads(s, s')
    ensures Reachable(s) ==> Reachable(s')
  {
    if Reachable(s) {
      ReachableOn(s, s');
    }
  }

  /** The greatest allocated version, else the snapshot. */
  method ReportedVersion(rec: TxnState) returns (v: u64)
    ensures v == CommitVersionOf(rec)
    ensures rec.alloc == map[] ==> v == rec.snapshot
    ensures rec.alloc != map[] ==> (exists k :: k in rec.alloc && rec.alloc[k] == v) && forall k :: k in rec.alloc ==> rec.alloc[k] <= v
  {
    var best: Option<u64> := None;
    var todo := rec.alloc.Keys;
    while todo != {}
      invariant todo <= rec.alloc.Keys
      invariant best.None? <==> todo == rec.alloc.Keys
      invariant best.Some? ==> exists k :: k in rec.alloc && rec.alloc[k] == best.value
      invariant forall k :: k in rec.alloc && k !in todo ==> best.Some? && rec.alloc[k] <= best.value
      decreases |todo|
    {
      var k :| k in todo;
      todo := todo - {k};
      if best.None? || best.value < rec.alloc[k] {
        best := Some(rec.alloc[k]);
      }
    }
    assert rec.alloc == map[] <==> rec.alloc.Keys == {};
    v := if best.Some? then best.value else rec.snapshot;
  }

  /** The row says Committed exactly when every written key's chain holds the entry, Aborted exactly when none does. */
  ghost predicate Atomic(st: Store, t: string)
    requires t in st.txns
  {
    st.txns[t].writeKeys != {} ==>
      (st.txns[t].status == Committed <==> AllHold(st, t)) && (st.txns[t].status == Aborted <==> NoneHold(st, t))
  }

  /** The cut commit's recorded outcome against its keys' chains. */
  ghost predicate Settles(st: Store, t: string, logged: bool) {
    st.walFloor <= |st.wal| && t in st.txns &&
    (st.txns[t].writeKeys != {} ==>
       && (Outcome(st, t) == Some(Committed) <==> AllHold(st, t))
       && (Outcome(st, t) == Some(Aborted) <==> NoneHold(st, t) && logged))
  }

  lemma RecoveredIsAtomic(s: Sys, t: string)
    requires Reachable(s) && s.mode == Recovering({}, Choose) && s.h.cut == Some(t)
    ensures Settles(s.st, t, s.h.cutLogged)
  {
    CutIsKnown(s, t);
    if s.st.txns[t].writeKeys != {} {
      CrashAtomicity(s, t);
    }
  }

  lemma CutIsKnown(s: Sys, t: string)
    requires Reachable(s) && s.mode.Recovering? && s.h.cut == Some(t)
    ensures t in s.st.txns && s.st.walFloor <= |s.st.wal|
  {
    ReachableInv(s);
    hide InvTables, InvCommit, InvPub, InvWal;
  }

  lemma ActiveIsUnallocated(s: Sys, t: string)
    requires Reachable(s) && HasStatus(s.st, t, Active)
    ensures s.st.txns[t].alloc == map[]
  {
    hide InvCommit, InvPub, InvWal, InvRecovery, VersionsOk, IdsOk;
    ReachableInv(s);
    assert RowOk(t, s.st.txns[t], s.h.stagers, s.h.allocVer, s.h.intent);
  }

  lemma FinishedIsAtomic(s: Sys, t: string)
    requires Reachable(s) && s.commit == Unpinning(t) && t in s.st.txns
    ensures Atomic(s.st, t)
  {
    if s.st.txns[t].writeKeys != {} {
      FailureAtomicity(s, t);
    }
  }

  /** The version a staged write is expected to get. */
  function NextOf(snapshot: u64): u64 {
    if snapshot < U64_MAX then snapshot + 1 else U64_MAX
  }

  /** None of the calls numbered from `lo` up to `hi` fails. */
  ghost predicate Works(faults: nat -> bool, lo: nat, hi: nat) {
    forall i :: lo <= i < hi ==> !faults(i)
  }

  lemma StagedIs(s: Sys, t: string, k: string, w: StagedWrite)
    requires ClientEnabled(s, Stage(t, k, w))
    ensures var s' := ClientNext(s, Stage(t, k, w));
            && s' == s.(st := s'.st, h := s'.h)
            && s'.st == s.st.(wal := s.st.wal + [LogStage(t, k)], writes := s.st.writes[t := WriteSet(s.st, t)[k := w]],
                              txns := s.st.txns[t := s.st.txns[t].(writeKeys := s.st.txns[t].writeKeys + {k})])
  {
  }

  lemma AfterAbortLog(s: Sys)
    requires CommitEnabled(s, AbortLog)
    ensures CommitNext(s, AbortLog).commit == Unpinning(s.commit.t) && CommitNext(s, AbortLog).mode == s.mode
  {
  }

  lemma WorksOn(faults: nat -> bool, a: nat, b: nat, c: nat)
    requires a <= b <= c
    ensures Works(faults, a, c) <==> Works(faults, a, b) && Works(faults, b, c)
  {
  }

  lemma WorksThree(faults: nat -> bool, a: nat)
    ensures Works(faults, a, a + 3) <==> !faults(a) && !faults(a + 1) && !faults(a + 2)
  {
  }

  lemma WorksSo(faults: nat -> bool)
    ensures Works(faults, 0, 8) <==> !faults(0) && !faults(1) && Works(faults, 2, 8)
    ensures Works(faults, 0, 5) <==> !faults(0) && !faults(1) && Works(faults, 2, 5)
    ensures Works(faults, 2, 8) <==> Works(faults, 2, 5) && Works(faults, 5, 8)
    ensures Works(faults, 0, 12) ==> Works(faults, 0, 8) && !faults(10) && !faults(11)
  {
    WorksOn(faults, 0, 2, 8);
    WorksOn(faults, 0, 2, 5);
    WorksOn(faults, 2, 5, 8);
  }

  /** How a commit's first phase ended: checked at a version, aborted, or failed. */
  datatype Phase = Go(v: u64) | Refused | Broke

  ghost predicate OthersSame(was: Store, now: Store, t: string)
    requires was.walFloor <= |was.wal| && now.walFloor <= |now.wal|
  {
    forall u :: u != t ==>
      && LastStatus(Surviving(now), u) == LastStatus(Surviving(was), u)
      && LastKeys(Surviving(now), u) == LastKeys(Surviving(was), u)
  }

  lemma OthersStaySame(a: Store, b: Store, c: Store, d: Store, t: string)
    requires a.walFloor <= |a.wal| && b.walFloor <= |b.wal| && c.walFloor <= |c.wal| && d.walFloor <= |d.wal|
    requires OthersSame(a, b, t) && OthersSame(b, c, t) && d.wal == c.wal && d.walFloor == c.walFloor
    ensures OthersSame(a, d, t)
  {
    hide LastStatus, LastKeys;
    assert Surviving(d) == Surviving(c);
  }

  class Coordinator {
    const store: LocalStore
    const locks: L.SiLockManager
    ghost var sys: Sys
    ghost var run: seq<H.Act>   // the calls made to the lock manager, and the cycle checks passed

    constructor ()
      ensures AtRest() && Tied() && sys == Init && run == [] && fresh(store) && fresh(locks)
    {
      store := new LocalStore();
      locks := new L.SiLockManager();
      sys, run := Init, [];
    }

    /** The calls so far are a run of the check-and-commit protocol that agrees with the rows. */
    ghost predicate Tied()
      reads this, store, locks
    {
      T.Tied(run, store.txns, locks.State())
    }

    ghost predicate Valid()
      reads this, store
    {
      store.Valid() && sys.st == store.Value()
    }

    /** No operation under way. */
    ghost predicate AtRest()
      reads this, store
    {
      Valid() && sys.mode.Running? && sys.commit.Idle?
    }

    /** One store write of the committer: a row, a log record, or a decision only. */
    method Write(t: string, row: Option<TxnState>, log: Option<WalRecord>, ghost m: CommitAction)
      requires Valid() && CommitEnabled(sys, m) && Target(sys.commit, m) == t
      requires EffectOf(sys, m).row == (if row.Some? then row.value else store.txns[t])
      requires EffectOf(sys, m).logs == (if log.Some? then [log.value] else [])
      modifies this, store
      ensures Valid() && sys == CommitNext(old(sys), m) && Leads(old(sys), sys)
      ensures store.Value() == old(store.Value()).(wal := store.wal, txns := store.txns)
      ensures store.wal == if log.Some? then old(store.wal) + [log.value] else old(store.wal)
      ensures store.txns == if row.Some? then old(store.txns)[t := row.value] else old(store.txns)
      ensures T.Only(old(store.txns), store.txns, t)
    {
      LeadsStep(sys, Commit(m));
      if log.Some? {
        var _ := store.Append(log.value);
      }
      if row.Some? {
        store.PutTxnState(t, row.value);
      }
      sys := CommitNext(sys, m);
      assert sys.st.txns == store.txns;
    }

    /** A failed call: nothing more is written, and reconciliation takes over. */
    method GiveUp(t: string)
      requires Valid() && sys.mode.Running? && InCommitting(sys.commit) && !sys.commit.Failed? && !sys.commit.FixUp?
      requires sys.commit.t == t && t in store.txns
      modifies this, store
      ensures Valid() && Leads(old(sys), sys)
      ensures sys.commit == Failed(t) && sys.mode.Running? && t in store.txns && store.Value() == old(store.Value())
      ensures T.Only(old(store.txns), store.txns, t)
    {
      Write(t, None, None, Fail);
      assert sys.st.wal == old(sys).st.wal && sys.st.txns == old(sys).st.txns;
    }

    method ReleasePin(t: string)
      requires Valid() && ReleasePinEnabled(sys) && sys.commit.t == t
      modifies this, store
      ensures AtRest() && Leads(old(sys), sys) && store.txns == old(store.txns)
      ensures store.Value() == old(store.Value()).(pins := store.pins)
      ensures OnePinLess(old(store.pins), store.pins, store.txns[t].snapshot)
      ensures Reachable(old(sys)) ==> Atomic(store.Value(), t)
    {
      UnpinIsLess(store.pins, store.txns[t].snapshot);
      if Reachable(sys) {
        FinishedIsAtomic(sys, t);
      }
      hide Reachable;
      LeadsStep(sys, Action.ReleasePin);
      store.Unregister(store.txns[t].snapshot);
      sys := ReleasePinNext(sys);
    }

    /** The abort inside a commit: log it, store it, release the pin. */
    method Reject(t: string, faults: nat -> bool) returns (ok: bool)
      requires Valid() && sys.mode.Running? && sys.commit == Rejecting(t) && t in store.txns
      modifies this, store
      ensures Leads(old(sys), sys) && t in store.txns
      ensures ok <==> !faults(10) && !faults(11)
      ensures ok ==> AtRest() && TurnedDown(old(store.Value()), store.Value(), t, false)
      ensures ok && Reachable(old(sys)) ==> Atomic(store.Value(), t)
      ensures !ok ==> Valid() && sys.mode.Running? && sys.commit == Failed(t)
      ensures store.txns[t].alloc == old(store.txns[t].alloc)
      ensures T.Only(old(store.txns), store.txns, t)
    {
      hide Reachable, Atomic, Leads, OnePinLess;
      ghost var s0 := sys;
      if faults(10) {
        GiveUp(t);
        return false;
      }
      Write(t, None, Some(LogAborted(t)), LogReject);
      ghost var s1 := sys;
      if faults(11) {
        GiveUp(t);
        LeadsOn(s0, s1, sys);
        return false;
      }
      Write(t, Some(store.txns[t].(status := Aborted)), None, StoreRejected);
      LeadsOn(s0, s1, sys);
      ghost var s2 := sys;
      StaysReachable(s0, sys);
      ReleasePin(t);
      LeadsOn(s0, s2, sys);
      ok := true;
    }

    /** Whether some written key's chain ends above the snapshot. */
    method FindConflict(t: string) returns (found: bool)
      requires t in store.txns
      ensures found <==> SnapshotConflict(store.Value(), t)
      ensures found <==> Clash(store.Value(), t)
    {
      ClashIsConflict(store.Value(), t);
      found := false;
      var todo := store.txns[t].writeKeys;
      while todo != {}
        invariant todo <= store.txns[t].writeKeys
        invariant forall k :: k in store.txns[t].writeKeys && k !in todo ==>
                    !Conflicts(ChainOf(store.chains, k), store.txns[t].snapshot)
        decreases |todo|
      {
        var k :| k in todo;
        todo := todo - {k};
        if Conflicts(ChainOf(store.chains, k), store.txns[t].snapshot) {
          return true;
        }
      }
    }

    /** One entry per written key, in whatever order the keys come. */
    method ListBatch(t: string, v: u64) returns (xs: seq<BatchItem>)
      requires t in store.txns
      ensures Lists(xs, Batch(store.Value(), t, v), store.txns[t].snapshot)
    {
      xs := [];
      var row := store.txns[t];
      var todo := row.writeKeys;
      var mine := if t in store.writes then store.writes[t] else map[];
      while todo != {}
        invariant todo <= row.writeKeys && mine == WriteSet(store.Value(), t)
        invariant DistinctKeys(xs)
        invariant forall x :: x in xs ==>
                    x.key in row.writeKeys && x.key !in todo && x == BatchItem(x.key, EntryFor(t, v, x.key, mine), row.snapshot)
        invariant forall k :: k in row.writeKeys && k !in todo ==> BatchItem(k, EntryFor(t, v, k, mine), row.snapshot) in xs
        decreases |todo|
      {
        hide EntryFor;
        var k :| k in todo;
        todo := todo - {k};
        xs := xs + [BatchItem(k, EntryFor(t, v, k, mine), row.snapshot)];
      }
    }

    method Publish(t: string, v: u64) returns (ok: bool)
      requires Valid() && sys.mode.Running? && sys.commit == Intended(t, v) && t in store.txns
      modifies this, store
      ensures Valid() && Leads(old(sys), sys) && sys.mode.Running? && store.txns == old(store.txns)
      ensures sys.commit == if ok then Appended(t, v) else Failed(t)
      ensures store.Value() == old(store.Value()).(chains := store.chains) && (!ok ==> store.chains == old(store.chains))
      ensures old(Steady(store.Value(), t, v)) ==>
                && (ok <==> !old(Clash(store.Value(), t)))
                && (ok ==> ChainsGained(old(store.chains), store.chains, t, v, store.txns[t].writeKeys, WriteSet(store.Value(), t)))
    {
      hide CanAppend, AppendAll, Leads, Steady, Clash, ChainsGained;
      if Steady(store.Value(), t, v) {
        AppendsUnlessClash(store.Value(), t, v);
        if CanAppend(store.chains, Batch(store.Value(), t, v), store.txns[t].snapshot) {
          AppendGains(store.Value(), t, v);
        }
      }
      LeadsStep(sys, Action.Publish);
      var xs := ListBatch(t, v);
      CommitBatch(store.chains, xs, Batch(store.Value(), t, v), store.txns[t].snapshot);
      ok := store.AppendChainEntriesBulk(xs);
      if ok {
        NothingAppended(old(store.Value()), t, v);
      }
      sys := PublishNext(sys);
    }

    /** Records the intent in the log. */
    method LogTheIntent(t: string, v: u64)
      requires Valid() && sys.mode.Running? && sys.commit == Checked(t, v) && t in store.txns
      modifies this, store
      ensures Valid() && Leads(old(sys), sys) && sys.mode.Running? && sys.commit == Logged(t, v)
      ensures store.Value() == old(store.Value()).(wal := old(store.wal) + [LogCommitting(t, old(store.txns[t].writeKeys))])
    {
      LeadsStep(sys, LogIntent);
      var _ := store.Append(LogCommitting(t, store.txns[t].writeKeys));
      sys := LogIntentNext(sys);
    }

    /** Chooses the commit version; a transaction without writes takes its snapshot and advances nothing. */
    method AllocateVersion(t: string) returns (v: u64)
      requires Valid() && sys.mode.Running? && sys.commit == Claimed(t) && t in store.txns && store.globalVersion < U64_MAX
      modifies this, store
      ensures Valid() && Leads(old(sys), sys) && sys.mode.Running? && sys.commit == Allocated(t, v)
      ensures v == if old(store.txns[t].writeKeys) == {} then old(store.txns[t].snapshot) else old(store.globalVersion) + 1
      ensures store.Value() == if old(store.txns[t].writeKeys) == {} then old(store.Value()) else old(store.Value()).(globalVersion := v)
    {
      LeadsStep(sys, Allocate);
      if store.txns[t].writeKeys == {} {
        v := store.txns[t].snapshot;
      } else {
        v := store.NextGlobalVersion();
      }
      sys := AllocateNext(sys);
    }

    /** A dangerous structure was found: abort and tell the lock manager. */
    method RejectCycle(t: string, faults: nat -> bool) returns (p: Phase)
      requires Valid() && sys.mode.Running? && sys.commit == Claimed(t) && t in store.txns
      modifies this, store, locks
      ensures Leads(old(sys), sys) && t in store.txns && !p.Go? && (p.Refused? <==> !faults(10) && !faults(11))
      ensures p.Refused? ==> AtRest() && TurnedDown(old(store.Value()), store.Value(), t, false) && store.txns[t].status == Aborted
      ensures p.Refused? && Reachable(old(sys)) ==> Atomic(store.Value(), t)
      ensures p.Broke? ==> Valid() && sys.mode.Running? && sys.commit == Failed(t)
      ensures locks.State() == if p.Refused? then L.Abort(old(locks.State()), t) else old(locks.State())
      ensures store.txns[t].alloc == old(store.txns[t].alloc)
      ensures T.Only(old(store.txns), store.txns, t)
    {
      hide Reachable, Atomic, Leads, OnePinLess;
      ghost var s0 := sys;
      Write(t, None, None, FindCycle);
      assert store.Value() == old(store.Value());
      ghost var s1 := sys;
      StaysReachable(s0, sys);
      var ok := Reject(t, faults);
      LeadsOn(s0, s1, sys);
      if ok {
        locks.MarkAborted(t);
      }
      p := if ok then Refused else Broke;
    }

    /** Cycle check, version, conflict check. */
    method CheckPhase(t: string, faults: nat -> bool) returns (p: Phase)
      requires Valid() && sys.mode.Running? && sys.commit == Claimed(t) && t in store.txns && store.globalVersion < U64_MAX
      modifies this, store, locks
      ensures Leads(old(sys), sys) && t in store.txns
      ensures p.Go? <==> !faults(0) && !old(L.Dangerous(locks.State(), t)) && !faults(1) && !old(Clash(store.Value(), t))
      ensures p.Refused? <==>
                && !faults(0) && !faults(10) && !faults(11)
                && (old(L.Dangerous(locks.State(), t)) || (!faults(1) && old(Clash(store.Value(), t))))
      ensures p.Go? ==> Valid() && sys.mode.Running? && sys.commit == Checked(t, p.v)
      ensures p.Go? ==> Drew(old(store.Value()), store.Value(), t, p.v)
      ensures p.Refused? ==> AtRest() && store.txns[t].status == Aborted
      ensures p.Refused? ==>
                TurnedDown(old(store.Value()), store.Value(), t, !old(L.Dangerous(locks.State(), t)) && old(store.txns[t].writeKeys) != {})
      ensures p.Refused? && Reachable(old(sys)) ==> Atomic(store.Value(), t)
      ensures p.Broke? ==> Valid() && sys.mode.Running? && sys.commit == Failed(t)
      ensures locks.State() == if p.Refused? && old(L.Dangerous(locks.State(), t)) then L.Abort(old(locks.State()), t) else old(locks.State())
      ensures store.txns[t].alloc == old(store.txns[t].alloc)
      ensures T.Only(old(store.txns), store.txns, t)
    {
      hide Reachable, Atomic, Leads, SnapshotConflict, Clash, TurnedDown, L.Abort, CommitNext, CommitEnabled, EffectOf, T.Only;
      ghost var s0 := sys;
      if faults(0) {
        GiveUp(t);
        return Broke;
      }
      var danger := locks.FindDangerousStructure(t);
      if danger.Some? {
        p := RejectCycle(t, faults);
        return;
      }
      var v := AllocateVersion(t);
      SameClash(old(store.Value()), store.Value(), t);
      ghost var s2, mid := sys, store.Value();
      StaysReachable(s0, sys);
      p := CheckConflicts(t, v, faults);
      LeadsOn(s0, s2, sys);
      if p.Refused? {
        TurnedDownFrom(old(store.Value()), mid, store.Value(), t, v);
      }
    }

    method CheckConflicts(t: string, v: u64, faults: nat -> bool) returns (p: Phase)
      requires Valid() && sys.mode.Running? && sys.commit == Allocated(t, v) && t in store.txns
      modifies this, store
      ensures Leads(old(sys), sys) && t in store.txns
      ensures p.Go? ==> Valid() && sys.mode.Running? && sys.commit == Checked(t, p.v)
      ensures p.Go? <==> !faults(1) && !old(Clash(store.Value(), t))
      ensures p.Refused? <==> !faults(1) && old(Clash(store.Value(), t)) && !faults(10) && !faults(11)
      ensures p.Refused? ==> AtRest() && TurnedDown(old(store.Value()), store.Value(), t, false) && store.txns[t].status == Aborted
      ensures p.Refused? && Reachable(old(sys)) ==> Atomic(store.Value(), t)
      ensures p.Broke? ==> Valid() && sys.mode.Running? && sys.commit == Failed(t)
      ensures p.Go? ==> p.v == v && store.Value() == old(store.Value())
      ensures store.txns[t].alloc == old(store.txns[t].alloc)
      ensures T.Only(old(store.txns), store.txns, t)
    {
      hide Reachable, Atomic, Leads, SnapshotConflict, Clash, OnePinLess;
      ghost var s0 := sys;
      if faults(1) {
        GiveUp(t);
        return Broke;
      }
      var conflict := FindConflict(t);
      Write(t, None, None, CheckChains);
      assert store.Value() == old(store.Value());
      if !conflict {
        return Go(v);
      }
      ghost var s1 := sys;
      StaysReachable(s0, sys);
      var ok := Reject(t, faults);
      LeadsOn(s0, s1, sys);
      p := if ok then Refused else Broke;
    }

    /** Intent, publication. */
    method PublishPhase(t: string, v: u64, faults: nat -> bool) returns (ok: bool)
      requires Valid() && sys.mode.Running? && sys.commit == Checked(t, v) && t in store.txns
      modifies this, store
      ensures Valid() && Leads(old(sys), sys) && sys.mode.Running? && t in store.txns
      ensures sys.commit == if ok then Appended(t, v) else Failed(t)
      ensures ok ==> store.Value() == Intends(old(store.Value()), t, v).(chains := store.chains)
      ensures !ok ==>
                && store.chains == old(store.chains) && store.txns[t].writeKeys == old(store.txns[t].writeKeys)
                && (store.txns[t].alloc == old(store.txns[t].alloc) || store.txns[t].alloc == Uniform(store.txns[t].writeKeys, v))
      ensures old(Steady(store.Value(), t, v)) ==>
                && (ok <==> Works(faults, 2, 5) && !old(Clash(store.Value(), t)))
                && (ok ==> ChainsGained(old(store.chains), store.chains, t, v, old(store.txns[t].writeKeys), old(WriteSet(store.Value(), t))))
      ensures T.Only(old(store.txns), store.txns, t)
    {
      hide Leads, Uniform, Steady, Clash, ChainsGained, Works, CommitNext, CommitEnabled, EffectOf, Intends;
      ghost var s0 := sys;
      WorksThree(faults, 2);
      ok := RecordIntent(t, v, faults);
      if !ok {
        return;
      }
      SameTests(old(store.Value()), store.Value(), t, v);
      ghost var s1 := sys;
      if faults(4) {
        GiveUp(t);
        LeadsOn(s0, s1, sys);
        return false;
      }
      ok := Publish(t, v);
      LeadsOn(s0, s1, sys);
    }

    /** The intent, in the log and then in the row. */
    method RecordIntent(t: string, v: u64, faults: nat -> bool) returns (ok: bool)
      requires Valid() && sys.mode.Running? && sys.commit == Checked(t, v) && t in store.txns
      modifies this, store
      ensures Valid() && Leads(old(sys), sys) && sys.mode.Running? && t in store.txns
      ensures sys.commit == if ok then Intended(t, v) else Failed(t)
      ensures ok <==> !faults(2) && !faults(3)
      ensures if ok then store.Value() == Intends(old(store.Value()), t, v) else store.Value() == old(store.Value()).(wal := store.wal)
      ensures ok ==> store.txns[t] == old(store.txns[t]).(alloc := Uniform(old(store.txns[t].writeKeys), v))
      ensures store.chains == old(store.chains) && store.writes == old(store.writes)
      ensures T.Only(old(store.txns), store.txns, t)
    {
      hide Leads, Uniform, Intends;
      ghost var s0 := sys;
      if faults(2) {
        GiveUp(t);
        return false;
      }
      LogTheIntent(t, v);
      ghost var s1 := sys;
      if faults(3) {
        GiveUp(t);
        LeadsOn(s0, s1, sys);
        return false;
      }
      var row := store.txns[t];
      Write(t, Some(row.(alloc := Uniform(row.writeKeys, v))), None, StoreIntent);
      IntendsSo(old(store.Value()), store.Value(), t, v);
      LeadsOn(s0, s1, sys);
      ok := true;
    }

    /** Terminal log records, terminal row, pin. */
    method FinishPhase(t: string, v: u64, faults: nat -> bool) returns (ok: bool)
      requires Valid() && sys.mode.Running? && sys.commit == Appended(t, v) && t in store.txns
      modifies this, store, locks
      ensures Leads(old(sys), sys) && t in store.txns
      ensures ok <==> Works(faults, 5, 8)
      ensures ok ==> AtRest() && store.Value() == old(store.Value()).(
                       wal := old(store.wal) + [LogCommitted(t, v), LogCommitResult(t, v)],
                       txns := old(store.txns)[t := old(store.txns[t]).(status := Committed)], pins := store.pins)
      ensures ok ==> OnePinLess(old(store.pins), store.pins, old(store.txns[t].snapshot))
      ensures !ok ==> store.txns[t] == old(store.txns[t]) && store.chains == old(store.chains)
      ensures ok && Reachable(old(sys)) ==> Atomic(store.Value(), t)
      ensures !ok ==> Valid() && sys.mode.Running? && sys.commit == Failed(t)
      ensures locks.State() == if ok then L.Commit(old(locks.State()), t, v) else old(locks.State())
      ensures T.Only(old(store.txns), store.txns, t)
    {
      hide Reachable, Atomic, Leads, OnePinLess, Works, CommitNext, CommitEnabled, EffectOf;
      ghost var s0 := sys;
      WorksThree(faults, 5);
      ok := LogOutcome(t, v, faults);
      if !ok {
        return;
      }
      ghost var s1 := sys;
      if faults(7) {
        GiveUp(t);
        LeadsOn(s0, s1, sys);
        return false;
      }
      StaysReachable(s0, sys);
      StoreDone(t, v);
      LeadsOn(s0, s1, sys);
      locks.MarkCommitted(t, v);
    }

    /** The terminal row, and the pin. */
    method StoreDone(t: string, v: u64)
      requires Valid() && sys.mode.Running? && sys.commit == ResultDone(t, v) && t in store.txns
      modifies this, store
      ensures AtRest() && Leads(old(sys), sys) && t in store.txns && (Reachable(old(sys)) ==> Atomic(store.Value(), t))
      ensures store.Value() == old(store.Value()).(txns := old(store.txns)[t := old(store.txns[t]).(status := Committed)], pins := store.pins)
      ensures OnePinLess(old(store.pins), store.pins, old(store.txns[t].snapshot)) && T.Only(old(store.txns), store.txns, t)
    {
      hide Reachable, Atomic, Leads, OnePinLess;
      ghost var s0 := sys;
      Write(t, Some(store.txns[t].(status := Committed)), None, StoreCommitted);
      ghost var s1 := sys;
      StaysReachable(s0, sys);
      ReleasePin(t);
      LeadsOn(s0, s1, sys);
    }

    method LogOutcome(t: string, v: u64, faults: nat -> bool) returns (ok: bool)
      requires Valid() && sys.mode.Running? && sys.commit == Appended(t, v) && t in store.txns
      modifies this, store
      ensures Valid() && Leads(old(sys), sys) && t in store.txns && sys.mode.Running?
      ensures sys.commit == if ok then ResultDone(t, v) else Failed(t)
      ensures ok <==> !faults(5) && !faults(6)
      ensures store.Value() == old(store.Value()).(wal := store.wal)
      ensures ok ==> store.wal == old(store.wal) + [LogCommitted(t, v), LogCommitResult(t, v)]
      ensures T.Only(old(store.txns), store.txns, t)
    {
      hide Leads, CommitNext, CommitEnabled, EffectOf;
      ghost var s0 := sys;
      if faults(5) {
        GiveUp(t);
        return false;
      }
      RecordDone(t, v);
      ghost var s1 := sys;
      if faults(6) {
        GiveUp(t);
        LeadsOn(s0, s1, sys);
        return false;
      }
      RecordResult(t, v);
      LeadsOn(s0, s1, sys);
      ok := true;
    }

    method RecordDone(t: string, v: u64)
      requires Valid() && sys.mode.Running? && sys.commit == Appended(t, v) && t in store.txns
      modifies this, store
      ensures Valid() && Leads(old(sys), sys) && sys.mode.Running? && sys.commit == WalDone(t, v)
      ensures store.Value() == old(store.Value()).(wal := old(store.wal) + [LogCommitted(t, v)])
    {
      hide Leads, T.Only;
      Write(t, None, Some(LogCommitted(t, v)), LogDone);
    }

    method RecordResult(t: string, v: u64)
      requires Valid() && sys.mode.Running? && sys.commit == WalDone(t, v) && t in store.txns
      modifies this, store
      ensures Valid() && Leads(old(sys), sys) && sys.mode.Running? && sys.commit == ResultDone(t, v)
      ensures store.Value() == old(store.Value()).(wal := old(store.wal) + [LogCommitResult(t, v)])
    {
      hide Leads, T.Only;
      Write(t, None, Some(LogCommitResult(t, v)), LogResult);
    }

    /** Whether every allocated key's chain holds this transaction's entry at its version. */
    method FindPublished(t: string) returns (found: bool)
      requires t in store.txns
      ensures found <==> ReconcileFindsPublished(store.Value(), t)
      ensures found ==> store.txns[t].alloc != map[]
    {
      var alloc := store.txns[t].alloc;
      var todo := alloc.Keys;
      while todo != {}
        invariant todo <= alloc.Keys
        invariant forall k :: k in alloc && k !in todo ==> HasEntry(ChainOf(store.chains, k), t, alloc[k])
        decreases |todo|
      {
        var k :| k in todo;
        todo := todo - {k};
        var here := ScanChain(ChainOf(store.chains, k), t, alloc[k]);
        if !here {
          return false;
        }
      }
      found := alloc != map[];
    }

    /** After an error while Committing: adopt what was published, abort what was not. */
    method Reconcile(t: string, logs: bool)
      requires Valid() && sys.mode.Running? && sys.commit == Failed(t) && t in store.txns
      modifies this, store, locks
      ensures AtRest() && Leads(old(sys), sys) && t in store.txns
      ensures store.txns[t].status == if old(ReconcileFindsPublished(store.Value(), t)) then Committed else Aborted
      ensures Reachable(old(sys)) ==> Atomic(store.Value(), t)
      ensures locks.State() == if store.txns[t].status == Committed then L.Commit(old(locks.State()), t, CommitVersionOf(store.txns[t]))
                             else L.Abort(old(locks.State()), t)
      ensures old(store.txns[t].alloc) == map[] ==> store.txns[t].status == Aborted
      ensures T.Only(old(store.txns), store.txns, t)
    {
      hide Reachable, Atomic, Leads, ReconcileFindsPublished;
      ghost var s0 := sys;
      var published := FindPublished(t);
      Write(t, None, None, CommitAction.Reconcile(logs));
      ghost var s1 := sys;
      if published {
        StaysReachable(s0, sys);
        AdoptPublished(t);
      } else {
        StaysReachable(s0, sys);
        AbortUnpublished(t, logs);
      }
      LeadsOn(s0, s1, sys);
    }

    method AdoptPublished(t: string)
      requires Valid() && sys.mode.Running? && sys.commit == FixUp(t) && t in store.txns
      modifies this, store, locks
      ensures AtRest() && Leads(old(sys), sys) && t in store.txns && store.txns[t].status == Committed
      ensures Reachable(old(sys)) ==> Atomic(store.Value(), t)
      ensures locks.State() == L.Commit(old(locks.State()), t, CommitVersionOf(store.txns[t]))
      ensures T.Only(old(store.txns), store.txns, t)
    {
      hide Reachable, Atomic, Leads;
      ghost var s0 := sys;
      var v := ReportedVersion(store.txns[t]);
      Write(t, Some(store.txns[t].(status := Committed)), None, StoreFixed);
      locks.MarkCommitted(t, v);
      ghost var s1 := sys;
      StaysReachable(s0, sys);
      ReleasePin(t);
      LeadsOn(s0, s1, sys);
    }

    method AbortUnpublished(t: string, logs: bool)
      requires Valid() && sys.mode.Running? && t in store.txns
      requires sys.commit == if logs then Rejecting(t) else Rejected(t)
      modifies this, store, locks
      ensures AtRest() && Leads(old(sys), sys) && t in store.txns && store.txns[t].status == Aborted
      ensures Reachable(old(sys)) ==> Atomic(store.Value(), t)
      ensures locks.State() == L.Abort(old(locks.State()), t)
      ensures T.Only(old(store.txns), store.txns, t)
    {
      hide Reachable, Atomic, Leads;
      ghost var s0 := sys;
      LeadsSelf(sys);
      if logs {
        Write(t, None, Some(LogAborted(t)), LogReject);
      }
      ghost var s1 := sys;
      Write(t, Some(store.txns[t].(status := Aborted)), None, StoreRejected);
      LeadsOn(s0, s1, sys);
      locks.MarkAborted(t);
      ghost var s2 := sys;
      StaysReachable(s0, sys);
      ReleasePin(t);
      LeadsOn(s0, s2, sys);
    }

    /** No dangerous structure, and no written key overtaken. */
    ghost predicate Clear(t: string)
      requires t in store.txns
      reads this, store, locks
    {
      !L.Dangerous(locks.State(), t) && !Clash(store.Value(), t)
    }

    /** The transaction id came from a finished begin. */
    ghost predicate KnownActive(t: string)
      reads this, store
    {
      HasStatus(store.Value(), t, Active) ==> t in sys.h.begun
    }

    /**
     Commit, with any of its store calls failing. A finished commit answers with its version again and changes
     nothing; an active one ends terminal, its pin released; success means Committed and reports its version.
     */
    method CommitTxn(t: string, faults: nat -> bool, logs: bool) returns (r: Result<u64>)
      requires AtRest() && KnownActive(t) && store.globalVersion < U64_MAX
      modifies this, store, locks
      ensures AtRest() && Leads(old(sys), sys)
      ensures old(HasStatus(store.Value(), t, Committed)) ==> r == Ok(CommitVersionOf(old(store.txns[t])))
      ensures !old(HasStatus(store.Value(), t, Active)) ==> store.Value() == old(store.Value()) && (r.Ok? ==> old(HasStatus(store.Value(), t, Committed)))
      ensures old(HasStatus(store.Value(), t, Active)) && Reachable(old(sys)) ==>
                && (r.Ok? <==> old(Clear(t)) && Works(faults, 0, 8))
                && (r.Ok? ==> Succeeded(old(store.Value()), store.Value(), t, r.value))
                && (HasStatus(store.Value(), t, Committed) <==>
                      old(Clear(t)) && Works(faults, 0, 5) && (old(store.txns[t].writeKeys) != {} || Works(faults, 5, 8)))
      ensures old(HasStatus(store.Value(), t, Active)) && !old(Clear(t)) && Works(faults, 0, 12) ==>
                && TurnedDown(old(store.Value()), store.Value(), t, !old(L.Dangerous(locks.State(), t)) && old(store.txns[t].writeKeys) != {})
                && locks.State() == if old(L.Dangerous(locks.State(), t)) then L.Abort(old(locks.State()), t) else old(locks.State())
      ensures old(HasStatus(store.Value(), t, Active)) ==> t in store.txns && Terminal(store.txns[t].status)
      ensures old(HasStatus(store.Value(), t, Active)) && Reachable(old(sys)) ==> Atomic(store.Value(), t)
      ensures r.Ok? ==> HasStatus(store.Value(), t, Committed) && r.value == CommitVersionOf(store.txns[t])
      ensures r.Ok? && old(HasStatus(store.Value(), t, Active)) ==>
                !old(L.Dangerous(locks.State(), t)) && locks.State() == L.Commit(old(locks.State()), t, r.value)
      ensures old(HasStatus(store.Value(), t, Active)) && HasStatus(store.Value(), t, Aborted) ==>
                locks.State() == old(locks.State()) || locks.State() == L.Abort(old(locks.State()), t)
      ensures !old(HasStatus(store.Value(), t, Active)) ==> locks.State() == old(locks.State())
      ensures Reachable(old(sys)) && old(Tied()) ==> Tied() && old(run) <= run
    {
      hide Reachable, Atomic, Leads, CommitVersionOf, T.Tied, Clash, Behind, Works, Succeeded, TurnedDown,
           L.Dangerous, L.Commit, L.Abort;
      LeadsSelf(sys);
      if t !in store.txns {
        return Err("unknown transaction");
      }
      if store.txns[t].status == Committed {
        var v := ReportedVersion(store.txns[t]);
        return Ok(v);
      }
      if store.txns[t].status != Active {
        return Err("aborted or already committing");
      }
      ghost var s0, calls := sys, run;
      r := CommitActive(t, faults, logs);
      if Reachable(s0) && old(Tied()) {
        run := T.TieOutcome(calls, old(store.txns), store.txns, old(locks.State()), locks.State(), t, CommitVersionOf(store.txns[t]));
      }
    }

    method CommitActive(t: string, faults: nat -> bool, logs: bool) returns (r: Result<u64>)
      requires AtRest() && KnownActive(t) && HasStatus(store.Value(), t, Active) && store.globalVersion < U64_MAX
      modifies this, store, locks
      ensures AtRest() && Leads(old(sys), sys) && t in store.txns && Terminal(store.txns[t].status)
      ensures Reachable(old(sys)) ==>
                && Atomic(store.Value(), t)
                && (r.Ok? <==> old(Clear(t)) && Works(faults, 0, 8))
                && (r.Ok? ==> Succeeded(old(store.Value()), store.Value(), t, r.value))
                && (store.txns[t].status == Committed <==>
                      old(Clear(t)) && Works(faults, 0, 5) && (old(store.txns[t].writeKeys) != {} || Works(faults, 5, 8)))
      ensures !old(Clear(t)) && Works(faults, 0, 12) ==>
                && TurnedDown(old(store.Value()), store.Value(), t, !old(L.Dangerous(locks.State(), t)) && old(store.txns[t].writeKeys) != {})
                && locks.State() == if old(L.Dangerous(locks.State(), t)) then L.Abort(old(locks.State()), t) else old(locks.State())
      ensures r.Ok? ==> store.txns[t].status == Committed && r.value == CommitVersionOf(store.txns[t])
      ensures r.Ok? ==> !old(L.Dangerous(locks.State(), t)) && locks.State() == L.Commit(old(locks.State()), t, r.value)
      ensures store.txns[t].status == Aborted ==> locks.State() == old(locks.State()) || locks.State() == L.Abort(old(locks.State()), t)
      ensures store.txns[t].status == Committed ==> locks.State() == L.Commit(old(locks.State()), t, CommitVersionOf(store.txns[t]))
      ensures store.txns[t].status == Committed && Reachable(old(sys)) ==> !old(L.Dangerous(locks.State(), t))
      ensures T.Only(old(store.txns), store.txns, t)
    {
      hide Reachable, Atomic, Leads, CommitVersionOf, Clash, Behind, Works, Succeeded, TurnedDown, L.Dangerous, L.Commit, L.Abort;
      ghost var s0 := sys;
      Write(t, Some(store.txns[t].(status := Committing)), None, Claim(t));
      SameClash(old(store.Value()), store.Value(), t);
      if Reachable(s0) {
        ReachableIsBehind(s0);
        ActiveIsUnallocated(s0, t);
      }
      ghost var s1, claimed := sys, store.Value();
      StaysReachable(s0, sys);
      r := CommitClaimed(t, faults, logs);
      LeadsOn(s0, s1, sys);
      ClaimAside(old(store.Value()), claimed, store.Value(), t, if r.Ok? then r.value else 0,
                 !old(L.Dangerous(locks.State(), t)) && old(store.txns[t].writeKeys) != {});
    }

    method CommitClaimed(t: string, faults: nat -> bool, logs: bool) returns (r: Result<u64>)
      requires Valid() && sys.mode.Running? && sys.commit == Claimed(t) && t in store.txns && store.globalVersion < U64_MAX
      modifies this, store, locks
      ensures AtRest() && Leads(old(sys), sys) && t in store.txns && Terminal(store.txns[t].status)
      ensures Reachable(old(sys)) ==> Atomic(store.Value(), t)
      ensures Behind(old(store.chains), old(store.globalVersion) + 1) ==>
                && (r.Ok? <==> old(Clear(t)) && Works(faults, 0, 8))
                && (r.Ok? ==> Succeeded(old(store.Value()), store.Value(), t, r.value))
                && (old(store.txns[t].alloc) == map[] ==>
                      (store.txns[t].status == Committed <==>
                         old(Clear(t)) && Works(faults, 0, 5) && (old(store.txns[t].writeKeys) != {} || Works(faults, 5, 8))))
      ensures !old(Clear(t)) && Works(faults, 0, 12) ==>
                TurnedDown(old(store.Value()), store.Value(), t, !old(L.Dangerous(locks.State(), t)) && old(store.txns[t].writeKeys) != {})
      ensures !old(Clear(t)) && Works(faults, 0, 12) ==>
                locks.State() == if old(L.Dangerous(locks.State(), t)) then L.Abort(old(locks.State()), t) else old(locks.State())
      ensures r.Ok? ==> store.txns[t].status == Committed && r.value == CommitVersionOf(store.txns[t])
      ensures r.Ok? ==> !old(L.Dangerous(locks.State(), t)) && locks.State() == L.Commit(old(locks.State()), t, r.value)
      ensures store.txns[t].status == Aborted ==> locks.State() == old(locks.State()) || locks.State() == L.Abort(old(locks.State()), t)
      ensures store.txns[t].status == Committed ==> locks.State() == L.Commit(old(locks.State()), t, CommitVersionOf(store.txns[t]))
      ensures store.txns[t].status == Committed && old(store.txns[t].alloc) == map[] ==> !old(L.Dangerous(locks.State(), t))
      ensures T.Only(old(store.txns), store.txns, t)
    {
      hide Reachable, Atomic, Leads, CommitVersionOf, Uniform, Behind, Clash, ReconcileFindsPublished, Works, Finished, Succeeded, TurnedDown,
           L.Dangerous, L.Commit, L.Abort;
      ghost var s0 := sys;
      WorksSo(faults);
      var p := CheckPhase(t, faults);
      if p.Refused? {
        return Err("conflict");
      }
      ghost var s1, mid := sys, store.Value();
      StaysReachable(s0, sys);
      if p.Go? {
        SameClash(old(store.Value()), mid, t);
        r := CommitChecked(t, p.v, faults, logs);
        LeadsOn(s0, s1, sys);
        if r.Ok? && Behind(old(store.chains), old(store.globalVersion) + 1) {
          SucceededFrom(old(store.Value()), mid, store.Value(), t, p.v);
        }
      } else {
        Reconcile(t, logs);
        LeadsOn(s0, s1, sys);
        r := Err("failed");
      }
    }

    method CommitChecked(t: string, v: u64, faults: nat -> bool, logs: bool) returns (r: Result<u64>)
      requires Valid() && sys.mode.Running? && sys.commit == Checked(t, v) && t in store.txns
      requires store.txns[t].writeKeys == {} ==> v == store.txns[t].snapshot
      modifies this, store, locks
      ensures AtRest() && Leads(old(sys), sys) && t in store.txns && Terminal(store.txns[t].status)
      ensures Reachable(old(sys)) ==> Atomic(store.Value(), t)
      ensures old(Steady(store.Value(), t, v)) ==>
                && (r.Ok? <==> !old(Clash(store.Value(), t)) && Works(faults, 2, 8))
                && (r.Ok? ==> Finished(old(store.Value()), store.Value(), t, v))
                && (old(store.txns[t].alloc) == map[] ==>
                      (store.txns[t].status == Committed <==>
                         !old(Clash(store.Value(), t)) && Works(faults, 2, 5) && (old(store.txns[t].writeKeys) != {} || Works(faults, 5, 8))))
      ensures r.Ok? ==> r.value == v == CommitVersionOf(store.txns[t]) && store.txns[t].status == Committed
      ensures locks.State() == if store.txns[t].status == Committed then L.Commit(old(locks.State()), t, CommitVersionOf(store.txns[t]))
                               else L.Abort(old(locks.State()), t)
      ensures T.Only(old(store.txns), store.txns, t)
    {
      hide Reachable, Atomic, Leads, CommitVersionOf, Uniform, Steady, Clash, ReconcileFindsPublished, Works, Finished, L.Commit, L.Abort;
      ghost var s0 := sys;
      WorksOn(faults, 2, 5, 8);
      var done := PublishAndFinish(t, v, faults);
      if done {
        ReportsItsVersion(store.txns[t], v);
        return Ok(v);
      }
      ghost var s1 := sys;
      StaysReachable(s0, sys);
      Reconcile(t, logs);
      LeadsOn(s0, s1, sys);
      r := Err("failed");
    }

    method PublishAndFinish(t: string, v: u64, faults: nat -> bool) returns (done: bool)
      requires Valid() && sys.mode.Running? && sys.commit == Checked(t, v) && t in store.txns
      modifies this, store, locks
      ensures Leads(old(sys), sys) && t in store.txns
      ensures done ==> AtRest() && store.txns[t] == old(store.txns[t]).(status := Committed, alloc := Uniform(old(store.txns[t].writeKeys), v))
      ensures old(Steady(store.Value(), t, v)) ==>
                && (done <==> !old(Clash(store.Value(), t)) && Works(faults, 2, 8))
                && (done ==> Finished(old(store.Value()), store.Value(), t, v))
                && (!done && old(store.txns[t].alloc) == map[] ==>
                      (ReconcileFindsPublished(store.Value(), t) <==>
                         !old(Clash(store.Value(), t)) && Works(faults, 2, 5) && old(store.txns[t].writeKeys) != {}))
      ensures done && Reachable(old(sys)) ==> Atomic(store.Value(), t)
      ensures !done ==> Valid() && sys.mode.Running? && sys.commit == Failed(t)
      ensures locks.State() == if done then L.Commit(old(locks.State()), t, v) else old(locks.State())
      ensures T.Only(old(store.txns), store.txns, t)
    {
      hide Reachable, Atomic, Leads, Steady, Clash, OnePinLess, ChainsGained, ReconcileFindsPublished, Works, Finished;
      ghost var s0 := sys;
      WorksOn(faults, 2, 5, 8);
      done := PublishPhase(t, v, faults);
      if !done {
        if old(Steady(store.Value(), t, v)) && old(store.txns[t].alloc) == map[] {
          SameTests(old(store.Value()), store.Value(), t, v);
          FindsNothing(store.Value(), t, v);
        }
        return;
      }
      ghost var s1, mid := sys, store.Value();
      StaysReachable(s0, sys);
      done := FinishPhase(t, v, faults);
      LeadsOn(s0, s1, sys);
      if old(Steady(store.Value(), t, v)) {
        if done {
          FinishedFrom(old(store.Value()), mid, store.Value(), t, v);
        } else {
          FindsWhatWasGained(old(store.chains), store.Value(), t, v, old(WriteSet(store.Value(), t)));
        }
      }
    }

    // ---------- Abort and begin ----------

    /** Explicit abort of an active transaction; anything else is refused or already done. */
    method AbortTxn(t: string) returns (ok: bool)
      requires AtRest() && KnownActive(t)
      modifies this, store, locks
      ensures AtRest() && Leads(old(sys), sys)
      ensures ok <==> old(HasStatus(store.Value(), t, Active) || HasStatus(store.Value(), t, Aborted))
      ensures ok ==> HasStatus(store.Value(), t, Aborted)
      ensures !old(HasStatus(store.Value(), t, Active)) ==> store.Value() == old(store.Value())
      ensures old(HasStatus(store.Value(), t, Active)) ==> Undone(old(store.Value()), store.Value(), t)
      ensures locks.State() == if old(HasStatus(store.Value(), t, Active)) then L.Abort(old(locks.State()), t) else old(locks.State())
      ensures old(Tied()) ==> Tied() && old(run) <= run
    {
      hide Leads, T.Tied, L.Abort, Undone;
      LeadsSelf(sys);
      if t !in store.txns || store.txns[t].status == Committed || store.txns[t].status == Committing {
        return false;
      }
      if store.txns[t].status == Aborted {
        return true;
      }
      ghost var calls := run;
      AbortActive(t);
      locks.MarkAborted(t);
      run := calls + [H.Call(H.DidAbort(t))];
      if old(Tied()) {
        T.TieAbort(calls, old(store.txns), store.txns, old(locks.State()), t);
      }
      ok := true;
    }

    method AbortActive(t: string)
      requires AtRest() && KnownActive(t) && HasStatus(store.Value(), t, Active)
      modifies this, store
      ensures AtRest() && Leads(old(sys), sys)
      ensures T.Only(old(store.txns), store.txns, t) && store.txns[t].status == Aborted
      ensures Undone(old(store.Value()), store.Value(), t)
    {
      hide Leads, OnePinLess, Undone, CommitNext;
      ghost var s0 := sys;
      ClaimAbort(t);
      ghost var s1 := sys;
      Write(t, None, Some(LogAborted(t)), AbortLog);
      LeadsOn(s0, s1, sys);
      AfterAbortLog(s1);
      ghost var s2 := sys;
      ReleasePin(t);
      LeadsOn(s0, s2, sys);
      UndoneSo(old(store.Value()), store.Value(), t);
    }

    method ClaimAbort(t: string)
      requires AtRest() && KnownActive(t) && HasStatus(store.Value(), t, Active)
      modifies this, store
      ensures Valid() && Leads(old(sys), sys) && sys.mode.Running? && sys.commit == AbortLogging(t)
      ensures store.Value() == old(store.Value()).(writes := old(store.writes) - {t}, txns := old(store.txns)[t := old(store.txns[t]).(status := Aborted)])
      ensures T.Only(old(store.txns), store.txns, t)
    {
      hide Leads;
      ghost var s0 := sys;
      Write(t, Some(store.txns[t].(status := Aborted)), None, AbortClaim(t));
      ghost var s1 := sys;
      DropStaged(t);
      LeadsOn(s0, s1, sys);
    }

    method DropStaged(t: string)
      requires Valid() && AbortCleanEnabled(sys) && sys.commit.t == t
      modifies this, store
      ensures Valid() && Leads(old(sys), sys) && sys.mode.Running? && sys.commit == AbortLogging(t)
      ensures store.Value() == old(store.Value()).(writes := old(store.writes) - {t})
    {
      LeadsStep(sys, AbortClean);
      store.DeleteWrites(t);
      sys := AbortCleanNext(sys);
    }

    /** Begin: pin, row, lock manager, log. */
    method BeginTxn(t: string, now: int)
      requires AtRest() && t !in store.txns && t !in sys.begins && t !in locks.byTxn && Unused(sys.h.log, t)
      modifies this, store, locks
      ensures AtRest() && Leads(old(sys), sys)
      ensures store.txns == old(store.txns)[t := TxnState(Active, old(store.globalVersion), now, {}, map[])]
      ensures store.wal == old(store.wal) + [LogBegin(t, old(store.globalVersion))]
      ensures store.Value() == old(store.Value()).(txns := store.txns, wal := store.wal, pins := store.pins)
      ensures PinCount(store.pins, old(store.globalVersion)) == PinCount(old(store.pins), old(store.globalVersion)) + 1
      ensures forall p :: p != old(store.globalVersion) ==> PinCount(store.pins, p) == PinCount(old(store.pins), p)
      ensures t in sys.h.begun
      ensures locks.State() == L.Begin(old(locks.State()), t, old(store.globalVersion))
      ensures old(Tied()) ==> Tied() && old(run) <= run
    {
      hide Leads, T.Tied, L.Begin;
      ghost var s0, calls := sys, run;
      var s := CapturePin(t);
      hide Unused;
      BeginRest(t, s, now, s0);
      run := calls + [H.Call(H.Began(t, s))];
      if old(Tied()) {
        T.TieBegin(calls, old(store.txns), store.txns, old(locks.State()), t, s);
      }
    }

    /** The version counter read and pinned in one step. */
    method CapturePin(t: string) returns (s: u64)
      requires AtRest() && t !in store.txns && t !in sys.begins
      modifies this, store
      ensures AtRest() && Leads(old(sys), sys) && t in sys.begins && sys.begins[t] == Captured(s) && sys.h.log == old(sys.h.log)
      ensures s == old(store.globalVersion) && store.Value() == old(store.Value()).(pins := store.pins)
      ensures PinCount(store.pins, s) == PinCount(old(store.pins), s) + 1
      ensures forall p :: p != s ==> PinCount(store.pins, p) == PinCount(old(store.pins), p)
    {
      hide Leads;
      LeadsStep(sys, Client(BeginCapture(t)));
      s := store.CaptureAndRegister();
      sys := ClientNext(sys, BeginCapture(t));
    }

    method BeginRest(t: string, s: u64, now: int, ghost s0: Sys)
      requires AtRest() && Leads(s0, sys) && t in sys.begins && sys.begins[t] == Captured(s) && Unused(sys.h.log, t)
      modifies this, store, locks
      ensures AtRest() && Leads(s0, sys) && t in sys.h.begun
      ensures store.Value() == old(store.Value()).(txns := old(store.txns)[t := TxnState(Active, s, now, {}, map[])],
                                                   wal := old(store.wal) + [LogBegin(t, s)])
      ensures locks.State() == L.Begin(old(locks.State()), t, s)
    {
      hide Leads;
      ghost var s1 := sys;
      LeadsStep(sys, Client(BeginStore(t, now)));
      store.PutTxnState(t, TxnState(Active, s, now, {}, map[]));
      sys := ClientNext(sys, BeginStore(t, now));
      LeadsOn(s0, s1, sys);
      ghost var s2 := sys;
      var _ := locks.BeginTxn(t, s);
      LeadsStep(sys, Client(BeginLog(t)));
      var _ := store.Append(LogBegin(t, s));
      sys := ClientNext(sys, BeginLog(t));
      LeadsOn(s0, s2, sys);
    }

    // ---------- Staging and reading ----------

    /** The durable part of staging, one machine step. */
    method StoreWrite(t: string, k: string, w: StagedWrite)
      requires AtRest() && KnownActive(t) && HasStatus(store.Value(), t, Active)
      modifies this, store
      ensures AtRest() && Leads(old(sys), sys) && run == old(run)
      ensures store.txns == old(store.txns)[t := old(store.txns[t]).(writeKeys := old(store.txns[t].writeKeys) + {k})]
      ensures WriteSet(store.Value(), t) == old(WriteSet(store.Value(), t))[k := w]
      ensures forall u :: u != t ==> WriteSet(store.Value(), u) == old(WriteSet(store.Value(), u))
      ensures store.wal == old(store.wal) + [LogStage(t, k)]
      ensures store.Value() == old(store.Value()).(txns := store.txns, wal := store.wal, writes := store.writes)
    {
      LeadsStep(sys, Client(Stage(t, k, w)));
      StagedIs(sys, t, k, w);
      hide Leads, ClientNext, ClientEnabled;
      var row := store.txns[t];
      var _ := store.Append(LogStage(t, k));
      store.PutWriteEntry(t, k, w);
      if k !in row.writeKeys {
        store.PutTxnState(t, row.(writeKeys := row.writeKeys + {k}));
      }
      sys := ClientNext(sys, Stage(t, k, w));
      assert row.writeKeys + {k} == store.txns[t].writeKeys;
      assert store.txns == sys.st.txns;
    }

    /** Stages one write: log record, write set, key list, write lock. Refused unless the transaction is active. */
    method StageWrite(t: string, k: string, w: StagedWrite) returns (ok: bool)
      requires AtRest() && KnownActive(t)
      modifies this, store, locks
      ensures AtRest() && Leads(old(sys), sys)
      ensures ok <==> old(HasStatus(store.Value(), t, Active))
      ensures !ok ==> store.Value() == old(store.Value()) && locks.State() == old(locks.State())
      ensures ok ==> store.txns == old(store.txns)[t := old(store.txns[t]).(writeKeys := old(store.txns[t].writeKeys) + {k})]
      ensures ok ==> WriteSet(store.Value(), t) == old(WriteSet(store.Value(), t))[k := w]
      ensures ok ==> forall u :: u != t ==> WriteSet(store.Value(), u) == old(WriteSet(store.Value(), u))
      ensures ok ==> store.wal == old(store.wal) + [LogStage(t, k)]
      ensures ok ==> store.Value() == old(store.Value()).(txns := store.txns, wal := store.wal, writes := store.writes)
      ensures ok && old(store.txns[t].snapshot) < U64_MAX ==>
                locks.State() == L.AddWrite(old(locks.State()), t, k, old(store.txns[t].snapshot) + 1)
      ensures ok && old(store.txns[t].snapshot) == U64_MAX ==> locks.State() == L.AddWrite(old(locks.State()), t, k, U64_MAX)
      ensures old(Tied()) ==> Tied() && old(run) <= run
    {
      hide T.Tied, Leads, L.AddWrite, WriteSet;
      LeadsSelf(sys);
      if t !in store.txns || store.txns[t].status != Active {
        return false;
      }
      var v := NextOf(store.txns[t].snapshot);
      StoreWrite(t, k, w);
      locks.RegisterWrite(t, k, v);
      if old(Tied()) {
        T.TieWrite(run, old(store.txns), store.txns, old(locks.State()), t, k, v);
      }
      run := run + [H.Call(H.DidWrite(t, k, v))];
      ok := true;
    }

    /** Registers one read with the lock manager. Refused unless the transaction is active. */
    method ReadKey(t: string, k: string, observed: u64) returns (ok: bool)
      requires AtRest()
      modifies this, locks
      ensures AtRest() && sys == old(sys) && (ok <==> HasStatus(store.Value(), t, Active))
      ensures locks.State() == if ok then L.AddRead(old(locks.State()), t, k, observed) else old(locks.State())
      ensures old(Tied()) ==> Tied() && old(run) <= run
    {
      hide T.Tied;
      if t !in store.txns || store.txns[t].status != Active {
        return false;
      }
      locks.RegisterRead(t, k, observed);
      if old(Tied()) {
        T.TieRead(run, store.txns, old(locks.State()), t, k, observed);
      }
      run := run + [H.Call(H.DidRead(t, k, observed))];
      ok := true;
    }

    /** Refreshes the heartbeat. Refused unless the transaction is active. */
    method Heartbeat(t: string, now: int) returns (ok: bool)
      requires AtRest() && KnownActive(t)
      modifies this, store
      ensures AtRest() && Leads(old(sys), sys) && (ok <==> old(HasStatus(store.Value(), t, Active)))
      ensures !ok ==> store.Value() == old(store.Value())
      ensures ok ==> store.Value() == old(store.Value()).(txns := old(store.txns)[t := old(store.txns[t]).(heartbeat := now)])
      ensures run == old(run) && (old(Tied()) ==> Tied())
    {
      hide T.Tied, Leads;
      LeadsSelf(sys);
      if t !in store.txns || store.txns[t].status != Active {
        return false;
      }
      LeadsStep(sys, Client(ClientAction.Heartbeat(t, now)));
      store.PutTxnState(t, store.txns[t].(heartbeat := now));
      sys := ClientNext(sys, ClientAction.Heartbeat(t, now));
      if old(Tied()) {
        T.TieDrop(run, old(store.txns), store.txns, locks.State());
      }
      ok := true;
    }

    // ---------- The stale sweep ----------

    /** Aborts one stale transaction if it is still active. */
    method SweepTxn(t: string) returns (swept: bool)
      requires AtRest() && sys.sweeps == map[]
      modifies this, store
      ensures run == old(run)
      ensures AtRest() && Leads(old(sys), sys) && sys.sweeps == map[]
      ensures swept <==> old(HasStatus(store.Value(), t, Active))
      ensures swept ==> Undone(old(store.Value()), store.Value(), t)
      ensures swept ==> store.txns == old(store.txns)[t := old(store.txns[t]).(status := Aborted)]
      ensures !swept ==> store.Value() == old(store.Value())
    {
      hide Leads;
      LeadsSelf(sys);
      swept := store.CompareAndSetStatus(t, Active, Aborted);
      if !swept {
        return;
      }
      hide OnePinLess, Undone;
      ghost var s0 := sys;
      LeadsStep(sys, Background(SweepClaim(t)));
      sys := BackgroundNext(sys, SweepClaim(t));
      SweepRest(t, s0);
      UndoneSo(old(store.Value()), store.Value(), t);
    }

    method SweepRest(t: string, ghost s0: Sys)
      requires AtRest() && Leads(s0, sys) && sys.sweeps == map[t := Cleaning] && t in store.txns
      modifies this, store
      ensures run == old(run)
      ensures AtRest() && Leads(s0, sys) && sys.sweeps == map[]
      ensures store.Value() == old(store.Value()).(writes := old(store.writes) - {t}, wal := old(store.wal) + [LogAborted(t)], pins := store.pins)
      ensures OnePinLess(old(store.pins), store.pins, store.txns[t].snapshot)
    {
      hide Leads, OnePinLess;
      ghost var s1 := sys;
      SweepWrites(t);
      LeadsOn(s0, s1, sys);
      ghost var s2 := sys;
      SweepRecord(t);
      LeadsOn(s0, s2, sys);
      ghost var s3 := sys;
      SweepPin(t);
      LeadsOn(s0, s3, sys);
    }

    method SweepWrites(t: string)
      requires AtRest() && sys.sweeps == map[t := Cleaning] && t in store.txns
      modifies this, store
      ensures run == old(run)
      ensures AtRest() && Leads(old(sys), sys) && sys.sweeps == map[t := Logging]
      ensures store.Value() == old(store.Value()).(writes := old(store.writes) - {t})
    {
      hide Leads;
      LeadsStep(sys, Background(SweepClean(t)));
      store.DeleteWrites(t);
      sys := BackgroundNext(sys, SweepClean(t));
    }

    method SweepRecord(t: string)
      requires AtRest() && sys.sweeps == map[t := Logging] && t in store.txns
      modifies this, store
      ensures run == old(run)
      ensures AtRest() && Leads(old(sys), sys) && sys.sweeps == map[t := Releasing]
      ensures store.Value() == old(store.Value()).(wal := old(store.wal) + [LogAborted(t)])
    {
      hide Leads;
      LeadsStep(sys, Background(SweepLog(t)));
      var _ := store.Append(LogAborted(t));
      sys := BackgroundNext(sys, SweepLog(t));
    }

    method SweepPin(t: string)
      requires AtRest() && sys.sweeps == map[t := Releasing] && t in store.txns
      modifies this, store
      ensures run == old(run)
      ensures AtRest() && Leads(old(sys), sys) && sys.sweeps == map[]
      ensures store.Value() == old(store.Value()).(pins := store.pins)
      ensures OnePinLess(old(store.pins), store.pins, store.txns[t].snapshot)
    {
      hide Leads;
      UnpinIsLess(store.pins, store.txns[t].snapshot);
      LeadsStep(sys, Background(SweepRelease(t)));
      store.Unregister(store.txns[t].snapshot);
      sys := BackgroundNext(sys, SweepRelease(t));
    }

    predicate Stale(t: string, cutoff: int)
      reads store
    {
      t in store.txns && store.txns[t].status == Active && store.txns[t].heartbeat < cutoff
    }

    /** One sweep: exactly the active transactions whose heartbeat is too old are aborted. */
    method SweepStale(cutoff: int) returns (aborted: nat)
      requires AtRest() && sys.sweeps == map[]
      modifies this, store
      ensures AtRest() && Leads(old(sys), sys)
      ensures Swept(old(store.Value()), store.Value(), set t | t in old(store.txns) && old(Stale(t, cutoff)))
      ensures aborted == |set t | t in old(store.txns) && old(Stale(t, cutoff))|
      ensures run == old(run) && (old(Tied()) ==> Tied())
    {
      hide Leads, T.Tied, Swept;
      var stale := set t | t in store.txns && store.txns[t].status == Active && store.txns[t].heartbeat < cutoff;
      assert stale == set t | t in store.txns && Stale(t, cutoff);
      aborted := SweepAll(stale);
      if old(Tied()) {
        SweptStatuses(old(store.Value()), store.Value(), stale);
        T.TieDrop(run, old(store.txns), store.txns, locks.State());
      }
    }

    method SweepAll(stale: set<string>) returns (aborted: nat)
      requires AtRest() && sys.sweeps == map[] && forall t :: t in stale ==> HasStatus(store.Value(), t, Active)
      modifies this, store
      ensures AtRest() && Leads(old(sys), sys) && sys.sweeps == map[] && run == old(run)
      ensures Swept(old(store.Value()), store.Value(), stale) && aborted == |stale|
    {
      hide Leads, Swept, Undone;
      LeadsSelf(sys);
      ghost var was := store.Value();
      var todo := stale;
      aborted := 0;
      SweptNone(was);
      assert stale - todo == {};
      while todo != {}
        invariant todo <= stale && AtRest() && Leads(old(sys), sys) && sys.sweeps == map[] && run == old(run)
        invariant Swept(was, store.Value(), stale - todo) && aborted + |todo| == |stale|
        decreases |todo|
      {
        var t :| t in todo;
        ghost var s1, mid := sys, store.Value();
        SweptRow(was, mid, stale - todo, t);
        var swept := SweepTxn(t);
        LeadsOn(old(sys), s1, sys);
        OneMoreSwept(was, mid, store.Value(), stale - todo, t);
        assert stale - (todo - {t}) == stale - todo + {t};
        todo := todo - {t};
        if swept {
          aborted := aborted + 1;
        }
      }
      assert stale - todo == stale;
    }

    /** Chain GC at the smallest registered snapshot. */
    method GcVersionChains() returns (visited: nat, removed: nat, m: u64)
      requires AtRest()
      modifies this, store, store.records
      ensures AtRest() && Leads(old(sys), sys) && IsMinPin(store.pins, m)
      ensures store.chains == PruneAll(old(store.chains), m) && visited == |old(store.chains)|
      ensures EntryCount(store.chains) + removed == EntryCount(old(store.chains))
      ensures store.chains.Keys == old(store.chains).Keys && forall k :: k in store.chains ==> store.chains[k] == Pruned(old(store.chains)[k], m)
      ensures run == old(run) && store.txns == old(store.txns)
    {
      visited, removed, m := store.GcChains(None);
      LeadsStep(sys, Background(Gc(m)));
      sys := BackgroundNext(sys, Gc(m));
    }

    // ---------- Recovery ----------

    /** Recovery's chain test over the allocated and logged keys. */
    method FindLatest(t: string, uploaded: set<string>) returns (published: bool)
      requires t in store.txns
      ensures published <==>
                && (exists k :: k in store.txns[t].alloc && k in uploaded)
                && (forall k :: k in store.txns[t].alloc && k in uploaded ==>
                      Latest(ChainOf(store.chains, k)) == store.txns[t].alloc[k])
    {
      var alloc := store.txns[t].alloc;
      var count, pending := 0, false;
      var todo := alloc.Keys;
      while todo != {}
        invariant todo <= alloc.Keys
        invariant pending <==> exists k :: k in alloc && k !in todo && k in uploaded && Latest(ChainOf(store.chains, k)) != alloc[k]
        invariant count > 0 || pending <==> exists k :: k in alloc && k !in todo && k in uploaded
        decreases |todo|
      {
        var k :| k in todo;
        todo := todo - {k};
        if k in uploaded {
          if Latest(ChainOf(store.chains, k)) == alloc[k] {
            count := count + 1;
          } else {
            pending := true;
          }
        }
      }
      published := !pending && count > 0;
    }

    /** Recovery stands at the given point with the transaction. */
    ghost predicate Undoing(t: string, pc: RecoveryPc)
      reads this, store
    {
      Valid() && sys.mode.Recovering? && sys.mode.pc == pc && t in store.txns
    }

    method UndoTxn(t: string)
      requires Undoing(t, UndoClean(t))
      modifies this, store
      ensures Undoing(t, Choose) && Leads(old(sys), sys)
      ensures sys.mode.todo == old(sys.mode.todo) && sys.h == old(sys.h) && sys.commit == old(sys.commit)
      ensures OthersSame(old(store.Value()), store.Value(), t) && Undone(old(store.Value()), store.Value(), t)
    {
      hide Leads, LastStatus, LastKeys, OnePinLess, Undone, About;
      ghost var s0 := sys;
      LeadsStep(sys, Action.Recover(Proceed));
      store.DeleteWrites(t);
      sys := RecoverNext(sys, Proceed);
      ghost var s1 := sys;
      LeadsStep(sys, Action.Recover(Proceed));
      AppendSpares(store.Value(), LogAborted(t), t);
      var _ := store.Append(LogAborted(t));
      sys := RecoverNext(sys, Proceed);
      LeadsOn(s0, s1, sys);
      ghost var s2 := sys;
      UndoRest(t);
      LeadsOn(s0, s2, sys);
      UndoneSo(old(store.Value()), store.Value(), t);
    }

    method UndoRest(t: string)
      requires Undoing(t, UndoUnpin(t))
      modifies this, store
      ensures Undoing(t, Choose) && Leads(old(sys), sys)
      ensures sys.mode.todo == old(sys.mode.todo) && sys.h == old(sys.h) && sys.commit == old(sys.commit)
      ensures store.Value() == old(store.Value()).(txns := old(store.txns)[t := old(store.txns[t]).(status := Aborted)], pins := store.pins)
      ensures OnePinLess(old(store.pins), store.pins, old(store.txns[t].snapshot))
    {
      hide Leads;
      ghost var s0 := sys;
      UnpinIsLess(store.pins, store.txns[t].snapshot);
      LeadsStep(sys, Action.Recover(Proceed));
      store.Unregister(store.txns[t].snapshot);
      sys := RecoverNext(sys, Proceed);
      ghost var s1 := sys;
      LeadsStep(sys, Action.Recover(Proceed));
      store.PutTxnState(t, store.txns[t].(status := Aborted));
      sys := RecoverNext(sys, Proceed);
      LeadsOn(s0, s1, sys);
    }

    method AdoptTxn(t: string)
      requires Undoing(t, AdoptLog(t))
      modifies this, store
      ensures Undoing(t, Choose) && Leads(old(sys), sys)
      ensures sys.mode.todo == old(sys.mode.todo) && sys.h == old(sys.h) && sys.commit == old(sys.commit)
      ensures OthersSame(old(store.Value()), store.Value(), t)
      ensures Adopted(old(store.Value()), store.Value(), t, CommitVersionOf(old(store.txns[t])))
    {
      hide Leads, LastStatus, LastKeys, CommitVersionOf, RecoverNext, OthersSame;
      ghost var s0, was := sys, store.Value();
      var v := ReportedVersion(store.txns[t]);
      AdoptRecord(t, v);
      ghost var s1, one := sys, store.Value();
      AdoptResultRecord(t, v);
      LeadsOn(s0, s1, sys);
      ghost var s2, two := sys, store.Value();
      StoreAdopted(t);
      LeadsOn(s0, s2, sys);
      OthersStaySame(was, one, two, store.Value(), t);
    }

    method AdoptRecord(t: string, v: u64)
      requires Undoing(t, AdoptLog(t)) && v == CommitVersionOf(store.txns[t])
      modifies this, store
      ensures Undoing(t, AdoptResult(t)) && Leads(old(sys), sys)
      ensures sys.mode.todo == old(sys.mode.todo) && sys.h == old(sys.h) && sys.commit == old(sys.commit)
      ensures store.Value() == old(store.Value()).(wal := old(store.wal) + [LogCommitted(t, v)])
      ensures OthersSame(old(store.Value()), store.Value(), t)
    {
      hide Leads, LastStatus, LastKeys, CommitVersionOf;
      LeadsStep(sys, Action.Recover(Proceed));
      AppendSpares(store.Value(), LogCommitted(t, v), t);
      var _ := store.Append(LogCommitted(t, v));
      sys := RecoverNext(sys, Proceed);
    }

    method AdoptResultRecord(t: string, v: u64)
      requires Undoing(t, AdoptResult(t)) && v == CommitVersionOf(store.txns[t])
      modifies this, store
      ensures Undoing(t, AdoptStore(t)) && Leads(old(sys), sys)
      ensures sys.mode.todo == old(sys.mode.todo) && sys.h == old(sys.h) && sys.commit == old(sys.commit)
      ensures store.Value() == old(store.Value()).(wal := old(store.wal) + [LogCommitResult(t, v)])
      ensures OthersSame(old(store.Value()), store.Value(), t)
    {
      hide Leads, LastStatus, LastKeys, CommitVersionOf;
      LeadsStep(sys, Action.Recover(Proceed));
      AppendSpares(store.Value(), LogCommitResult(t, v), t);
      var _ := store.Append(LogCommitResult(t, v));
      sys := RecoverNext(sys, Proceed);
    }

    method StoreAdopted(t: string)
      requires Undoing(t, AdoptStore(t))
      modifies this, store
      ensures Undoing(t, Choose) && Leads(old(sys), sys)
      ensures sys.mode.todo == old(sys.mode.todo) && sys.h == old(sys.h) && sys.commit == old(sys.commit)
      ensures store.Value() == old(store.Value()).(txns := old(store.txns)[t := old(store.txns[t]).(status := Committed)])
    {
      hide Leads, CommitVersionOf;
      LeadsStep(sys, Action.Recover(Proceed));
      store.PutTxnState(t, store.txns[t].(status := Committed));
      sys := RecoverNext(sys, Proceed);
    }

    /** What recovery does with one transaction it found in the log. */
    method RecoverOne(t: string, status: TxnStatus, uploaded: set<string>)
      requires Valid() && sys.mode.Recovering? && sys.mode.pc.Choose? && t in sys.mode.todo
      requires LastStatus(Surviving(sys.st), t) == Some(status) && LastKeys(Surviving(sys.st), t) == uploaded
      modifies this, store
      ensures Valid() && Leads(old(sys), sys) && sys.h == old(sys.h) && sys.commit == old(sys.commit)
      ensures sys.mode == Recovering(old(sys.mode.todo) - {t}, Choose)
      ensures OthersSame(old(store.Value()), store.Value(), t) && SettledAs(old(store.Value()), store.Value(), t)
    {
      hide Leads, LastStatus, LastKeys, Undone, Adopted, EndsAtItsVersion;
      ghost var s0 := sys;
      if t in store.txns {
        TestIsSame(store.Value(), t);
      }
      LeadsStep(sys, Action.Recover(Pick(t)));
      sys := RecoverNext(sys, Pick(t));
      if t !in store.txns || Terminal(store.txns[t].status) {
        return;
      }
      ghost var s1 := sys;
      if status == Active {
        UndoTxn(t);
        LeadsOn(s0, s1, sys);
      } else if status == Committing {
        var published := FindLatest(t, uploaded);
        if published {
          AdoptTxn(t);
        } else {
          UndoTxn(t);
        }
        LeadsOn(s0, s1, sys);
      }
    }

    /** Crash recovery: fold the surviving log, then settle every transaction found in it. */
    method RecoverAll()
      requires Valid() && sys.commit.Idle? && sys.mode == Recovering(WalTxns(Surviving(sys.st)), Choose)
      modifies this, store
      ensures AtRest() && Leads(old(sys), sys)
      ensures AllSettled(old(store.Value()), store.Value(), {})
      ensures Reachable(old(sys)) && old(sys.h.cut).Some? ==> Settles(store.Value(), old(sys.h.cut).value, old(sys.h.cutLogged))
    {
      hide Leads, LastStatus, LastKeys, WalTxns, Reachable, Settles, AllSettled, SettledAs, Judge;
      ghost var s0, was := sys, store.Value();
      LeadsSelf(sys);
      var log := store.IterWal();
      var status, uploaded := FoldLog(log);
      FoldedTxns(log, status);
      var todo := status.Keys;
      NoneSettled(was, todo);
      while todo != {}
        invariant todo <= status.Keys && Valid() && Leads(s0, sys) && sys.commit.Idle?
        invariant AllSettled(was, store.Value(), todo)
        invariant forall t :: t in todo ==> Judge(store.Value(), t) == Judge(was, t)
        invariant sys.mode == Recovering(todo, Choose) && sys.h == s0.h
        invariant forall t :: t in todo ==>
                    && LastStatus(Surviving(sys.st), t) == Some(status[t])
                    && LastKeys(Surviving(sys.st), t) == KeysOf(uploaded, t)
        decreases |todo|
      {
        var t :| t in todo;
        ghost var s1 := sys;
        ghost var mid := store.Value();
        RecoverOne(t, status[t], if t in uploaded then uploaded[t] else {});
        LeadsOn(s0, s1, sys);
        forall u | u in todo && u != t
          ensures Judge(store.Value(), u) == Judge(was, u)
        {
          OtherRows(mid, store.Value(), t, u);
          JudgeKept(mid, store.Value(), u);
        }
        OneMoreSettled(was, mid, store.Value(), todo, t);
        todo := todo - {t};
      }
      ghost var s2 := sys;
      if Reachable(s0) && s0.h.cut.Some? {
        ReachableOn(s0, sys);
        RecoveredIsAtomic(sys, s0.h.cut.value);
      }
      EndRecovery();
      LeadsOn(s0, s2, sys);
    }

    /** Nothing left to settle: back to normal operation. */
    ghost method EndRecovery()
      requires Valid() && sys.commit.Idle? && sys.mode == Recovering({}, Choose)
      modifies this
      ensures AtRest() && Leads(old(sys), sys)
    {
      LeadsStep(sys, Action.Recover(Resume));
      sys := RecoverNext(sys, Resume);
    }
  }

  function KeysOf(uploaded: map<string, set<string>>, t: string): set<string> {
    if t in uploaded then uploaded[t] else {}
  }

  /** Recovery's pass over the log: last status per transaction, and the keys of its last intent. */
  method FoldLog(log: seq<WalRecord>) returns (status: map<string, TxnStatus>, uploaded: map<string, set<string>>)
    ensures forall t :: LastStatus(log, t) == if t in status then Some(status[t]) else None
    ensures forall t :: LastKeys(log, t) == KeysOf(uploaded, t)
  {
    status, uploaded := map[], map[];
    for i := 0 to |log|
      invariant forall t :: LastStatus(log[..i], t) == if t in status then Some(status[t]) else None
      invariant forall t :: LastKeys(log[..i], t) == KeysOf(uploaded, t)
    {
      assert log[..i + 1][..i] == log[..i];
      match log[i]
      case LogBegin(t, _) =>
        if t !in status { status := status[t := Active]; }
      case LogStage(t, _) =>
        if t !in status { status := status[t := Active]; }
      case LogCommitting(t, keys) =>
        status := status[t := Committing];
        uploaded := uploaded[t := keys];
      case LogCommitted(t, _) => status := status[t := Committed];
      case LogCommitResult(t, _) => status := status[t := Committed];
      case LogAborted(t) => status := status[t := Aborted];
      case LogMemtableFlushed(_) =>
    }
    assert log[..|log|] == log;
  }

  /** A record that says how far a transaction has come. */
  predicate Telling(r: WalRecord) {
    r.LogCommitting? || r.LogCommitted? || r.LogCommitResult? || r.LogAborted?
  }

  ghost predicate LastTelling(log: seq<WalRecord>, t: string, i: int) {
    && 0 <= i < |log| && About(log[i], t) && Telling(log[i])
    && forall j :: i < j < |log| && About(log[j], t) ==> !Telling(log[j])
  }

  ghost predicate LastIntent(log: seq<WalRecord>, t: string, i: int) {
    0 <= i < |log| && log[i].LogCommitting? && log[i].txn == t && forall j :: i < j < |log| ==> !(log[j].LogCommitting? && log[j].txn == t)
  }

  ghost predicate Untold(log: seq<WalRecord>, t: string) {
    forall i :: 0 <= i < |log| && About(log[i], t) ==> !Telling(log[i])
  }

  ghost predicate Mentioned(log: seq<WalRecord>, t: string) {
    exists i :: 0 <= i < |log| && About(log[i], t)
  }

  lemma {:induction false} UntoldIsOpen(log: seq<WalRecord>, t: string)
    requires Untold(log, t)
    ensures LastStatus(log, t) == if Mentioned(log, t) then Some(Active) else None
  {
    if log != [] {
      var n := |log| - 1;
      var before := log[..n];
      assert forall i :: 0 <= i < n ==> before[i] == log[i];
      UntoldIsOpen(before, t);
      assert Mentioned(log, t) <==> Mentioned(before, t) || About(log[n], t);
    }
  }

  lemma {:induction false} LastTells(log: seq<WalRecord>, t: string, i: int)
    requires LastTelling(log, t, i)
    ensures LastStatus(log, t) == Some(if log[i].LogCommitting? then Committing else if log[i].LogAborted? then Aborted else Committed)
  {
    var n := |log| - 1;
    if i < n {
      assert log[..n][i] == log[i];
      LastTells(log[..n], t, i);
    }
  }

  lemma {:induction false} IntentTells(log: seq<WalRecord>, t: string, i: int)
    requires LastIntent(log, t, i)
    ensures LastKeys(log, t) == log[i].keys
  {
    var n := |log| - 1;
    if i < n {
      assert log[..n][i] == log[i];
      IntentTells(log[..n], t, i);
    }
  }

  lemma {:induction false} NoIntentNoKeys(log: seq<WalRecord>, t: string)
    requires forall i :: 0 <= i < |log| ==> !(log[i].LogCommitting? && log[i].txn == t)
    ensures LastKeys(log, t) == {}
  {
    if log != [] {
      NoIntentNoKeys(log[..|log| - 1], t);
    }
  }

  /**
   What the fold says of a transaction: its last record past Begin and Stage decides, without one it is Active, without
   any record it is not there; and the keys are those of its last intent.
   */
  lemma FoldMeans(log: seq<WalRecord>, t: string)
    ensures Untold(log, t) ==> LastStatus(log, t) == if Mentioned(log, t) then Some(Active) else None
    ensures forall i :: LastTelling(log, t, i) ==>
              LastStatus(log, t) == Some(if log[i].LogCommitting? then Committing else if log[i].LogAborted? then Aborted else Committed)
    ensures forall i :: LastIntent(log, t, i) ==> LastKeys(log, t) == log[i].keys
    ensures (forall i :: 0 <= i < |log| ==> !(log[i].LogCommitting? && log[i].txn == t)) ==> LastKeys(log, t) == {}
  {
    hide LastStatus, LastKeys;
    if Untold(log, t) {
      UntoldIsOpen(log, t);
    }
    forall i | LastTelling(log, t, i)
      ensures LastStatus(log, t) == Some(if log[i].LogCommitting? then Committing else if log[i].LogAborted? then Aborted else Committed)
    {
      LastTells(log, t, i);
    }
    forall i | LastIntent(log, t, i)
      ensures LastKeys(log, t) == log[i].keys
    {
      IntentTells(log, t, i);
    }
    if forall i :: 0 <= i < |log| ==> !(log[i].LogCommitting? && log[i].txn == t) {
      NoIntentNoKeys(log, t);
    }
  }

  lemma FoldedTxns(log: seq<WalRecord>, status: map<string, TxnStatus>)
    requires forall t :: LastStatus(log, t) == if t in status then Some(status[t]) else None
    ensures status.Keys == WalTxns(log)
  {
    forall t
      ensures t in status <==> t in WalTxns(log)
    {
      NoneAbout(log, t);
      StatusOfLast(log, t);
    }
  }

  lemma {:induction false} AppendSpares(st: Store, r: WalRecord, t: string)
    requires st.walFloor <= |st.wal| && About(r, t)
    ensures Surviving(AppendWal(st, r)) == Surviving(st) + [r]
    ensures forall u :: u != t ==>
              && LastStatus(Surviving(st) + [r], u) == LastStatus(Surviving(st), u)
              && LastKeys(Surviving(st) + [r], u) == LastKeys(Surviving(st), u)
  {
    assert (Surviving(st) + [r])[..|Surviving(st)|] == Surviving(st);
  }

  predicate HasEntry(c: Entries, t: string, v: u64) {
    exists e :: e in c && e.txnId == t && e.commitVersion == v
  }

  method ScanChain(c: Entries, t: string, v: u64) returns (found: bool)
    ensures found <==> HasEntry(c, t, v)
  {
    for i := 0 to |c|
      invariant forall j :: 0 <= j < i ==> !(c[j].txnId == t && c[j].commitVersion == v)
    {
      if c[i].txnId == t && c[i].commitVersion == v {
        assert c[i] in c;
        return true;
      }
    }
    found := false;
  }

  lemma ReportsItsVersion(row: TxnState, v: u64)
    requires row.alloc == Uniform(row.writeKeys, v) && (row.writeKeys == {} ==> v == row.snapshot)
    ensures CommitVersionOf(row) == v
  {
    if row.writeKeys == {} {
      assert row.alloc == map[];
    } else {
      var k :| k in row.writeKeys;
      assert k in row.alloc;
    }
  }

  lemma NothingAppended(st: Store, t: string, v: u64)
    requires t in st.txns && CanAppend(st.chains, Batch(st, t, v), st.txns[t].snapshot)
    ensures st.txns[t].writeKeys == {} ==> AppendAll(st.chains, Batch(st, t, v), st.txns[t].snapshot) == st.chains
  {
    if st.txns[t].writeKeys == {} {
      assert Batch(st, t, v) == map[];
    }
  }
}
