/**
 What a finished operation has left in the store, table by table: the entries a commit adds say what was
 staged, the pin is gone, the log has grown by named records, and nothing else has moved.
 */
module CommitEffects {
  import opened Primitives
  import opened VersionChains
  import opened Stores
  import opened Machine
  import opened MachineInvariant
  import opened MachineRecovery

  function LastVersion(c: Entries): u64
    requires c != []
  {
    c[|c| - 1].commitVersion
  }

  /** Some written key's chain ends in a version the snapshot has not seen. */
  ghost predicate Clash(st: Store, t: string)
    requires t in st.txns
  {
    exists k :: k in st.txns[t].writeKeys && k in st.chains && st.chains[k] != [] &&
                LastVersion(st.chains[k]) > st.txns[t].snapshot
  }

  /** Every entry of every chain is older than the version. */
  ghost predicate Behind(chains: map<string, Entries>, v: u64) {
    forall k, e :: k in chains && e in chains[k] ==> e.commitVersion < v
  }

  /** The entry says who wrote the key, when, and what was staged: a tombstone, or a body of that size. */
  ghost predicate Says(e: VersionEntry, t: string, v: u64, k: string, ws: map<string, StagedWrite>) {
    && e.commitVersion == v && e.txnId == t && e.backendKey == k
    && e.deleted == (k in ws && ws[k].deleted)
    && e.size == if k in ws && !ws[k].deleted then |ws[k].body| else 0
  }

  /** One entry more, at the end. */
  ghost predicate Gained(was: Entries, now: Entries, t: string, v: u64, k: string, ws: map<string, StagedWrite>) {
    |now| == |was| + 1 && now[..|was|] == was && Says(now[|was|], t, v, k, ws)
  }

  ghost predicate ChainsGained(was: map<string, Entries>, now: map<string, Entries>, t: string, v: u64,
                               keys: set<string>, ws: map<string, StagedWrite>)
  {
    && now.Keys == was.Keys + keys
    && (forall k :: k in keys ==> Gained(ChainOf(was, k), ChainOf(now, k), t, v, k, ws))
    && (forall k :: k in was && k !in keys ==> ChainOf(now, k) == was[k])
  }

  /** One registration of the snapshot fewer, the snapshot forgotten with its last one. */
  ghost predicate OnePinLess(was: map<u64, nat>, now: map<u64, nat>, s: u64) {
    && (s in now <==> PinCount(was, s) >= 2) && (s in now ==> now[s] == PinCount(was, s) - 1)
    && (forall p :: p != s ==> (p in now <==> p in was))
    && (forall p :: p in now && p != s ==> now[p] == was[p])
  }

  /** A commit that published: terminal records, terminal row, entries in the chains, pin released. */
  ghost predicate Finished(was: Store, now: Store, t: string, v: u64)
    requires t in was.txns
  {
    var row := was.txns[t];
    && now.globalVersion == was.globalVersion && now.walFloor == was.walFloor && now.writes == was.writes
    && now.wal == was.wal + [LogCommitting(t, row.writeKeys), LogCommitted(t, v), LogCommitResult(t, v)]
    && now.txns == was.txns[t := TxnState(Committed, row.snapshot, row.heartbeat, row.writeKeys, map k | k in row.writeKeys :: v)]
    && ChainsGained(was.chains, now.chains, t, v, row.writeKeys, WriteSet(was, t))
    && OnePinLess(was.pins, now.pins, row.snapshot)
  }

  /** The version a commit goes on with: the next one, or the snapshot for a transaction without writes. */
  ghost predicate Drew(was: Store, now: Store, t: string, v: u64)
    requires t in was.txns
  {
    && now == was.(globalVersion := now.globalVersion)
    && v == (if was.txns[t].writeKeys == {} then was.txns[t].snapshot else was.globalVersion + 1)
    && now.globalVersion == (if was.txns[t].writeKeys == {} then was.globalVersion else v)
  }

  /** The intent in the log and in the row. */
  ghost function Intends(was: Store, t: string, v: u64): Store
    requires t in was.txns
  {
    was.(wal := was.wal + [LogCommitting(t, was.txns[t].writeKeys)],
         txns := was.txns[t := was.txns[t].(alloc := map k | k in was.txns[t].writeKeys :: v)])
  }

  lemma IntendsSo(was: Store, now: Store, t: string, v: u64)
    requires t in was.txns && now == was.(wal := now.wal, txns := now.txns)
    requires now.wal == was.wal + [LogCommitting(t, was.txns[t].writeKeys)]
    requires now.txns == was.txns[t := was.txns[t].(alloc := Uniform(was.txns[t].writeKeys, v))]
    ensures now == Intends(was, t, v)
  {
  }

  /** The whole commit, from the active row: it drew the next version if it wrote anything. */
  ghost predicate Succeeded(was: Store, now: Store, t: string, v: u64)
    requires t in was.txns
  {
    var row := was.txns[t];
    && v == (if row.writeKeys == {} then row.snapshot else was.globalVersion + 1)
    && now.globalVersion == (if row.writeKeys == {} then was.globalVersion else was.globalVersion + 1)
    && Finished(was.(globalVersion := now.globalVersion), now, t, v)
  }

  /** An abort record, an Aborted row, the pin released. */
  ghost predicate Closed(was: Store, now: Store, t: string)
    requires t in was.txns
  {
    && now.globalVersion == was.globalVersion && now.walFloor == was.walFloor && now.chains == was.chains
    && now.wal == was.wal + [LogAborted(t)]
    && now.txns == was.txns[t := was.txns[t].(status := Aborted)]
    && OnePinLess(was.pins, now.pins, was.txns[t].snapshot)
  }

  /** A refused commit keeps its write set, and the version if it had drawn one. */
  ghost predicate TurnedDown(was: Store, now: Store, t: string, drew: bool)
    requires t in was.txns
  {
    && now.writes == was.writes
    && now.globalVersion == (if drew then was.globalVersion + 1 else was.globalVersion)
    && Closed(was.(globalVersion := now.globalVersion), now, t)
  }

  /** An explicit abort, the sweep and recovery's undo also drop the write set. */
  ghost predicate Undone(was: Store, now: Store, t: string)
    requires t in was.txns
  {
    && (forall u :: u in now.writes <==> u in was.writes && u != t)
    && (forall u :: u in now.writes ==> now.writes[u] == was.writes[u])
    && Closed(was, now, t)
  }

  lemma UndoneSo(was: Store, now: Store, t: string)
    requires t in was.txns && now == was.(writes := now.writes, wal := now.wal, txns := now.txns, pins := now.pins)
    requires now.writes == was.writes - {t} && now.wal == was.wal + [LogAborted(t)]
    requires now.txns == was.txns[t := was.txns[t].(status := Aborted)]
    requires OnePinLess(was.pins, now.pins, was.txns[t].snapshot)
    ensures Undone(was, now, t)
  {
    hide OnePinLess;
  }

  /** The sweep, when it has dealt with these transactions. */
  ghost predicate Swept(was: Store, now: Store, done: set<string>) {
    && now.txns.Keys == was.txns.Keys
    && (forall t :: t in was.txns ==> now.txns[t] == if t in done then was.txns[t].(status := Aborted) else was.txns[t])
    && (forall t :: t in now.writes <==> t in was.writes && t !in done)
    && (forall t :: t in now.writes ==> now.writes[t] == was.writes[t])
    && now.chains == was.chains && now.globalVersion == was.globalVersion
  }

  lemma SweptNone(st: Store)
    ensures Swept(st, st, {})
  {
  }

  lemma SweptRow(was: Store, now: Store, done: set<string>, t: string)
    requires Swept(was, now, done) && t in was.txns && t !in done
    ensures t in now.txns && now.txns[t] == was.txns[t]
  {
  }

  lemma SweptStatuses(was: Store, now: Store, done: set<string>)
    requires Swept(was, now, done)
    ensures now.txns.Keys == was.txns.Keys
    ensures forall t :: t in was.txns ==> now.txns[t].status == was.txns[t].status || now.txns[t].status == Aborted
  {
  }

  lemma OneMoreSwept(was: Store, mid: Store, now: Store, done: set<string>, t: string)
    requires Swept(was, mid, done) && t in was.txns && t !in done && Undone(mid, now, t)
    ensures Swept(was, now, done + {t})
  {
    hide OnePinLess;
  }

  /** Recovery's adoption: both terminal records, a Committed row; the pin stays. */
  ghost predicate Adopted(was: Store, now: Store, t: string, v: u64)
    requires t in was.txns
  {
    && now.globalVersion == was.globalVersion && now.walFloor == was.walFloor
    && now.chains == was.chains && now.writes == was.writes && now.pins == was.pins
    && now.wal == was.wal + [LogCommitted(t, v), LogCommitResult(t, v)]
    && now.txns == was.txns[t := was.txns[t].(status := Committed)]
  }

  /** What recovery found of a transaction in the log still to be settled, and how it settles it. */
  datatype Verdict = Leave | Adopt | Undo

  ghost function Judge(st: Store, t: string): (v: Verdict)
    requires st.walFloor <= |st.wal|
    ensures !v.Leave? ==> t in st.txns
  {
    if t !in st.txns || st.txns[t].status == Committed || st.txns[t].status == Aborted then Leave
    else if LastStatus(Surviving(st), t) == Some(Active) then Undo
    else if LastStatus(Surviving(st), t) != Some(Committing) then Leave
    else if EndsAtItsVersion(st, t, LastKeys(Surviving(st), t)) then Adopt else Undo
  }

  /** Some logged key has an allocated version, and every such key's chain ends exactly there. */
  ghost predicate EndsAtItsVersion(st: Store, t: string, logged: set<string>)
    requires t in st.txns
  {
    var alloc := st.txns[t].alloc;
    && (exists k :: k in alloc && k in logged)
    && (forall k :: k in alloc && k in logged ==>
          (if k in st.chains && st.chains[k] != [] then LastVersion(st.chains[k]) else 0) == alloc[k])
  }

  /** One transaction settled. */
  ghost predicate SettledAs(was: Store, now: Store, t: string)
    requires was.walFloor <= |was.wal|
  {
    match Judge(was, t)
    case Leave => now == was
    case Adopt => Adopted(was, now, t, CommitVersionOf(was.txns[t]))
    case Undo => Undone(was, now, t)
  }

  /** Every transaction settled by what the log and the chains said of it at the start. */
  ghost predicate AllSettled(was: Store, now: Store, left: set<string>)
    requires was.walFloor <= |was.wal|
  {
    && now.txns.Keys == was.txns.Keys
    && (forall t :: t in was.txns ==>
          now.txns[t] == if t in left then was.txns[t] else
            match Judge(was, t)
            case Leave => was.txns[t]
            case Adopt => was.txns[t].(status := Committed)
            case Undo => was.txns[t].(status := Aborted))
    && (forall t :: t in now.writes <==> t in was.writes && (t in left || !Judge(was, t).Undo?))
    && (forall t :: t in now.writes ==> now.writes[t] == was.writes[t])
    && now.chains == was.chains && now.globalVersion == was.globalVersion && now.walFloor == was.walFloor
  }

  lemma JudgeKept(was: Store, now: Store, t: string)
    requires was.walFloor <= |was.wal| && now.walFloor <= |now.wal|
    requires (t in was.txns <==> t in now.txns) && (t in was.txns ==> now.txns[t] == was.txns[t]) && now.chains == was.chains
    requires LastStatus(Surviving(now), t) == LastStatus(Surviving(was), t)
    requires LastKeys(Surviving(now), t) == LastKeys(Surviving(was), t)
    ensures Judge(now, t) == Judge(was, t)
  {
  }

  lemma OneMoreSettled(was: Store, mid: Store, now: Store, left: set<string>, t: string)
    requires was.walFloor <= |was.wal| && mid.walFloor <= |mid.wal|
    requires AllSettled(was, mid, left) && t in left && Judge(mid, t) == Judge(was, t) && SettledAs(mid, now, t)
    ensures AllSettled(was, now, left - {t})
  {
    hide Judge, OnePinLess;
  }

  lemma NoneSettled(st: Store, logged: set<string>)
    requires st.walFloor <= |st.wal| && forall t :: t in logged <==> LastStatus(Surviving(st), t).Some?
    ensures AllSettled(st, st, logged)
  {
    hide LastStatus, LastKeys, EndsAtItsVersion;
  }

  lemma OtherRows(was: Store, now: Store, t: string, u: string)
    requires was.walFloor <= |was.wal| && SettledAs(was, now, t) && u != t
    ensures (u in was.txns <==> u in now.txns) && (u in was.txns ==> now.txns[u] == was.txns[u]) && now.chains == was.chains
  {
    hide Judge, OnePinLess;
  }

  lemma TestIsSame(st: Store, t: string)
    requires t in st.txns && st.walFloor <= |st.wal|
    ensures RecoveryFindsPublished(st, t) <==> EndsAtItsVersion(st, t, LastKeys(Surviving(st), t))
  {
    hide LastKeys;
    forall k
      ensures Latest(ChainOf(st.chains, k)) == if k in st.chains && st.chains[k] != [] then LastVersion(st.chains[k]) else 0
    {
    }
  }

  /** The version is the snapshot of a transaction without writes, or above every chain. */
  ghost predicate Steady(st: Store, t: string, v: u64)
    requires t in st.txns
  {
    st.txns[t].writeKeys == {} || Behind(st.chains, v)
  }

  // ---------- Putting the phases together ----------

  lemma FinishedFrom(was: Store, mid: Store, now: Store, t: string, v: u64)
    requires t in was.txns && mid == Intends(was, t, v).(chains := mid.chains)
    requires ChainsGained(was.chains, mid.chains, t, v, was.txns[t].writeKeys, WriteSet(was, t))
    requires now == mid.(wal := now.wal, txns := now.txns, pins := now.pins)
    requires now.wal == mid.wal + [LogCommitted(t, v), LogCommitResult(t, v)]
    requires now.txns == mid.txns[t := mid.txns[t].(status := Committed)]
    requires OnePinLess(mid.pins, now.pins, mid.txns[t].snapshot)
    ensures Finished(was, now, t, v)
  {
    hide ChainsGained, OnePinLess;
  }

  lemma SucceededFrom(was: Store, mid: Store, now: Store, t: string, v: u64)
    requires t in was.txns && Drew(was, mid, t, v) && Finished(mid, now, t, v)
    ensures Succeeded(was, now, t, v)
  {
    hide ChainsGained, OnePinLess;
  }

  lemma TurnedDownFrom(was: Store, mid: Store, now: Store, t: string, v: u64)
    requires t in was.txns && Drew(was, mid, t, v) && TurnedDown(mid, now, t, false)
    ensures TurnedDown(was, now, t, was.txns[t].writeKeys != {})
  {
    hide OnePinLess;
  }

  /** Counting from the claimed row or from the active one comes to the same. */
  lemma ClaimAside(was: Store, claimed: Store, now: Store, t: string, v: u64, drew: bool)
    requires t in was.txns && claimed == SetStatus(was, t, Committing)
    ensures Succeeded(claimed, now, t, v) == Succeeded(was, now, t, v)
    ensures TurnedDown(claimed, now, t, drew) == TurnedDown(was, now, t, drew)
  {
    hide ChainsGained, OnePinLess;
    var row := was.txns[t];
    var done := TxnState(Committed, row.snapshot, row.heartbeat, row.writeKeys, map k | k in row.writeKeys :: v);
    assert claimed.txns[t := done] == was.txns[t := done];
    assert claimed.txns[t := row.(status := Aborted)] == was.txns[t := row.(status := Aborted)];
  }

  // ---------- From the operations' own tests to these ----------

  lemma ClashIsConflict(st: Store, t: string)
    requires t in st.txns
    ensures Clash(st, t) <==> SnapshotConflict(st, t)
  {
    forall k
      ensures Conflicts(ChainOf(st.chains, k), st.txns[t].snapshot) <==>
                k in st.chains && st.chains[k] != [] && LastVersion(st.chains[k]) > st.txns[t].snapshot
    {
    }
  }

  lemma SameClash(st: Store, st': Store, t: string)
    requires t in st.txns && t in st'.txns && st'.chains == st.chains
    requires st'.txns[t].writeKeys == st.txns[t].writeKeys && st'.txns[t].snapshot == st.txns[t].snapshot
    ensures Clash(st', t) == Clash(st, t)
  {
  }

  lemma SameTests(st: Store, st': Store, t: string, v: u64)
    requires t in st.txns && t in st'.txns && st'.chains == st.chains
    requires st'.txns[t].writeKeys == st.txns[t].writeKeys
    ensures Steady(st', t, v) == Steady(st, t, v)
    ensures st'.txns[t].snapshot == st.txns[t].snapshot ==> Clash(st', t) == Clash(st, t)
  {
  }

  lemma UnpinIsLess(pins: map<u64, nat>, s: u64)
    ensures OnePinLess(pins, Unpin(pins, s), s)
  {
  }

  /** At a version above every chain the append succeeds exactly when the snapshot has seen every written key's end. */
  lemma AppendsUnlessClash(st: Store, t: string, v: u64)
    requires t in st.txns && Steady(st, t, v)
    ensures CanAppend(st.chains, Batch(st, t, v), st.txns[t].snapshot) <==> !Clash(st, t)
  {
    var batch, s := Batch(st, t, v), st.txns[t].snapshot;
    ClashIsConflict(st, t);
    forall k | k in batch
      ensures AppendOne(ChainOf(st.chains, k), batch[k], s).Some? <==> !Conflicts(ChainOf(st.chains, k), s)
    {
      AppendAbove(st.chains, k, batch[k], v, s);
    }
  }

  lemma AppendAbove(chains: map<string, Entries>, k: string, e: VersionEntry, v: u64, s: u64)
    requires Behind(chains, v) && e.commitVersion == v
    ensures var c := ChainOf(chains, k);
            AppendOne(c, e, s) == if Conflicts(c, s) then None else Some(c + [e])
  {
    var c := ChainOf(chains, k);
    if c != [] {
      assert c[|c| - 1] in chains[k];
    }
  }

  lemma EntrySays(t: string, v: u64, k: string, ws: map<string, StagedWrite>)
    ensures Says(EntryFor(t, v, k, ws), t, v, k, ws)
  {
  }

  lemma AppendGains(st: Store, t: string, v: u64)
    requires t in st.txns && Steady(st, t, v)
    requires CanAppend(st.chains, Batch(st, t, v), st.txns[t].snapshot)
    ensures ChainsGained(st.chains, AppendAll(st.chains, Batch(st, t, v), st.txns[t].snapshot), t, v,
                         st.txns[t].writeKeys, WriteSet(st, t))
  {
    hide EntryFor, Conflicts;
    var keys, ws, batch, s := st.txns[t].writeKeys, WriteSet(st, t), Batch(st, t, v), st.txns[t].snapshot;
    var next := AppendAll(st.chains, batch, s);
    assert next.Keys == st.chains.Keys + keys;
    forall k | k in keys
      ensures Gained(ChainOf(st.chains, k), ChainOf(next, k), t, v, k, ws)
    {
      EntrySays(t, v, k, ws);
      AppendAbove(st.chains, k, batch[k], v, s);
      assert AppendOne(ChainOf(st.chains, k), batch[k], s).Some?;
    }
  }

  /** Entries in the chains of a published transaction are found; at a version above every chain none are. */
  lemma FindsWhatWasGained(was: map<string, Entries>, now: Store, t: string, v: u64, ws: map<string, StagedWrite>)
    requires t in now.txns && now.txns[t].alloc == Uniform(now.txns[t].writeKeys, v)
    requires ChainsGained(was, now.chains, t, v, now.txns[t].writeKeys, ws)
    ensures ReconcileFindsPublished(now, t) <==> now.txns[t].writeKeys != {}
  {
    var row := now.txns[t];
    if row.writeKeys != {} {
      var k :| k in row.writeKeys;
      assert k in row.alloc;
      forall k | k in row.alloc
        ensures exists e :: e in ChainOf(now.chains, k) && e.txnId == t && e.commitVersion == row.alloc[k]
      {
        assert Gained(ChainOf(was, k), ChainOf(now.chains, k), t, v, k, ws);
        assert ChainOf(now.chains, k)[|ChainOf(was, k)|] in ChainOf(now.chains, k);
      }
    } else {
      assert row.alloc == map[];
    }
  }

  lemma FindsNothing(now: Store, t: string, v: u64)
    requires t in now.txns && Steady(now, t, v)
    requires now.txns[t].alloc == map[] || now.txns[t].alloc == Uniform(now.txns[t].writeKeys, v)
    ensures !ReconcileFindsPublished(now, t)
  {
    if now.txns[t].alloc != map[] {
      var k :| k in now.txns[t].alloc;
      forall e | e in ChainOf(now.chains, k)
        ensures e.commitVersion != now.txns[t].alloc[k]
      {
        assert k in now.chains && e in now.chains[k];
      }
    }
  }

  /** In a sound state no chain holds an entry above the version counter. */
  lemma ChainsAreBehind(s: Sound)
    requires s.st.globalVersion < U64_MAX
    ensures Behind(s.st.chains, s.st.globalVersion + 1)
  {
    hide InvWal, InvRecovery, InvCommit, RowsOk, IdsOk, FirstCommitterWins, PublishedIsLogged;
    forall k, e | k in s.st.chains && e in s.st.chains[k]
      ensures e.commitVersion <= s.st.globalVersion
    {
      assert IsSuffix(s.st.chains[k], s.h.log[k]);
      assert e in s.h.log[k];
      assert EntryOk(k, e, s.h.pub, s.st.txns);
    }
  }

  lemma ReachableIsBehind(s: Sys)
    requires Reachable(s) && s.st.globalVersion < U64_MAX
    ensures Behind(s.st.chains, s.st.globalVersion + 1)
  {
    hide InvTables, InvPub, InvWal, InvCommit, InvRecovery, Behind;
    ReachableInv(s);
    ChainsAreBehind(s);
  }
}
