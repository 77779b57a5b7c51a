/** The embedded store: its tables as fields, each write transaction as one method. */
module LocalStores {
  import opened Primitives
  import opened VersionChains
  import opened Stores
  import opened ChainBatches
  import opened RecordIndex

  /** Smallest registered snapshot, `U64_MAX` when there is none. */
  ghost predicate IsMinPin(pins: map<u64, nat>, m: u64) {
    && (forall p :: p in pins ==> m <= p)
    && (m == U64_MAX || m in pins)
  }

  class LocalStore {
    var globalVersion: u64
    var walRows: map<nat, WalRecord>
    var lastSeq: nat
    var txns: map<string, TxnState>
    var writes: map<string, map<string, StagedWrite>>
    var chains: map<string, Entries>
    var pins: map<u64, nat>
    const records: RecordTables
    ghost var wal: seq<WalRecord>     // every record ever appended
    ghost var walFloor: nat           // how many of them truncation removed

    constructor ()
      ensures Valid() && Value() == EmptyStore && records.Value() == NoRows && fresh(records)
    {
      globalVersion, walRows, lastSeq := 0, map[], 0;
      txns, writes, chains, pins := map[], map[], map[], map[];
      records := new RecordTables();
      wal, walFloor := [], 0;
    }

    ghost predicate Valid()
      reads this
    {
      && lastSeq == |wal| && walFloor <= |wal|
      && (forall n :: n in walRows <==> walFloor < n <= lastSeq)
      && (forall n :: n in walRows && 0 < n <= |wal| ==> walRows[n] == wal[n - 1])
    }

    ghost function Value(): Store
      reads this
    {
      Store(globalVersion, wal, walFloor, txns, writes, chains, pins)
    }

    // ---------- Versions and the log ----------

    method NextGlobalVersion() returns (v: u64)
      requires Valid() && globalVersion < U64_MAX
      modifies this
      ensures Valid() && Value() == NextVersion(old(Value())) && v == globalVersion == old(globalVersion) + 1
    {
      globalVersion := globalVersion + 1;
      v := globalVersion;
    }

    method Append(r: WalRecord) returns (seqNo: nat)
      requires Valid()
      modifies this
      ensures Valid() && Value() == AppendWal(old(Value()), r) && seqNo == |wal|
      ensures seqNo == old(lastSeq) + 1 == lastSeq && walRows == old(walRows)[seqNo := r]
    {
      lastSeq := lastSeq + 1;
      walRows := walRows[lastSeq := r];
      wal := wal + [r];
      seqNo := lastSeq;
    }

    method Truncate(upTo: u64) returns (removed: nat)
      requires Valid()
      modifies this
      ensures Valid() && Value() == TruncateWal(old(Value()), upTo)
      ensures forall n :: n in walRows <==> n in old(walRows) && upTo < n
      ensures forall n :: n in walRows ==> walRows[n] == old(walRows)[n]
      ensures removed == |old(walRows)| - |walRows| == walFloor - old(walFloor)
    {
      ghost var cut := if upTo <= |wal| then upTo else |wal|;
      var rows;
      rows, removed := CutRows(upTo);
      RowCount(walRows.Keys, walFloor, lastSeq);
      walRows := rows;
      if cut > walFloor {
        walFloor := cut;
      }
      RowCount(walRows.Keys, walFloor, lastSeq);
    }

    /** The rows above the sequence number, and how many the others were. */
    method CutRows(upTo: u64) returns (rows: map<nat, WalRecord>, removed: nat)
      ensures forall n :: n in rows <==> n in walRows && upTo < n
      ensures forall n :: n in rows ==> rows[n] == walRows[n]
      ensures |rows| + removed == |walRows|
    {
      rows, removed := walRows, 0;
      var todo := walRows.Keys;
      while todo != {}
        invariant todo <= walRows.Keys
        invariant forall k :: k in rows <==> k in walRows && (k in todo || upTo < k)
        invariant forall k :: k in rows ==> rows[k] == walRows[k]
        invariant |rows.Keys| + removed == |walRows.Keys|
        decreases |todo|
      {
        var k :| k in todo;
        todo := todo - {k};
        if k <= upTo {
          assert rows.Keys == (rows - {k}).Keys + {k};
          rows := rows - {k};
          removed := removed + 1;
        }
      }
    }

    /** The surviving records, oldest first. */
    method IterWal() returns (log: seq<WalRecord>)
      requires Valid()
      ensures log == Surviving(Value())
    {
      log := [];
      var n := FirstSeq();
      while n < lastSeq
        invariant walFloor <= n <= lastSeq && log == wal[walFloor..n]
      {
        n := n + 1;
        log := log + [walRows[n]];
      }
      assert wal[walFloor..n] == wal[walFloor..];
    }

    /** One below the first surviving sequence number. */
    method FirstSeq() returns (n: nat)
      requires Valid()
      ensures n == walFloor
    {
      n := lastSeq;
      while n in walRows
        invariant walFloor <= n <= lastSeq
        decreases n
      {
        n := n - 1;
      }
    }

    // ---------- Transaction rows and write sets ----------

    method PutTxnState(t: string, rec: TxnState)
      requires Valid()
      modifies this
      ensures Valid() && Value() == PutTxn(old(Value()), t, rec) && txns == old(txns)[t := rec]
    {
      txns := txns[t := rec];
    }

    /** Sets the status only if the row is there and still has the expected one. */
    method CompareAndSetStatus(t: string, expected: TxnStatus, next: TxnStatus) returns (won: bool)
      requires Valid()
      modifies this
      ensures Valid() && (Value(), won) == CompareAndSet(old(Value()), t, expected, next)
      ensures won <==> t in old(txns) && old(txns[t]).status == expected
      ensures txns == if won then old(txns)[t := old(txns[t]).(status := next)] else old(txns)
    {
      if t !in txns || txns[t].status != expected {
        return false;
      }
      txns := txns[t := txns[t].(status := next)];
      won := true;
    }

    method PutWriteEntry(t: string, k: string, w: StagedWrite)
      requires Valid()
      modifies this
      ensures Valid() && Value() == PutWrite(old(Value()), t, k, w)
      ensures t in writes && k in writes[t] && writes[t][k] == w
      ensures forall u, j :: u in old(writes) && j in old(writes)[u] && (u, j) != (t, k) ==> u in writes && j in writes[u] && writes[u][j] == old(writes)[u][j]
    {
      var mine := if t in writes then writes[t] else map[];
      writes := writes[t := mine[k := w]];
    }

    method DeleteWrites(t: string)
      requires Valid()
      modifies this
      ensures Valid() && Value() == DropWrites(old(Value()), t)
      ensures t !in writes && forall u :: u in old(writes) && u != t ==> u in writes && writes[u] == old(writes)[u]
    {
      writes := writes - {t};
    }

    // ---------- Snapshot pins ----------

    method CaptureAndRegister() returns (s: u64)
      requires Valid()
      modifies this
      ensures Valid() && Value() == CaptureSnapshot(old(Value())) && s == globalVersion
      ensures PinCount(pins, s) == PinCount(old(pins), s) + 1
      ensures forall p :: p != s ==> PinCount(pins, p) == PinCount(old(pins), p)
    {
      s := globalVersion;
      var count := if s in pins then pins[s] else 0;
      pins := pins[s := count + 1];
    }

    method Unregister(s: u64)
      requires Valid()
      modifies this
      ensures Valid() && Value() == ReleaseSnapshot(old(Value()), s)
      ensures PinCount(pins, s) == (if PinCount(old(pins), s) == 0 then 0 else PinCount(old(pins), s) - 1)
      ensures (s in pins ==> PinCount(old(pins), s) >= 2) && forall p :: p != s ==> PinCount(pins, p) == PinCount(old(pins), p)
    {
      var count := if s in pins then pins[s] else 0;
      if count <= 1 {
        pins := pins - {s};
      } else {
        pins := pins[s := count - 1];
      }
    }

    method MinActiveSnapshot() returns (m: u64)
      ensures IsMinPin(pins, m)
    {
      m := U64_MAX;
      var todo := pins.Keys;
      while todo != {}
        invariant todo <= pins.Keys
        invariant forall p :: p in pins && p !in todo ==> m <= p
        invariant m == U64_MAX || m in pins
        decreases |todo|
      {
        var p: u64 :| p in todo;
        todo := todo - {p};
        if p < m {
          m := p;
        }
      }
    }

    // ---------- Chains ----------

    /** All entries or none: an error leaves every chain as it was. */
    method AppendChainEntriesBulk(xs: seq<BatchItem>) returns (ok: bool)
      requires Valid()
      modifies this
      ensures Valid()
      ensures ok <==> AppendList(old(chains), SortItems(xs)).Some?
      ensures Value() == if ok then old(Value()).(chains := AppendList(old(chains), SortItems(xs)).value) else old(Value())
    {
      var sorted := SortItems(xs);
      var next := chains;
      for i := 0 to |sorted|
        invariant AppendList(chains, sorted[..i]) == Some(next)
      {
        assert sorted[..i + 1][..i] == sorted[..i];
        var x := sorted[i];
        var grown := AppendOne(ChainOf(next, x.key), x.entry, x.snapshot);
        if grown.None? {
          Refused(chains, sorted, i + 1);
          return false;
        }
        next := next[x.key := grown.value];
      }
      assert sorted[..|sorted|] == sorted;
      chains := next;
      ok := true;
    }

    /** Prunes chains and record history at one threshold, never above a registered snapshot. */
    method GcChains(requested: Option<u64>) returns (visited: nat, removed: nat, m: u64)
      requires Valid()
      modifies this, records
      ensures Valid()
      ensures forall p :: p in pins ==> m <= p
      ensures requested.Some? ==> m <= requested.value && (m == requested.value || IsMinPin(pins, m))
      ensures requested.None? ==> IsMinPin(pins, m)
      ensures Value() == old(Value()).(chains := PruneAll(old(chains), m))
      ensures records.Value() == GcRows(old(records.Value()), m)
      ensures visited == |old(chains)| && EntryCount(chains) + removed == EntryCount(old(chains))
      ensures chains.Keys == old(chains).Keys && forall k :: k in chains ==> chains[k] == Pruned(old(chains)[k], m)
    {
      var active := MinActiveSnapshot();
      m := if requested.Some? && requested.value < active then requested.value else active;
      visited, removed := PruneChains(m);
      records.Gc(m);
    }

    method PruneChains(threshold: u64) returns (visited: nat, removed: nat)
      modifies this`chains
      ensures chains == PruneAll(old(chains), threshold) && visited == |old(chains)|
      ensures EntryCount(chains) + removed == EntryCount(old(chains))
    {
      visited, removed := 0, 0;
      var todo := chains.Keys;
      assert |todo| == |chains|;
      while todo != {}
        invariant todo <= chains.Keys == old(chains).Keys
        invariant forall k :: k in chains ==>
                    chains[k] == if k in todo then old(chains)[k] else Pruned(old(chains)[k], threshold)
        invariant visited + |todo| == |old(chains)| && EntryCount(chains) + removed == EntryCount(old(chains))
        decreases |todo|
      {
        var k :| k in todo;
        todo := todo - {k};
        visited := visited + 1;
        var kept := Pruned(chains[k], threshold);
        CountReplaced(chains, k, kept);
        assert |kept| <= |chains[k]|;
        removed := removed + (|chains[k]| - |kept|);
        chains := chains[k := kept];
      }
    }
  }

  /** How many entries all chains hold together. */
  ghost function EntryCount(chains: map<string, Entries>): nat {
    |Slots(chains)|
  }

  ghost function Slots(chains: map<string, Entries>): set<(string, nat)> {
    set k, i | k in chains && 0 <= i < |chains[k]| :: (k, i)
  }

  lemma {:induction false} SlotsOf(k: string, n: nat) returns (slots: set<(string, nat)>)
    ensures |slots| == n && forall x :: x in slots <==> x.0 == k && x.1 < n
  {
    if n == 0 {
      slots := {};
    } else {
      var fewer := SlotsOf(k, n - 1);
      slots := fewer + {(k, n - 1)};
    }
  }

  lemma CountReplaced(chains: map<string, Entries>, k: string, c: Entries)
    requires k in chains
    ensures EntryCount(chains[k := c]) + |chains[k]| == EntryCount(chains) + |c|
  {
    hide Slots;
    var was := SlotsOf(k, |chains[k]|);
    var now := SlotsOf(k, |c|);
    var rest := Slots(chains - {k});
    SlotsSplit(chains, k, was);
    SlotsSplit(chains[k := c], k, now);
    assert chains[k := c] - {k} == chains - {k};
    CountBoth(rest, was);
    CountBoth(rest, now);
  }

  lemma CountBoth(a: set<(string, nat)>, b: set<(string, nat)>)
    requires a !! b
    ensures |a + b| == |a| + |b|
  {
  }

  lemma SlotsSplit(chains: map<string, Entries>, k: string, own: set<(string, nat)>)
    requires k in chains && forall x :: x in own <==> x.0 == k && x.1 < |chains[k]|
    ensures Slots(chains) == Slots(chains - {k}) + own && Slots(chains - {k}) !! own
  {
  }

  lemma {:induction false} Refused(chains: map<string, Entries>, xs: seq<BatchItem>, n: nat)
    requires n <= |xs| && AppendList(chains, xs[..n]).None?
    ensures AppendList(chains, xs).None?
    decreases |xs| - n
  {
    if n < |xs| {
      assert xs[..n + 1][..n] == xs[..n];
      Refused(chains, xs, n + 1);
    } else {
      assert xs[..n] == xs;
    }
  }

  lemma {:induction false} RowCount(keys: set<nat>, floor: nat, last: nat)
    requires floor <= last && forall n :: n in keys <==> floor < n <= last
    ensures |keys| == last - floor
    decreases last - floor
  {
    if floor == last {
      assert keys == {};
    } else {
      RowCount(keys - {last}, floor, last - 1);
      assert keys == (keys - {last}) + {last};
    }
  }
}
