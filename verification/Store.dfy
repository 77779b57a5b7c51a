/** The redb tables the transaction protocol shares, and each write transaction as one function. */
module Stores {
  import opened Primitives
  import opened VersionChains

  datatype TxnStatus = Active | Committing | Committed | Aborted

  predicate Terminal(s: TxnStatus) {
    s == Committed || s == Aborted
  }

  /** A row of TBL_TXN_STATE; the duplicate-free key lists are sets and maps. */
  datatype TxnState = TxnState(
    status: TxnStatus,
    snapshot: u64,
    heartbeat: int,
    writeKeys: set<string>,
    alloc: map<string, u64>)

  datatype StagedWrite = StagedWrite(body: seq<u8>, deleted: bool)

  datatype WalRecord =
    | LogBegin(txn: string, snapshot: u64)
    | LogStage(txn: string, key: string)
    | LogCommitting(txn: string, keys: set<string>)
    | LogCommitted(txn: string, version: u64)
    | LogCommitResult(txn: string, version: u64)
    | LogAborted(txn: string)
    | LogMemtableFlushed(upTo: u64)

  /** `wal` is every record ever appended, record `i` having sequence number `i + 1`;
      truncation has removed exactly the first `walFloor` of them. */
  datatype Store = Store(
    globalVersion: u64,
    wal: seq<WalRecord>,
    walFloor: nat,
    txns: map<string, TxnState>,
    writes: map<string, map<string, StagedWrite>>,
    chains: map<string, Entries>,
    pins: map<u64, nat>)

  const EmptyStore := Store(0, [], 0, map[], map[], map[], map[])

  // ---------- Write-ahead log ----------

  predicate About(r: WalRecord, t: string) {
    !r.LogMemtableFlushed? && r.txn == t
  }

  function AppendWal(st: Store, r: WalRecord): Store {
    st.(wal := st.wal + [r])
  }

  /** Removes every surviving record with sequence number at most `upTo`. */
  function TruncateWal(st: Store, upTo: nat): Store {
    var cut := if upTo <= |st.wal| then upTo else |st.wal|;
    if cut <= st.walFloor then st else st.(walFloor := cut)
  }

  function Surviving(st: Store): seq<WalRecord>
    requires st.walFloor <= |st.wal|
  {
    st.wal[st.walFloor..]
  }

  /** Recovery's fold: Begin and Stage never override an earlier status. */
  function LastStatus(w: seq<WalRecord>, t: string): Option<TxnStatus> {
    if w == [] then None
    else
      var r, before := w[|w| - 1], w[..|w| - 1];
      if !About(r, t) then LastStatus(before, t)
      else match r
        case LogCommitting(_, _) => Some(Committing)
        case LogCommitted(_, _) => Some(Committed)
        case LogCommitResult(_, _) => Some(Committed)
        case LogAborted(_) => Some(Aborted)
        case _ =>
          var p := LastStatus(before, t);
          if p.None? then Some(Active) else p
  }

  /** The key list of the last Committing record, empty when there is none. */
  function LastKeys(w: seq<WalRecord>, t: string): set<string> {
    if w == [] then {}
    else if w[|w| - 1].LogCommitting? && w[|w| - 1].txn == t then w[|w| - 1].keys
    else LastKeys(w[..|w| - 1], t)
  }

  // ---------- Transaction rows and write sets ----------

  function PutTxn(st: Store, t: string, rec: TxnState): Store {
    st.(txns := st.txns[t := rec])
  }

  predicate HasStatus(st: Store, t: string, s: TxnStatus) {
    t in st.txns && st.txns[t].status == s
  }

  function SetStatus(st: Store, t: string, s: TxnStatus): Store
    requires t in st.txns
  {
    PutTxn(st, t, st.txns[t].(status := s))
  }

  function CompareAndSet(st: Store, t: string, expected: TxnStatus, next: TxnStatus): (Store, bool) {
    if HasStatus(st, t, expected) then (SetStatus(st, t, next), true) else (st, false)
  }

  function WriteSet(st: Store, t: string): map<string, StagedWrite> {
    if t in st.writes then st.writes[t] else map[]
  }

  function PutWrite(st: Store, t: string, k: string, w: StagedWrite): Store {
    st.(writes := st.writes[t := WriteSet(st, t)[k := w]])
  }

  function DropWrites(st: Store, t: string): Store {
    st.(writes := st.writes - {t})
  }

  // ---------- Snapshot pins ----------

  function PinCount(pins: map<u64, nat>, s: u64): nat {
    if s in pins then pins[s] else 0
  }

  function Pin(pins: map<u64, nat>, s: u64): map<u64, nat> {
    pins[s := PinCount(pins, s) + 1]
  }

  function Unpin(pins: map<u64, nat>, s: u64): map<u64, nat> {
    if PinCount(pins, s) <= 1 then pins - {s} else pins[s := PinCount(pins, s) - 1]
  }

  /** The current version, captured and pinned in one write transaction. */
  function CaptureSnapshot(st: Store): Store {
    st.(pins := Pin(st.pins, st.globalVersion))
  }

  function ReleaseSnapshot(st: Store, s: u64): Store {
    st.(pins := Unpin(st.pins, s))
  }

  // ---------- Version chains ----------

  function ChainOf(chains: map<string, Entries>, k: string): Entries {
    if k in chains then chains[k] else []
  }

  /** The chain already ends in a version this snapshot has not seen. */
  predicate Conflicts(c: Entries, snapshot: u64) {
    c != [] && Latest(c) > snapshot
  }

  predicate SameWrite(a: VersionEntry, b: VersionEntry) {
    a.txnId == b.txnId && a.backendKey == b.backendKey && a.deleted == b.deleted
  }

  /** One key's share of `append_chain_entries_bulk`; None rolls the whole batch back. */
  function AppendOne(c: Entries, e: VersionEntry, snapshot: u64): Option<Entries> {
    if Conflicts(c, snapshot) then None
    else if c != [] && e.commitVersion == Latest(c) && SameWrite(c[|c| - 1], e) then Some(c)
    else if c != [] && e.commitVersion <= Latest(c) then None
    else Some(c + [e])
  }

  function EntryFor(t: string, v: u64, k: string, ws: map<string, StagedWrite>): VersionEntry {
    var deleted := k in ws && ws[k].deleted;
    VersionEntry(v, t, k, if deleted || k !in ws then 0 else |ws[k].body|, deleted)
  }

  /** No key of the batch is refused. */
  predicate CanAppend(chains: map<string, Entries>, batch: map<string, VersionEntry>, snapshot: u64) {
    forall k :: k in batch ==> AppendOne(ChainOf(chains, k), batch[k], snapshot).Some?
  }

  /** A commit's atomic append of one entry per written key. */
  function AppendAll(chains: map<string, Entries>, batch: map<string, VersionEntry>, snapshot: u64): map<string, Entries>
    requires CanAppend(chains, batch, snapshot)
  {
    map k | k in chains.Keys + batch.Keys ::
      if k in batch then AppendOne(ChainOf(chains, k), batch[k], snapshot).value else chains[k]
  }

  function PruneAll(chains: map<string, Entries>, m: u64): map<string, Entries> {
    map k | k in chains :: Pruned(chains[k], m)
  }

  // ---------- Version allocation ----------

  function NextVersion(st: Store): Store
    requires st.globalVersion < U64_MAX
  {
    st.(globalVersion := st.globalVersion + 1)
  }
}
