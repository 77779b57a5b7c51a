/**
 Reads at a snapshot through memtables, history rows and chunks, against the plain list of committed
 versions of each record, over every run of commits, rotations, flush steps and GC.
 */
module ReadPath {
  import opened Primitives
  import opened RecordIndex
  import opened MemTables
  import opened LittleEndian
  import opened Bloom

  datatype Version = Version(version: u64, body: seq<u8>, deleted: bool, txn: string)

  datatype ChunkRow = ChunkRow(key: RecordKey, at: Version)

  /** A live chunk: its decoded rows and the bloom filter kept in its index row. */
  datatype Chunk = Chunk(rows: seq<ChunkRow>, bloom: Bytes)

  /** How keys are turned into bytes and hashed. */
  datatype Hashing = Hashing(encode: RecordKey -> Bytes, hash: Bytes -> u64)

  datatype Lsm = Lsm(
    mems: MemSet,
    taken: seq<MemTable>,                       // handed to the flush task, oldest first
    pointing: Option<(string, set<RecordKey>)>, // chunk stored for taken[0], rows still to point at it
    chunks: map<string, Chunk>,
    rows: Tables,
    globalVersion: u64,
    log: map<RecordKey, seq<Version>>,          // every committed version
    horizon: u64)                               // GC never removed what a snapshot at or above it needs

  const Fresh := Lsm(MemSet(EmptyTable, []), [], None, map[], NoRows, 0, map[], 0)

  // ---------- The reference: newest committed version at or below the snapshot ----------

  function LogAt(log: map<RecordKey, seq<Version>>, k: RecordKey): seq<Version> {
    if k in log then log[k] else []
  }

  function LogOf(l: Lsm, k: RecordKey): seq<Version> {
    LogAt(l.log, k)
  }

  function NewestIn(vs: seq<Version>, s: u64): Option<Version> {
    if vs == [] then None
    else if vs[|vs| - 1].version <= s then Some(vs[|vs| - 1])
    else NewestIn(vs[..|vs| - 1], s)
  }

  // ---------- The read ----------

  datatype ReadResult = ReadResult(body: seq<u8>, version: u64, deleted: bool, txn: string)

  function ResultOf(v: Version): ReadResult {
    ReadResult(v.body, v.version, v.deleted, v.txn)
  }

  /** What a read at the snapshot should return. */
  function Right(l: Lsm, k: RecordKey, s: u64): Option<ReadResult> {
    match NewestIn(LogOf(l, k), s)
    case None => None
    case Some(v) => Some(ResultOf(v))
  }

  /** The history row of greatest version at or below the snapshot. */
  ghost function HistoryAt(versions: VersionTable, k: RecordKey, s: u64): Option<Row> {
    if exists v: u64 :: NewestAt(versions, k, s, v) then
      var v: u64 :| NewestAt(versions, k, s, v);
      Some(versions[(k, v)])
    else None
  }

  predicate Hits(r: ChunkRow, k: RecordKey, s: u64) {
    r.key == k && r.at.version <= s
  }

  /** Among the chunk's rows of the record visible at the snapshot, the last of greatest version. */
  function BestRow(rows: seq<ChunkRow>, k: RecordKey, s: u64): Option<Version> {
    if rows == [] then None
    else
      var r, best := rows[|rows| - 1], BestRow(rows[..|rows| - 1], k, s);
      if Hits(r, k, s) && (best.None? || best.value.version <= r.at.version) then Some(r.at) else best
  }

  function ReadFromChunk(chunks: map<string, Chunk>, id: string, hs: Hashing, k: RecordKey, s: u64): Option<ReadResult> {
    if id !in chunks || !MayContain(chunks[id].bloom, hs.encode(k), hs.hash) then None
    else match BestRow(chunks[id].rows, k, s)
      case None => None
      case Some(v) => Some(ResultOf(v))
  }

  function Tombstone(row: Row): ReadResult {
    ReadResult([], row.version, true, row.txn)
  }

  function ReadRow(chunks: map<string, Chunk>, row: Row, hs: Hashing, k: RecordKey, s: u64): Option<ReadResult> {
    if row.deleted then Some(Tombstone(row))
    else if row.body != [] && row.chunk !in chunks then Some(ReadResult(row.body, row.version, false, row.txn))
    else ReadFromChunk(chunks, row.chunk, hs, k, s)
  }

  /** Memtables, then history, then the latest row. */
  ghost function ReadIn(mems: MemSet, rows: Tables, chunks: map<string, Chunk>, hs: Hashing, k: RecordKey, s: u64): Option<ReadResult> {
    match Find(mems, k, s)
    case Some(e) => Some(ReadResult(e.body, e.version, e.deleted, e.txn))
    case None =>
      match HistoryAt(rows.versions, k, s)
      case Some(row) => ReadRow(chunks, row, hs, k, s)
      case None =>
        if k !in rows.latest || rows.latest[k].version > s then None
        else if rows.latest[k].deleted then Some(Tombstone(rows.latest[k]))
        else ReadFromChunk(chunks, rows.latest[k].chunk, hs, k, s)
  }

  ghost function Read(l: Lsm, hs: Hashing, k: RecordKey, s: u64): Option<ReadResult> {
    ReadIn(l.mems, l.rows, l.chunks, hs, k, s)
  }

  // ---------- The steps ----------

  datatype Step =
    | NextVersion
    | Write(k: RecordKey, body: seq<u8>, deleted: bool, txn: string, place: string, full: bool, locked: bool)
    | Rotate
    | Take
    | Skip
    | StoreChunk(id: string, chunk: Chunk)
    | PointAt(k: RecordKey)
    | Finish
    | Collect(m: u64)

  /** Every visible entry of the memtable, once, in any order. */
  ghost predicate IsChunkOf(rows: seq<ChunkRow>, t: MemTable) {
    && (forall r :: r in rows ==> r.key in t.entries && t.entries[r.key].version != INVISIBLE && r.at == VersionOf(t.entries[r.key]))
    && (forall k :: k in t.entries && t.entries[k].version != INVISIBLE ==> ChunkRow(k, VersionOf(t.entries[k])) in rows)
    && KeysOnce(rows)
  }

  ghost predicate KeysOnce(rows: seq<ChunkRow>) {
    forall i, j :: 0 <= i < j < |rows| ==> rows[i].key != rows[j].key
  }

  function VersionOf(e: MemEntry): Version {
    Version(e.version, e.body, e.deleted, e.txn)
  }

  ghost predicate BloomCovers(c: Chunk, hs: Hashing) {
    forall r :: r in c.rows ==> MayContain(c.bloom, hs.encode(r.key), hs.hash)
  }

  predicate Newer(vs: seq<Version>, v: u64) {
    vs != [] ==> vs[|vs| - 1].version < v
  }

  /** What a step asks for, apart from the condition on rewrites. */
  ghost predicate Allowed(l: Lsm, hs: Hashing, a: Step) {
    match a
    case NextVersion => l.globalVersion < U64_MAX - 1
    case Write(k, body, deleted, _, place, _, _) =>
      && Newer(LogOf(l, k), l.globalVersion) && l.globalVersion > 0
      && (deleted <==> body == []) && place !in l.chunks
    case Rotate => true
    case Take => true
    case Skip => l.pointing.None? && l.taken != [] && VisibleKeys(l.taken[0]) == {}
    case StoreChunk(id, chunk) =>
      && l.pointing.None? && l.taken != [] && chunk.rows != [] && |chunk.bloom| == FilterBytes(|chunk.rows|)
      && id !in l.chunks && (forall x :: x in l.rows.versions ==> l.rows.versions[x].chunk != id)
      && IsChunkOf(chunk.rows, l.taken[0]) && BloomCovers(chunk, hs)
    case PointAt(k) => l.pointing.Some? && k in l.pointing.value.1 && l.taken != [] && k in l.taken[0].entries
    case Finish => l.pointing.Some? && l.pointing.value.1 == {} && l.taken != []
    case Collect(m) => true
  }

  predicate SameContent(e: MemEntry, a: Step)
    requires a.Write?
  {
    e.body == a.body && e.deleted == a.deleted && e.txn == a.txn
  }

  /** Publishing with the queue open stamps every queued copy of the record with the new version: they must say
      what it says, or it must be a tombstone, which is answered without looking into a chunk. */
  predicate StampsTrue(l: Lsm, a: Step)
    requires a.Write?
  {
    a.deleted || forall t :: t in l.mems.queue && a.k in t.entries ==> SameContent(t.entries[a.k], a)
  }

  /** With the queue locked the write replaces the active copy only: for snapshots between the two versions a
      queued copy then answers in its place, so there must be none, or the same one, or no such snapshot. */
  predicate ReplacesUnseen(l: Lsm, a: Step)
    requires a.Write?
  {
    || a.k !in l.mems.active.entries || l.globalVersion <= l.horizon
    || FindQueued(l.mems.queue, a.k, l.globalVersion) == None
    || FindQueued(l.mems.queue, a.k, l.globalVersion) == Some(l.mems.active.entries[a.k])
  }

  /** The side condition on rewriting a record that is still queued. */
  predicate Calm(l: Lsm, a: Step) {
    a.Write? ==> if a.locked then ReplacesUnseen(l, a) else StampsTrue(l, a)
  }

  function VisibleKeys(t: MemTable): set<RecordKey> {
    set k | k in t.entries && t.entries[k].version != INVISIBLE
  }

  function Min(a: u64, b: u64): u64 {
    if a <= b then a else b
  }

  function MaxOf(a: u64, b: u64): u64 {
    if a >= b then a else b
  }

  function WriteNext(l: Lsm, a: Step): Lsm
    requires a.Write?
  {
    var v := l.globalVersion;
    var staged := Put(l.mems, a.k, MemEntry(a.body, v, a.deleted, a.txn), v, a.full);
    l.(mems := Publish(staged, a.k, v, a.locked),
       rows := PutRow(l.rows, a.k, Row(v, a.deleted, a.place, a.txn, a.body)),
       log := l.log[a.k := LogOf(l, a.k) + [Version(v, a.body, a.deleted, a.txn)]])
  }

  ghost function Next(l: Lsm, hs: Hashing, a: Step): Lsm
    requires Allowed(l, hs, a)
  {
    match a
    case NextVersion => l.(globalVersion := l.globalVersion + 1)
    case Write(_, _, _, _, _, _, _) => WriteNext(l, a)
    case Rotate => l.(mems := Rotated(l.mems))
    case Take => l.(mems := l.mems.(queue := []), taken := l.taken + l.mems.queue)
    case Skip => l.(taken := l.taken[1..])
    case StoreChunk(id, chunk) => l.(chunks := l.chunks[id := chunk], pointing := Some((id, VisibleKeys(l.taken[0]))))
    case PointAt(k) =>
      l.(rows := PointRow(l.rows, k, l.taken[0].entries[k].version, l.pointing.value.0),
         pointing := Some((l.pointing.value.0, l.pointing.value.1 - {k})))
    case Finish => l.(taken := l.taken[1..], pointing := None)
    case Collect(m) =>
      l.(rows := GcRows(l.rows, m), horizon := MaxOf(l.horizon, Min(m, l.globalVersion)))
  }

  ghost predicate Run(l: Lsm, hs: Hashing, steps: seq<Step>, l': Lsm)
    decreases |steps|
  {
    if steps == [] then l == l'
    else Allowed(l, hs, steps[0]) && Calm(l, steps[0]) && Run(Next(l, hs, steps[0]), hs, steps[1..], l')
  }

  // ---------- What every step keeps ----------

  predicate Rising(vs: seq<Version>) {
    forall i, j :: 0 <= i < j < |vs| ==> vs[i].version < vs[j].version
  }

  predicate VersionOk(v: Version, gv: u64) {
    0 < v.version <= gv < INVISIBLE && (v.deleted <==> v.body == [])
  }

  ghost predicate LogOk(log: map<RecordKey, seq<Version>>, gv: u64) {
    && gv < INVISIBLE
    && forall k :: k in log ==> log[k] != [] && Rising(log[k]) && forall v :: v in log[k] ==> VersionOk(v, gv)
  }

  /** The entry is a committed version, or stands at the version of a tombstone. */
  predicate Stands(e: MemEntry, vs: seq<Version>) {
    exists v :: v in vs && v.version == e.version && (v == VersionOf(e) || v.deleted)
  }

  ghost predicate TableOk(t: MemTable, log: map<RecordKey, seq<Version>>) {
    forall k :: k in t.entries ==> k in log && Stands(t.entries[k], log[k])
  }

  ghost predicate TablesOk(ts: seq<MemTable>, log: map<RecordKey, seq<Version>>) {
    forall t :: t in ts ==> TableOk(t, log)
  }

  /** Every record the active table holds, it holds at its newest committed version. */
  ghost predicate HoldsNewest(t: MemTable, log: map<RecordKey, seq<Version>>) {
    forall k :: k in t.entries ==> k in log && log[k] != [] && VersionOf(t.entries[k]) == log[k][|log[k]| - 1]
  }

  /** What the memtables answer is right. */
  ghost predicate AnswersRight(ms: MemSet, log: map<RecordKey, seq<Version>>, k: RecordKey, s: u64) {
    Find(ms, k, s).Some? ==> NewestIn(LogAt(log, k), s) == Some(VersionOf(Find(ms, k, s).value))
  }

  ghost predicate MemsOk(ms: MemSet, log: map<RecordKey, seq<Version>>, horizon: u64) {
    && HoldsNewest(ms.active, log) && TablesOk(ms.queue, log)
    && forall k, s: u64 :: horizon <= s ==> AnswersRight(ms, log, k, s)
  }

  function RowVersion(r: Row): Version {
    Version(r.version, r.body, r.deleted, r.txn)
  }

  ghost predicate RowsOk(versions: VersionTable, log: map<RecordKey, seq<Version>>) {
    forall x :: x in versions ==> versions[x].version == x.1 && x.0 in log && RowVersion(versions[x]) in log[x.0]
  }

  predicate HasRow(versions: VersionTable, k: RecordKey, v: u64) {
    (k, v) in versions
  }

  /** A committed version without a history row was superseded at or below the horizon. */
  ghost predicate KeyHistoryOk(versions: VersionTable, k: RecordKey, vs: seq<Version>, horizon: u64) {
    forall i :: 0 <= i < |vs| && !HasRow(versions, k, vs[i].version) ==> i + 1 < |vs| && vs[i + 1].version <= horizon
  }

  ghost predicate HistoryOk(versions: VersionTable, log: map<RecordKey, seq<Version>>, horizon: u64) {
    forall k :: k in log ==> KeyHistoryOk(versions, k, log[k], horizon)
  }

  /** The chunk holds this version of the record and no other. */
  ghost predicate Serves(c: Chunk, k: RecordKey, v: Version) {
    ChunkRow(k, v) in c.rows && forall r :: r in c.rows && r.key == k ==> r.at == v
  }

  ghost predicate ChunksOk(versions: VersionTable, chunks: map<string, Chunk>) {
    forall x :: x in versions && !versions[x].deleted && versions[x].chunk in chunks ==> Serves(chunks[versions[x].chunk], x.0, RowVersion(versions[x]))
  }

  ghost predicate BloomsOk(chunks: map<string, Chunk>, hs: Hashing) {
    forall id :: id in chunks ==> BloomCovers(chunks[id], hs)
  }

  ghost predicate PointingOk(l: Lsm) {
    l.pointing.Some? ==>
      && l.taken != [] && l.pointing.value.0 in l.chunks
      && IsChunkOf(l.chunks[l.pointing.value.0].rows, l.taken[0])
      && l.pointing.value.1 <= VisibleKeys(l.taken[0])
  }

  ghost predicate Inv(l: Lsm, hs: Hashing) {
    && LogOk(l.log, l.globalVersion) && MemsOk(l.mems, l.log, l.horizon) && TablesOk(l.taken, l.log)
    && RowsOk(l.rows.versions, l.log) && HistoryOk(l.rows.versions, l.log, l.horizon)
    && ChunksOk(l.rows.versions, l.chunks) && BloomsOk(l.chunks, hs)
    && PointingOk(l) && RowsAgree(l.rows) && l.horizon <= l.globalVersion
  }

  // ---------- Writing ----------

  ghost function Grown(log: map<RecordKey, seq<Version>>, k: RecordKey, v: Version): map<RecordKey, seq<Version>> {
    log[k := (if k in log then log[k] else []) + [v]]
  }

  lemma WriteLog(log: map<RecordKey, seq<Version>>, gv: u64, k: RecordKey, v: Version)
    requires LogOk(log, gv) && VersionOk(v, gv) && v.version == gv
    requires k in log ==> Newer(log[k], gv)
    ensures LogOk(Grown(log, k, v), gv)
  {
    var vs := if k in log then log[k] else [];
    assert forall x :: x in vs + [v] ==> x in vs || x == v;
    assert Rising(vs + [v]);
  }

  lemma {:induction false} StampFind(q: seq<MemTable>, k: RecordKey, v: u64, j: RecordKey, s: u64)
    ensures j != k ==> FindQueued(StampQueue(q, k, v), j, s) == FindQueued(q, j, s)
    ensures j == k && s < v ==> FindQueued(StampQueue(q, k, v), j, s) == None
  {
    if q != [] {
      StampFind(q[..|q| - 1], k, v, j, s);
      assert StampQueue(q, k, v)[..|q| - 1] == StampQueue(q[..|q| - 1], k, v);
    }
  }

  lemma RotatedFind(ms: MemSet, k: RecordKey, s: u64)
    ensures Find(Rotated(ms), k, s) == Find(ms, k, s)
  {
    assert Rotated(ms).queue[..|ms.queue|] == ms.queue;
  }

  /** Once all queued copies are visible a later snapshot finds the same one. */
  lemma {:induction false} FindSettles(q: seq<MemTable>, k: RecordKey, u: u64, s: u64)
    requires forall t :: t in q && k in t.entries ==> t.entries[k].version <= u <= s && t.entries[k].version != INVISIBLE
    ensures FindQueued(q, k, s) == FindQueued(q, k, u)
  {
    if q != [] {
      assert q[|q| - 1] in q;
      FindSettles(q[..|q| - 1], k, u, s);
    }
  }

  /** The tables after a write, as if the full table had not been rotated yet. */
  function Written(ms: MemSet, k: RecordKey, e: MemEntry, locked: bool): MemSet {
    MemSet(PutEntry(ms.active, k, e, e.version), if locked then ms.queue else StampQueue(ms.queue, k, e.version))
  }

  lemma WriteShape(ms: MemSet, k: RecordKey, e: MemEntry, full: bool, locked: bool)
    ensures var w := Written(ms, k, e, locked);
            Publish(Put(ms, k, e, e.version, full), k, e.version, locked) == if full then Rotated(w) else w
  {
    var v, put := e.version, PutEntry(ms.active, k, e, e.version);
    assert StampEntry(put, k, v) == put;
    assert StampQueue(ms.queue + [put], k, v) == StampQueue(ms.queue, k, v) + [put];
    assert StampEntry(EmptyTable, k, v) == EmptyTable;
  }

  lemma NewestGrown(vs: seq<Version>, v: Version, s: u64)
    ensures NewestIn(vs + [v], s) == if v.version <= s then Some(v) else NewestIn(vs, s)
  {
    assert (vs + [v])[..|vs|] == vs;
  }

  lemma QueuedBelow(q: seq<MemTable>, log: map<RecordKey, seq<Version>>, gv: u64, k: RecordKey)
    requires TablesOk(q, log) && LogOk(log, gv) && k in log
    ensures forall t :: t in q && k in t.entries ==>
              t.entries[k].version <= log[k][|log[k]| - 1].version && t.entries[k].version != INVISIBLE
  {
    forall t | t in q && k in t.entries
      ensures t.entries[k].version <= log[k][|log[k]| - 1].version && t.entries[k].version != INVISIBLE
    {
      assert TableOk(t, log) && Stands(t.entries[k], log[k]);
      var v :| v in log[k] && v.version == t.entries[k].version;
      assert VersionOk(v, gv);
    }
  }

  lemma WriteAnswers(l: Lsm, hs: Hashing, a: Step, s: u64)
    requires Inv(l, hs) && a.Write? && Allowed(l, hs, a) && Calm(l, a) && l.horizon <= s
    ensures var e := MemEntry(a.body, l.globalVersion, a.deleted, a.txn);
            AnswersRight(Written(l.mems, a.k, e, a.locked), Grown(l.log, a.k, VersionOf(e)), a.k, s)
  {
    hide TablesOk, RowsOk, HistoryOk, ChunksOk, BloomsOk, RowsAgree, PointingOk, StampsTrue, Rising;
    var e, q, k := MemEntry(a.body, l.globalVersion, a.deleted, a.txn), l.mems.queue, a.k;
    NewestGrown(LogOf(l, k), VersionOf(e), s);
    assert AnswersRight(l.mems, l.log, k, s);
    if s < l.globalVersion && !a.locked {
      StampFind(q, k, l.globalVersion, k, s);
    } else if s < l.globalVersion && k in l.mems.active.entries && l.mems.active.entries[k].version <= s {
      QueuedBelow(q, l.log, l.globalVersion, k);
      FindSettles(q, k, l.mems.active.entries[k].version, s);
      FindSettles(q, k, l.mems.active.entries[k].version, l.globalVersion);
    }
  }

  lemma GrownStands(e: MemEntry, vs: seq<Version>, v: Version)
    requires Stands(e, vs)
    ensures Stands(e, vs + [v])
  {
    var w :| w in vs && w.version == e.version && (w == VersionOf(e) || w.deleted);
    assert w in vs + [v];
  }

  lemma GrownTable(t: MemTable, log: map<RecordKey, seq<Version>>, k: RecordKey, v: Version)
    requires TableOk(t, log)
    ensures TableOk(t, Grown(log, k, v))
  {
    if k in t.entries {
      GrownStands(t.entries[k], log[k], v);
    }
  }

  /** A stamped copy stands at the new version. */
  lemma StampedTable(t: MemTable, log: map<RecordKey, seq<Version>>, k: RecordKey, v: Version)
    requires TableOk(t, log)
    requires k in t.entries ==> v.deleted || VersionOf(t.entries[k].(version := v.version)) == v
    ensures TableOk(StampEntry(t, k, v.version), Grown(log, k, v))
  {
    GrownTable(t, log, k, v);
    if k in t.entries {
      assert v in Grown(log, k, v)[k];
    }
  }

  lemma WriteQueue(l: Lsm, hs: Hashing, a: Step)
    requires Inv(l, hs) && a.Write? && Calm(l, a)
    ensures var e := MemEntry(a.body, l.globalVersion, a.deleted, a.txn);
            TablesOk(Written(l.mems, a.k, e, a.locked).queue, Grown(l.log, a.k, VersionOf(e)))
  {
    var e, q := MemEntry(a.body, l.globalVersion, a.deleted, a.txn), l.mems.queue;
    var q' := Written(l.mems, a.k, e, a.locked).queue;
    forall t | t in q'
      ensures TableOk(t, Grown(l.log, a.k, VersionOf(e)))
    {
      var i :| 0 <= i < |q'| && q'[i] == t;
      assert q[i] in q;
      if a.locked {
        GrownTable(q[i], l.log, a.k, VersionOf(e));
      } else {
        StampedTable(q[i], l.log, a.k, VersionOf(e));
      }
    }
  }

  lemma NewestIsOk(t: MemTable, log: map<RecordKey, seq<Version>>)
    requires HoldsNewest(t, log)
    ensures TableOk(t, log)
  {
    forall k | k in t.entries
      ensures Stands(t.entries[k], log[k])
    {
      assert log[k][|log[k]| - 1] in log[k];
    }
  }

  lemma RotatedOk(ms: MemSet, log: map<RecordKey, seq<Version>>, horizon: u64)
    requires MemsOk(ms, log, horizon)
    ensures MemsOk(Rotated(ms), log, horizon)
  {
    NewestIsOk(ms.active, log);
    forall k, s: u64 | horizon <= s
      ensures AnswersRight(Rotated(ms), log, k, s)
    {
      assert AnswersRight(ms, log, k, s);
      RotatedFind(ms, k, s);
    }
  }

  lemma WriteOthers(l: Lsm, hs: Hashing, a: Step, j: RecordKey, s: u64)
    requires Inv(l, hs) && a.Write? && l.horizon <= s && j != a.k
    ensures var e := MemEntry(a.body, l.globalVersion, a.deleted, a.txn);
            AnswersRight(Written(l.mems, a.k, e, a.locked), Grown(l.log, a.k, VersionOf(e)), j, s)
  {
    assert AnswersRight(l.mems, l.log, j, s);
    hide Inv;
    StampFind(l.mems.queue, a.k, l.globalVersion, j, s);
  }

  lemma WriteActive(l: Lsm, hs: Hashing, a: Step)
    requires Inv(l, hs) && a.Write?
    ensures var e := MemEntry(a.body, l.globalVersion, a.deleted, a.txn);
            HoldsNewest(Written(l.mems, a.k, e, a.locked).active, Grown(l.log, a.k, VersionOf(e)))
  {
  }

  lemma WriteMems(l: Lsm, hs: Hashing, a: Step)
    requires Inv(l, hs) && a.Write? && Allowed(l, hs, a) && Calm(l, a)
    ensures MemsOk(WriteNext(l, a).mems, WriteNext(l, a).log, l.horizon)
  {
    hide Inv, Allowed, Calm, Find, NewestIn, Publish, Put, HoldsNewest, TablesOk, AnswersRight, Written, Rotated;
    var e, k := MemEntry(a.body, l.globalVersion, a.deleted, a.txn), a.k;
    var w, log' := Written(l.mems, k, e, a.locked), Grown(l.log, k, VersionOf(e));
    WriteShape(l.mems, k, e, a.full, a.locked);
    WriteActive(l, hs, a);
    WriteQueue(l, hs, a);
    forall j, s: u64 | l.horizon <= s
      ensures AnswersRight(w, log', j, s)
    {
      if j == k {
        WriteAnswers(l, hs, a, s);
      } else {
        WriteOthers(l, hs, a, j, s);
      }
    }
    RotatedOk(w, log', l.horizon);
  }

  lemma WriteRows(t: Tables, log: map<RecordKey, seq<Version>>, k: RecordKey, row: Row)
    requires RowsOk(t.versions, log)
    ensures RowsOk(PutRow(t, k, row).versions, Grown(log, k, RowVersion(row)))
  {
    var log' := Grown(log, k, RowVersion(row));
    assert RowVersion(row) in log'[k];
    assert forall x :: k in log && x in log[k] ==> x in log'[k];
  }

  lemma WriteHistory(t: Tables, log: map<RecordKey, seq<Version>>, horizon: u64, k: RecordKey, row: Row)
    requires HistoryOk(t.versions, log, horizon)
    ensures HistoryOk(PutRow(t, k, row).versions, Grown(log, k, RowVersion(row)), horizon)
  {
    var log', versions' := Grown(log, k, RowVersion(row)), PutRow(t, k, row).versions;
    forall j | j in log'
      ensures KeyHistoryOk(versions', j, log'[j], horizon)
    {
      assert j in log ==> KeyHistoryOk(t.versions, j, log[j], horizon);
      assert forall v: u64 :: HasRow(t.versions, j, v) ==> HasRow(versions', j, v);
      assert HasRow(versions', k, row.version);
    }
  }

  lemma WriteChunks(t: Tables, chunks: map<string, Chunk>, k: RecordKey, row: Row)
    requires ChunksOk(t.versions, chunks) && row.chunk !in chunks
    ensures ChunksOk(PutRow(t, k, row).versions, chunks)
  {
  }

  lemma WriteTaken(taken: seq<MemTable>, log: map<RecordKey, seq<Version>>, k: RecordKey, v: Version)
    requires TablesOk(taken, log)
    ensures TablesOk(taken, Grown(log, k, v))
  {
    forall t | t in taken
      ensures TableOk(t, Grown(log, k, v))
    {
      GrownTable(t, log, k, v);
    }
  }

  lemma WriteKeeps(l: Lsm, hs: Hashing, a: Step)
    requires Inv(l, hs) && a.Write? && Allowed(l, hs, a) && Calm(l, a)
    ensures Inv(WriteNext(l, a), hs)
  {
    hide LogOk, MemsOk, TablesOk, RowsOk, HistoryOk, ChunksOk, BloomsOk, RowsAgree, IsChunkOf, VisibleKeys, Calm;
    var v := l.globalVersion;
    var e := MemEntry(a.body, v, a.deleted, a.txn);
    var row := Row(v, a.deleted, a.place, a.txn, a.body);
    assert WriteNext(l, a).log == Grown(l.log, a.k, VersionOf(e));
    GvIsBelow(l);
    WriteLog(l.log, v, a.k, VersionOf(e));
    WriteMems(l, hs, a);
    WriteTaken(l.taken, l.log, a.k, VersionOf(e));
    WriteRows(l.rows, l.log, a.k, row);
    WriteHistory(l.rows, l.log, l.horizon, a.k, row);
    WriteChunks(l.rows, l.chunks, a.k, row);
    DoAgrees(l.rows, RowPut(a.k, row));
  }

  lemma GvIsBelow(l: Lsm)
    requires LogOk(l.log, l.globalVersion)
    ensures l.globalVersion < INVISIBLE
  {
  }

  // ---------- Flushing ----------

  lemma TakeKeeps(l: Lsm, hs: Hashing)
    requires Inv(l, hs)
    ensures Inv(Next(l, hs, Take), hs)
  {
    var l' := Next(l, hs, Take);
    forall k, s: u64 | l.horizon <= s
      ensures AnswersRight(l'.mems, l.log, k, s)
    {
      assert AnswersRight(l.mems, l.log, k, s);
    }
  }

  lemma RotateKeeps(l: Lsm, hs: Hashing)
    requires Inv(l, hs)
    ensures Inv(Next(l, hs, Rotate), hs)
  {
    RotatedOk(l.mems, l.log, l.horizon);
    hide MemsOk, TablesOk, ChunksOk, RowsAgree;
  }

  lemma SkipKeeps(l: Lsm, hs: Hashing)
    requires Inv(l, hs) && Allowed(l, hs, Skip)
    ensures Inv(Next(l, hs, Skip), hs)
  {
  }

  lemma StoreKeeps(l: Lsm, hs: Hashing, a: Step)
    requires Inv(l, hs) && a.StoreChunk? && Allowed(l, hs, a)
    ensures Inv(Next(l, hs, a), hs)
  {
  }

  lemma SameVersionSame(vs: seq<Version>, a: Version, b: Version)
    requires Rising(vs) && a in vs && b in vs && a.version == b.version
    ensures a == b
  {
  }

  lemma PointChunks(l: Lsm, hs: Hashing, k: RecordKey)
    requires Inv(l, hs) && Allowed(l, hs, PointAt(k))
    ensures ChunksOk(PointRow(l.rows, k, l.taken[0].entries[k].version, l.pointing.value.0).versions, l.chunks)
  {
    hide MemsOk, HistoryOk, BloomsOk, RowsAgree;
    var t, id := l.taken[0], l.pointing.value.0;
    var v := t.entries[k].version;
    var versions' := PointRow(l.rows, k, v, id).versions;
    assert TableOk(t, l.log) && Stands(t.entries[k], l.log[k]);
    if (k, v) in l.rows.versions && !l.rows.versions[(k, v)].deleted {
      var w :| w in l.log[k] && w.version == v && (w == VersionOf(t.entries[k]) || w.deleted);
      SameVersionSame(l.log[k], RowVersion(l.rows.versions[(k, v)]), w);
      assert Serves(l.chunks[id], k, VersionOf(t.entries[k]));
    }
  }

  lemma PointHistory(t: Tables, log: map<RecordKey, seq<Version>>, horizon: u64, k: RecordKey, v: u64, id: string)
    requires RowsOk(t.versions, log) && HistoryOk(t.versions, log, horizon)
    ensures RowsOk(PointRow(t, k, v, id).versions, log) && HistoryOk(PointRow(t, k, v, id).versions, log, horizon)
  {
    var versions' := PointRow(t, k, v, id).versions;
    forall j | j in log
      ensures KeyHistoryOk(versions', j, log[j], horizon)
    {
      assert KeyHistoryOk(t.versions, j, log[j], horizon);
      assert forall w: u64 :: HasRow(t.versions, j, w) <==> HasRow(versions', j, w);
    }
  }

  lemma PointKeeps(l: Lsm, hs: Hashing, k: RecordKey)
    requires Inv(l, hs) && Allowed(l, hs, PointAt(k))
    ensures Inv(Next(l, hs, PointAt(k)), hs)
  {
    hide LogOk, MemsOk, TablesOk, RowsOk, HistoryOk, ChunksOk, BloomsOk, RowsAgree, IsChunkOf;
    PointChunks(l, hs, k);
    PointHistory(l.rows, l.log, l.horizon, k, l.taken[0].entries[k].version, l.pointing.value.0);
    DoAgrees(l.rows, RowPoint(k, l.taken[0].entries[k].version, l.pointing.value.0));
  }

  lemma FinishKeeps(l: Lsm, hs: Hashing)
    requires Inv(l, hs) && Allowed(l, hs, Finish)
    ensures Inv(Next(l, hs, Finish), hs)
  {
  }

  // ---------- GC ----------

  lemma CollectKeeps(l: Lsm, hs: Hashing, m: u64)
    requires Inv(l, hs)
    ensures Inv(Next(l, hs, Collect(m)), hs)
  {
    DoAgrees(l.rows, RowGc(m));
    var versions', horizon' := GcRows(l.rows, m).versions, MaxOf(l.horizon, Min(m, l.globalVersion));
    forall k | k in l.log
      ensures KeyHistoryOk(versions', k, l.log[k], horizon')
    {
      CollectKey(l, hs, m, k);
    }
  }

  lemma CollectKey(l: Lsm, hs: Hashing, m: u64, k: RecordKey)
    requires Inv(l, hs) && k in l.log
    ensures KeyHistoryOk(GcRows(l.rows, m).versions, k, l.log[k], MaxOf(l.horizon, Min(m, l.globalVersion)))
  {
    hide MemsOk, TablesOk, ChunksOk, BloomsOk, RowsAgree, PointingOk;
    var vs := l.log[k];
    assert KeyHistoryOk(l.rows.versions, k, vs, l.horizon);
    forall i | 0 <= i < |vs| && !HasRow(GcRows(l.rows, m).versions, k, vs[i].version)
      ensures i + 1 < |vs| && vs[i + 1].version <= MaxOf(l.horizon, Min(m, l.globalVersion))
    {
      if HasRow(l.rows.versions, k, vs[i].version) {
        CollectedIsSuperseded(l.rows, m, k, vs, i, l.globalVersion);
      }
    }
  }

  /** A row GC removes has a successor at or below the threshold. */
  lemma CollectedIsSuperseded(t: Tables, m: u64, k: RecordKey, vs: seq<Version>, i: nat, gv: u64)
    requires Rising(vs) && i < |vs| && forall v :: v in vs ==> VersionOk(v, gv)
    requires forall w: u64 :: (k, w) in t.versions ==> t.versions[(k, w)].version == w && RowVersion(t.versions[(k, w)]) in vs
    requires HasRow(t.versions, k, vs[i].version) && !HasRow(GcRows(t, m).versions, k, vs[i].version)
    ensures i + 1 < |vs| && vs[i + 1].version <= Min(m, gv)
  {
    var w: u64 :| (k, w) in t.versions && vs[i].version < w && w <= m;
    var j :| 0 <= j < |vs| && vs[j] == RowVersion(t.versions[(k, w)]);
    assert VersionOk(vs[j], gv);
    assert i < j;
  }

  lemma StepKeeps(l: Lsm, hs: Hashing, a: Step)
    requires Inv(l, hs) && Allowed(l, hs, a) && Calm(l, a)
    ensures Inv(Next(l, hs, a), hs)
  {
    match a
    case NextVersion =>
    case Write(_, _, _, _, _, _, _) => WriteKeeps(l, hs, a);
    case Rotate => RotateKeeps(l, hs);
    case Take => TakeKeeps(l, hs);
    case Skip => SkipKeeps(l, hs);
    case StoreChunk(_, _) => StoreKeeps(l, hs, a);
    case PointAt(k) => PointKeeps(l, hs, k);
    case Finish => FinishKeeps(l, hs);
    case Collect(m) => CollectKeeps(l, hs, m);
  }

  lemma {:induction false} RunKeeps(l: Lsm, hs: Hashing, steps: seq<Step>, l': Lsm)
    requires Inv(l, hs) && Run(l, hs, steps, l')
    ensures Inv(l', hs)
    decreases |steps|
  {
    if steps != [] {
      hide Inv, Allowed, Next;
      StepKeeps(l, hs, steps[0]);
      RunKeeps(Next(l, hs, steps[0]), hs, steps[1..], l');
    }
  }

  // ---------- Agreement ----------

  lemma {:induction false} NewestMeans(vs: seq<Version>, s: u64)
    requires Rising(vs)
    ensures NewestIn(vs, s).None? ==> forall v :: v in vs ==> s < v.version
    ensures NewestIn(vs, s).Some? ==>
              exists i :: 0 <= i < |vs| && vs[i] == NewestIn(vs, s).value && vs[i].version <= s
                          && forall j :: i < j < |vs| ==> s < vs[j].version
  {
    if vs != [] {
      var n := |vs| - 1;
      if vs[n].version > s {
        NewestMeans(vs[..n], s);
        if NewestIn(vs, s).Some? {
          var i :| 0 <= i < n && vs[..n][i] == NewestIn(vs, s).value && vs[i].version <= s
                   && forall j :: i < j < n ==> s < vs[..n][j].version;
          assert vs[i] == NewestIn(vs, s).value && forall j :: i < j < |vs| ==> s < vs[j].version;
        }
      } else {
        assert vs[n] == NewestIn(vs, s).value;
      }
    }
  }

  lemma NewestHasRow(l: Lsm, hs: Hashing, k: RecordKey, s: u64, i: nat)
    requires Inv(l, hs) && l.horizon <= s && k in l.log && i < |l.log[k]| && l.log[k][i].version <= s
    requires forall j :: i < j < |l.log[k]| ==> s < l.log[k][j].version
    ensures (k, l.log[k][i].version) in l.rows.versions && RowVersion(l.rows.versions[(k, l.log[k][i].version)]) == l.log[k][i]
    ensures NewestAt(l.rows.versions, k, s, l.log[k][i].version)
  {
    hide MemsOk, TablesOk, ChunksOk, BloomsOk, RowsAgree, PointingOk;
    var vs, versions := l.log[k], l.rows.versions;
    var v := vs[i].version;
    assert KeyHistoryOk(versions, k, vs, l.horizon);
    assert i + 1 < |vs| ==> s < vs[i + 1].version;
    assert HasRow(versions, k, vs[i].version);
    SameVersionSame(vs, vs[i], RowVersion(versions[(k, v)]));
    forall w: u64 | (k, w) in versions && w <= s
      ensures w <= v
    {
      var j :| 0 <= j < |vs| && vs[j] == RowVersion(versions[(k, w)]);
    }
  }

  /** The history row found at a snapshot the horizon does not exceed is the newest committed version there. */
  lemma HistoryIsRight(l: Lsm, hs: Hashing, k: RecordKey, s: u64)
    requires Inv(l, hs) && l.horizon <= s
    ensures HistoryAt(l.rows.versions, k, s).None? <==> NewestIn(LogOf(l, k), s).None?
    ensures HistoryAt(l.rows.versions, k, s).Some? ==>
              var row := HistoryAt(l.rows.versions, k, s).value;
              && NewestIn(LogOf(l, k), s) == Some(RowVersion(row))
              && (k, row.version) in l.rows.versions && l.rows.versions[(k, row.version)] == row
  {
    hide MemsOk, TablesOk, HistoryOk, ChunksOk, BloomsOk, RowsAgree, PointingOk;
    var vs, versions := LogOf(l, k), l.rows.versions;
    NewestMeans(vs, s);
    if NewestIn(vs, s).Some? {
      var i :| 0 <= i < |vs| && vs[i] == NewestIn(vs, s).value && vs[i].version <= s && forall j :: i < j < |vs| ==> s < vs[j].version;
      NewestHasRow(l, hs, k, s, i);
    } else {
      forall v: u64
        ensures !NewestAt(versions, k, s, v)
      {
        if (k, v) in versions {
          assert RowVersion(versions[(k, v)]) in vs;
        }
      }
    }
  }

  lemma {:induction false} ServedRow(rows: seq<ChunkRow>, k: RecordKey, v: Version, s: u64)
    requires v.version <= s && forall r :: r in rows && r.key == k ==> r.at == v
    ensures BestRow(rows, k, s) == if ChunkRow(k, v) in rows then Some(v) else None
  {
    if rows != [] {
      var n := |rows| - 1;
      ServedRow(rows[..n], k, v, s);
      assert rows == rows[..n] + [rows[n]];
      assert rows[n] in rows;
    }
  }

  lemma RowIsRead(l: Lsm, hs: Hashing, k: RecordKey, s: u64, row: Row)
    requires Inv(l, hs) && (k, row.version) in l.rows.versions && l.rows.versions[(k, row.version)] == row && row.version <= s
    ensures ReadRow(l.chunks, row, hs, k, s) == Some(ResultOf(RowVersion(row)))
  {
    assert VersionOk(RowVersion(row), l.globalVersion);
    if !row.deleted && row.chunk in l.chunks {
      var c := l.chunks[row.chunk];
      assert Serves(c, k, RowVersion(row));
      assert MayContain(c.bloom, hs.encode(k), hs.hash) by {
        assert BloomCovers(c, hs);
      }
      ServedRow(c.rows, k, RowVersion(row), s);
    }
  }

  /** In any state the steps keep, a read at an unpruned snapshot is the newest committed version at or below it. */
  lemma ReadIsRight(l: Lsm, hs: Hashing, k: RecordKey, s: u64)
    requires Inv(l, hs) && l.horizon <= s
    ensures Read(l, hs, k, s) == Right(l, k, s)
  {
    if Find(l.mems, k, s).Some? {
      assert AnswersRight(l.mems, l.log, k, s);
    } else {
      HistoryIsRight(l, hs, k, s);
      hide LogOk, MemsOk, TablesOk, RowsOk, HistoryOk, ChunksOk, BloomsOk, RowsAgree, PointingOk, ReadRow, HistoryAt;
      if HistoryAt(l.rows.versions, k, s).Some? {
        NewestIsBelow(LogOf(l, k), s);
        RowIsRead(l, hs, k, s, HistoryAt(l.rows.versions, k, s).value);
      } else {
        NothingToRead(l, hs, k, s);
      }
    }
  }

  lemma {:induction false} NewestIsBelow(vs: seq<Version>, s: u64)
    ensures NewestIn(vs, s).Some? ==> NewestIn(vs, s).value.version <= s
  {
    if vs != [] {
      NewestIsBelow(vs[..|vs| - 1], s);
    }
  }

  lemma NothingToRead(l: Lsm, hs: Hashing, k: RecordKey, s: u64)
    requires Inv(l, hs) && NewestIn(LogOf(l, k), s).None?
    ensures k in l.rows.latest ==> l.rows.latest[k].version > s
  {
    NewestMeans(LogOf(l, k), s);
    if k in l.rows.latest {
      assert RowVersion(l.rows.versions[(k, l.rows.latest[k].version)]) in LogOf(l, k);
    }
  }

  lemma FreshIsOk(hs: Hashing)
    ensures Inv(Fresh, hs)
  {
  }

  /**
   In every run of calm steps a read at any unpruned snapshot returns body, version and tombstone flag of the
   newest committed version at or below it, whichever of active table, queue, inline history row or chunk answers.
   */
  lemma ReadAgreement(hs: Hashing, steps: seq<Step>, l: Lsm, k: RecordKey, s: u64)
    requires Run(Fresh, hs, steps, l) && l.horizon <= s
    ensures Read(l, hs, k, s) == Right(l, k, s)
  {
    hide Read, NewestIn, Run, Inv;
    FreshIsOk(hs);
    RunKeeps(Fresh, hs, steps, l);
    ReadIsRight(l, hs, k, s);
  }
}
