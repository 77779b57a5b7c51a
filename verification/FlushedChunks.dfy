/**
 What the chunks hold in every run: each version of each record at most once, and the newest version of every
 record once memory is empty. So a cold rebuild from them applies, and what it restores reads right.
 */
module FlushedChunks {
  import opened Primitives
  import opened RecordIndex
  import opened MemTables
  import opened ReadPath
  import opened ReadLimits
  import R = Rebuild

  /** The tables still to become chunks, in the order they will. */
  function Pending(l: Lsm): seq<MemTable> {
    (if l.pointing.Some? && l.taken != [] then l.taken[1..] else l.taken) + l.mems.queue + [l.mems.active]
  }

  /** No version of a record stands in both tables. */
  ghost predicate TablesApart(t: MemTable, u: MemTable) {
    forall k :: k in t.entries && k in u.entries ==> t.entries[k].version != u.entries[k].version
  }

  ghost predicate TableChunkApart(t: MemTable, c: Chunk) {
    forall r :: r in c.rows && r.key in t.entries ==> t.entries[r.key].version != r.at.version
  }

  ghost predicate ChunksApart(c: Chunk, d: Chunk) {
    forall r, q :: r in c.rows && q in d.rows && r.key == q.key ==> r.at.version != q.at.version
  }

  /** The version is a committed one's or older. */
  ghost predicate Known(log: map<RecordKey, seq<Version>>, k: RecordKey, v: u64) {
    k in log && log[k] != [] && v <= log[k][|log[k]| - 1].version && v < INVISIBLE
  }

  ghost predicate TableKnown(t: MemTable, log: map<RecordKey, seq<Version>>) {
    forall k :: k in t.entries ==> Known(log, k, t.entries[k].version) && (t.entries[k].deleted <==> t.entries[k].body == [])
  }

  ghost predicate ChunkKnown(c: Chunk, log: map<RecordKey, seq<Version>>) {
    forall r :: r in c.rows ==> Known(log, r.key, r.at.version) && (r.at.deleted <==> r.at.body == [])
  }

  ghost predicate AllApart(ts: seq<MemTable>, chunks: map<string, Chunk>) {
    && (forall i, j :: 0 <= i < j < |ts| ==> TablesApart(ts[i], ts[j]))
    && (forall t, id :: t in ts && id in chunks ==> TableChunkApart(t, chunks[id]))
    && (forall a, b :: a in chunks && b in chunks && a != b ==> ChunksApart(chunks[a], chunks[b]))
    && (forall id :: id in chunks ==> KeysOnce(chunks[id].rows))
  }

  ghost predicate AllKnown(ts: seq<MemTable>, chunks: map<string, Chunk>, log: map<RecordKey, seq<Version>>) {
    (forall t :: t in ts ==> TableKnown(t, log)) && (forall id :: id in chunks ==> ChunkKnown(chunks[id], log))
  }

  /** Where the record's newest version can still be found. */
  ghost predicate Held(ts: seq<MemTable>, chunks: map<string, Chunk>, k: RecordKey, v: Version) {
    || (exists t :: t in ts && k in t.entries && VersionOf(t.entries[k]) == v)
    || (exists id :: id in chunks && ChunkRow(k, v) in chunks[id].rows)
  }

  ghost predicate NewestHeld(ts: seq<MemTable>, chunks: map<string, Chunk>, log: map<RecordKey, seq<Version>>) {
    forall k :: k in log && log[k] != [] ==> Held(ts, chunks, k, log[k][|log[k]| - 1])
  }

  ghost predicate Kept(ts: seq<MemTable>, chunks: map<string, Chunk>, log: map<RecordKey, seq<Version>>) {
    AllApart(ts, chunks) && AllKnown(ts, chunks, log) && NewestHeld(ts, chunks, log)
  }

  ghost predicate KeptIn(l: Lsm) {
    && l.globalVersion < INVISIBLE && Kept(Pending(l), l.chunks, l.log)
    && (l.pointing.Some? ==> l.taken != [] && l.pointing.value.1 <= VisibleKeys(l.taken[0]))
  }

  /** The write stamps no queued copy: the queue is locked, or does not hold the record. */
  predicate Unstamped(l: Lsm, a: Step) {
    a.Write? && !a.locked ==> forall t :: t in l.mems.queue ==> a.k !in t.entries
  }

  /** A run whose writes stamp no queued copy. */
  ghost predicate Unmixed(l: Lsm, hs: Hashing, steps: seq<Step>, l': Lsm)
    decreases |steps|
  {
    if steps == [] then l == l'
    else Allowed(l, hs, steps[0]) && Unstamped(l, steps[0]) && Unmixed(Next(l, hs, steps[0]), hs, steps[1..], l')
  }

  // ---------- Each step ----------

  /** An empty table more changes nothing. */
  lemma MoreEmpty(ts: seq<MemTable>, chunks: map<string, Chunk>, log: map<RecordKey, seq<Version>>)
    requires Kept(ts, chunks, log)
    ensures Kept(ts + [EmptyTable], chunks, log)
  {
    forall k | k in log && log[k] != []
      ensures Held(ts + [EmptyTable], chunks, k, log[k][|log[k]| - 1])
    {
      assert Held(ts, chunks, k, log[k][|log[k]| - 1]);
    }
  }

  lemma TailApart(ts: seq<MemTable>, chunks: map<string, Chunk>)
    requires AllApart(ts, chunks) && ts != []
    ensures AllApart(ts[1..], chunks)
  {
    hide TablesApart, TableChunkApart, ChunksApart, KeysOnce;
    assert forall t :: t in ts[1..] ==> t in ts;
    assert forall i :: 0 <= i < |ts[1..]| ==> ts[1..][i] == ts[i + 1];
  }

  lemma TailKnown(ts: seq<MemTable>, chunks: map<string, Chunk>, log: map<RecordKey, seq<Version>>)
    requires AllKnown(ts, chunks, log) && ts != []
    ensures AllKnown(ts[1..], chunks, log) && TableKnown(ts[0], log)
  {
    hide TableKnown, ChunkKnown;
    assert ts[0] in ts && forall t :: t in ts[1..] ==> t in ts;
  }

  /** Skipping a table with nothing visible. */
  lemma DropFirst(ts: seq<MemTable>, chunks: map<string, Chunk>, log: map<RecordKey, seq<Version>>)
    requires Kept(ts, chunks, log) && ts != [] && VisibleKeys(ts[0]) == {}
    ensures Kept(ts[1..], chunks, log)
  {
    hide AllApart, AllKnown, Held, VisibleKeys, TableKnown;
    TailApart(ts, chunks);
    TailKnown(ts, chunks, log);
    forall k | k in log && log[k] != []
      ensures Held(ts[1..], chunks, k, log[k][|log[k]| - 1])
    {
      DropHeld(ts, chunks, log, k, log[k][|log[k]| - 1]);
    }
  }

  lemma DropHeld(ts: seq<MemTable>, chunks: map<string, Chunk>, log: map<RecordKey, seq<Version>>, k: RecordKey, v: Version)
    requires ts != [] && TableKnown(ts[0], log) && VisibleKeys(ts[0]) == {} && Held(ts, chunks, k, v)
    ensures Held(ts[1..], chunks, k, v)
  {
    var first := ts[0];
    assert k !in VisibleKeys(first);
    assert k !in first.entries;
    if t :| t in ts && k in t.entries && VersionOf(t.entries[k]) == v {
      assert t in ts[1..];
    }
  }

  lemma ChunkOfApart(t: MemTable, c: Chunk, u: MemTable)
    requires IsChunkOf(c.rows, t) && TablesApart(t, u)
    ensures TableChunkApart(u, c)
  {
  }

  lemma ChunkOfChunkApart(t: MemTable, c: Chunk, d: Chunk)
    requires IsChunkOf(c.rows, t) && TableChunkApart(t, d)
    ensures ChunksApart(c, d) && ChunksApart(d, c)
  {
  }

  /** The first table becomes a chunk. */
  lemma StoreFirst(ts: seq<MemTable>, chunks: map<string, Chunk>, log: map<RecordKey, seq<Version>>, id: string, c: Chunk)
    requires Kept(ts, chunks, log) && ts != [] && id !in chunks && IsChunkOf(c.rows, ts[0])
    ensures Kept(ts[1..], chunks[id := c], log)
  {
    hide AllApart, AllKnown, Held, IsChunkOf, TableKnown;
    StoreApart(ts, chunks, id, c);
    TailKnown(ts, chunks, log);
    StoreKnown(ts[0], c, log);
    KnownToo(ts[1..], chunks, log, id, c);
    forall k | k in log && log[k] != []
      ensures Held(ts[1..], chunks[id := c], k, log[k][|log[k]| - 1])
    {
      StoreHeld(ts, chunks, id, c, log, k);
    }
  }

  lemma StoreKnown(t: MemTable, c: Chunk, log: map<RecordKey, seq<Version>>)
    requires TableKnown(t, log) && IsChunkOf(c.rows, t)
    ensures ChunkKnown(c, log)
  {
  }

  lemma KnownToo(ts: seq<MemTable>, chunks: map<string, Chunk>, log: map<RecordKey, seq<Version>>, id: string, c: Chunk)
    requires AllKnown(ts, chunks, log) && ChunkKnown(c, log)
    ensures AllKnown(ts, chunks[id := c], log)
  {
    hide TableKnown, ChunkKnown;
  }

  lemma StoreHeld(ts: seq<MemTable>, chunks: map<string, Chunk>, id: string, c: Chunk, log: map<RecordKey, seq<Version>>, k: RecordKey)
    requires ts != [] && id !in chunks && IsChunkOf(c.rows, ts[0]) && TableKnown(ts[0], log)
    requires k in log && log[k] != [] && Held(ts, chunks, k, log[k][|log[k]| - 1])
    ensures Held(ts[1..], chunks[id := c], k, log[k][|log[k]| - 1])
  {
    var v := log[k][|log[k]| - 1];
    if t :| t in ts && k in t.entries && VersionOf(t.entries[k]) == v {
      if t == ts[0] {
        assert ChunkRow(k, v) in chunks[id := c][id].rows;
      } else {
        assert t in ts[1..];
      }
    } else {
      var b :| b in chunks && ChunkRow(k, v) in chunks[b].rows;
      assert b in chunks[id := c] && chunks[id := c][b] == chunks[b];
    }
  }

  lemma StoreApart(ts: seq<MemTable>, chunks: map<string, Chunk>, id: string, c: Chunk)
    requires AllApart(ts, chunks) && ts != [] && id !in chunks && IsChunkOf(c.rows, ts[0])
    ensures AllApart(ts[1..], chunks[id := c])
  {
    hide TablesApart, TableChunkApart, ChunksApart, KeysOnce;
    TailApart(ts, chunks);
    assert KeysOnce(c.rows) && ts[0] in ts;
    forall t | t in ts[1..]
      ensures TableChunkApart(t, c)
    {
      var i :| 0 < i < |ts| && ts[i] == t;
      ChunkOfApart(ts[0], c, t);
    }
    forall b | b in chunks
      ensures ChunksApart(chunks[b], c) && ChunksApart(c, chunks[b])
    {
      ChunkOfChunkApart(ts[0], c, chunks[b]);
    }
  }

  /** The active table takes a version newer than anything known of the record. */
  lemma WriteLast(ts: seq<MemTable>, active: MemTable, chunks: map<string, Chunk>, log: map<RecordKey, seq<Version>>,
                  k: RecordKey, e: MemEntry)
    requires Kept(ts + [active], chunks, log) && Newer(LogAt(log, k), e.version) && e.version < INVISIBLE && (e.deleted <==> e.body == [])
    ensures Kept(ts + [PutEntry(active, k, e, e.version)], chunks, Grown(log, k, VersionOf(e)))
  {
    hide AllApart, AllKnown, Held, Grown, PutEntry, Newer;
    var log' := Grown(log, k, VersionOf(e));
    WriteApart(ts, active, chunks, log, k, e);
    WriteKnownAll(ts, active, chunks, log, k, e);
    forall j | j in log' && log'[j] != []
      ensures Held(ts + [PutEntry(active, k, e, e.version)], chunks, j, log'[j][|log'[j]| - 1])
    {
      WriteHeld(ts, active, chunks, log, k, e, j);
    }
  }

  lemma WriteKnownAll(ts: seq<MemTable>, active: MemTable, chunks: map<string, Chunk>, log: map<RecordKey, seq<Version>>,
                      k: RecordKey, e: MemEntry)
    requires AllKnown(ts + [active], chunks, log) && Newer(LogAt(log, k), e.version) && e.version < INVISIBLE && (e.deleted <==> e.body == [])
    ensures AllKnown(ts + [PutEntry(active, k, e, e.version)], chunks, Grown(log, k, VersionOf(e)))
  {
    var was, log' := ts + [active], Grown(log, k, VersionOf(e));
    assert active in was && forall t :: t in ts ==> t in was;
    hide TableKnown, ChunkKnown, PutEntry, Grown, Newer;
    WriteKnown(active, log, k, e);
    forall t | t in ts
      ensures TableKnown(t, log')
    {
      WriteKnown(t, log, k, e);
    }
    forall id | id in chunks
      ensures ChunkKnown(chunks[id], log')
    {
      ChunkStaysKnown(chunks[id], log, k, e);
    }
  }

  lemma ChunkStaysKnown(c: Chunk, log: map<RecordKey, seq<Version>>, k: RecordKey, e: MemEntry)
    requires ChunkKnown(c, log) && Newer(LogAt(log, k), e.version)
    ensures ChunkKnown(c, Grown(log, k, VersionOf(e)))
  {
  }

  lemma WriteKnown(t: MemTable, log: map<RecordKey, seq<Version>>, k: RecordKey, e: MemEntry)
    requires TableKnown(t, log) && Newer(LogAt(log, k), e.version) && e.version < INVISIBLE && (e.deleted <==> e.body == [])
    ensures TableKnown(t, Grown(log, k, VersionOf(e))) && TableKnown(PutEntry(t, k, e, e.version), Grown(log, k, VersionOf(e)))
  {
  }

  lemma WriteHeld(ts: seq<MemTable>, active: MemTable, chunks: map<string, Chunk>, log: map<RecordKey, seq<Version>>,
                  k: RecordKey, e: MemEntry, j: RecordKey)
    requires NewestHeld(ts + [active], chunks, log) && j in Grown(log, k, VersionOf(e)) && Grown(log, k, VersionOf(e))[j] != []
    ensures var log' := Grown(log, k, VersionOf(e));
            Held(ts + [PutEntry(active, k, e, e.version)], chunks, j, log'[j][|log'[j]| - 1])
  {
    var put := PutEntry(active, k, e, e.version);
    var now := ts + [put];
    assert put in now;
    if j != k {
      var v := log[j][|log[j]| - 1];
      assert Held(ts + [active], chunks, j, v);
      if t :| t in ts + [active] && j in t.entries && VersionOf(t.entries[j]) == v {
        assert t in ts ==> t in now;
      }
    }
  }

  lemma WriteApart(ts: seq<MemTable>, active: MemTable, chunks: map<string, Chunk>, log: map<RecordKey, seq<Version>>,
                   k: RecordKey, e: MemEntry)
    requires AllApart(ts + [active], chunks) && AllKnown(ts + [active], chunks, log) && Newer(LogAt(log, k), e.version)
    ensures AllApart(ts + [PutEntry(active, k, e, e.version)], chunks)
  {
    var was, put := ts + [active], PutEntry(active, k, e, e.version);
    assert active in was && forall t :: t in ts ==> t in was;
    forall i | 0 <= i < |ts|
      ensures TablesApart(ts[i], put)
    {
      assert was[i] == ts[i] && TablesApart(was[i], was[|ts|]) && TableKnown(ts[i], log);
    }
    forall id | id in chunks
      ensures TableChunkApart(put, chunks[id])
    {
      assert TableChunkApart(active, chunks[id]) && ChunkKnown(chunks[id], log);
    }
    hide TablesApart, TableChunkApart, ChunksApart, KeysOnce, AllKnown;
    assert forall i :: 0 <= i < |ts| ==> was[i] == ts[i];
  }

  // ---------- Every run ----------

  lemma SameQueue(q: seq<MemTable>, k: RecordKey, v: u64)
    requires forall t :: t in q ==> k !in t.entries
    ensures StampQueue(q, k, v) == q
  {
    assert forall i :: 0 <= i < |q| ==> q[i] in q;
  }

  function Waiting(l: Lsm): seq<MemTable> {
    (if l.pointing.Some? && l.taken != [] then l.taken[1..] else l.taken) + l.mems.queue
  }

  lemma WrittenPending(l: Lsm, hs: Hashing, a: Step)
    requires Allowed(l, hs, a) && a.Write? && Unstamped(l, a)
    ensures var l', e := Next(l, hs, a), MemEntry(a.body, l.globalVersion, a.deleted, a.txn);
            var put := PutEntry(l.mems.active, a.k, e, e.version);
            && l' == l.(mems := l'.mems, rows := l'.rows, log := Grown(l.log, a.k, VersionOf(e)))
            && Pending(l') == Waiting(l) + [put] + if a.full then [EmptyTable] else []
  {
    hide PutRow, PutEntry;
    var e := MemEntry(a.body, l.globalVersion, a.deleted, a.txn);
    WriteShape(l.mems, a.k, e, a.full, a.locked);
    if !a.locked {
      SameQueue(l.mems.queue, a.k, e.version);
    }
  }

  lemma WriteKeeps(l: Lsm, hs: Hashing, a: Step)
    requires KeptIn(l) && Allowed(l, hs, a) && a.Write? && Unstamped(l, a)
    ensures KeptIn(Next(l, hs, a))
  {
    WrittenPending(l, hs, a);
    hide Kept, WriteNext, VisibleKeys, PutEntry, Grown, Next;
    var e, l' := MemEntry(a.body, l.globalVersion, a.deleted, a.txn), Next(l, hs, a);
    var ts, put := Waiting(l), PutEntry(l.mems.active, a.k, e, e.version);
    assert Pending(l) == ts + [l.mems.active];
    WriteLast(ts, l.mems.active, l.chunks, l.log, a.k, e);
    if a.full {
      MoreEmpty(ts + [put], l.chunks, l'.log);
    } else {
      assert Pending(l') == ts + [put];
    }
  }

  lemma StepKeepsApart(l: Lsm, hs: Hashing, a: Step)
    requires KeptIn(l) && Allowed(l, hs, a) && Unstamped(l, a)
    ensures KeptIn(Next(l, hs, a))
  {
    hide Kept, IsChunkOf, BloomCovers, VisibleKeys, PutRow, PointRow, GcRows;
    var l' := Next(l, hs, a);
    match a
    case Write(_, _, _, _, _, _, _) => WriteKeeps(l, hs, a);
    case Rotate =>
      MoreEmpty(Pending(l), l.chunks, l.log);
      assert Pending(l') == Pending(l) + [EmptyTable];
    case Take =>
      assert Pending(l') == Pending(l);
    case Skip =>
      DropFirst(Pending(l), l.chunks, l.log);
      assert Pending(l') == Pending(l)[1..];
    case StoreChunk(id, c) =>
      assert Pending(l)[0] == l.taken[0];
      StoreFirst(Pending(l), l.chunks, l.log, id, c);
      assert Pending(l') == Pending(l)[1..];
    case Finish =>
      assert Pending(l') == Pending(l);
    case _ =>
  }

  /** In every run whose writes stamp no queued copy, no version of a record stands in two places. */
  lemma {:induction false} UnmixedKeeps(l: Lsm, hs: Hashing, steps: seq<Step>, l': Lsm)
    requires KeptIn(l) && Unmixed(l, hs, steps, l')
    ensures KeptIn(l')
    decreases |steps|
  {
    if steps != [] {
      hide KeptIn, Next, Allowed, Unstamped;
      StepKeepsApart(l, hs, steps[0]);
      UnmixedKeeps(Next(l, hs, steps[0]), hs, steps[1..], l');
    }
  }

  lemma FreshIsKept()
    ensures KeptIn(Fresh)
  {
    assert Pending(Fresh) == [EmptyTable];
  }

  // ---------- No version of a record in two chunks: exactly when no queued copy is stamped ----------

  ghost predicate EachOnce(chunks: map<string, Chunk>) {
    && (forall a, b :: a in chunks && b in chunks && a != b ==> ChunksApart(chunks[a], chunks[b]))
    && (forall id :: id in chunks ==> KeysOnce(chunks[id].rows))
  }

  /** Whatever unmixed steps follow, the chunks hold each version of each record once. */
  ghost predicate StaysOnce(l: Lsm, hs: Hashing) {
    forall steps, l' :: Unmixed(l, hs, steps, l') ==> EachOnce(l'.chunks)
  }

  lemma {:induction false} FlushIsUnmixed(l: Lsm, hs: Hashing, steps: seq<Step>, l': Lsm)
    requires Run(l, hs, steps, l') && NoWrites(steps)
    ensures Unmixed(l, hs, steps, l')
    decreases |steps|
  {
    if steps != [] {
      hide Next, Allowed;
      assert NoWrites(steps[1..]);
      FlushIsUnmixed(Next(l, hs, steps[0]), hs, steps[1..], l');
    }
  }

  /** After the write the stamped copy and the active one both stand at the new version. */
  lemma BothStand(l: Lsm, hs: Hashing, a: Step, i: nat)
    requires Allowed(l, hs, a) && a.Write? && !a.locked && i < |l.mems.queue| && a.k in l.mems.queue[i].entries
    ensures var ts := HandedOver(Next(l, hs, a)).taken;
            && |l.taken| + |l.mems.queue| < |ts| && (l.taken != [] ==> ts[0] == l.taken[0])
            && a.k in ts[|l.taken| + i].entries && ts[|l.taken| + i].entries[a.k].version == l.globalVersion
            && a.k in ts[|l.taken| + |l.mems.queue|].entries && ts[|l.taken| + |l.mems.queue|].entries[a.k].version == l.globalVersion
    ensures HandedOver(Next(l, hs, a)).pointing == l.pointing
  {
    WriteShape(l.mems, a.k, MemEntry(a.body, l.globalVersion, a.deleted, a.txn), a.full, a.locked);
  }

  /** Flushes up to one table and stores it. */
  lemma FlushTo(l: Lsm, hs: Hashing, n: nat) returns (steps: seq<Step>, l': Lsm, id: string)
    requires n < |l.taken| && VisibleKeys(l.taken[n]) != {} && (n == 0 ==> l.pointing.None?)
    requires l.pointing.Some? ==> l.pointing.value.1 <= l.taken[0].entries.Keys
    ensures Run(l, hs, steps, l') && NoWrites(steps) && l'.taken == l.taken[n + 1..] && l'.pointing.None?
    ensures id !in l.chunks && Grew(l.chunks, l'.chunks) && id in l'.chunks && IsChunkOf(l'.chunks[id].rows, l.taken[n])
  {
    hide Run, Flushing, IsChunkOf, VisibleKeys;
    var some, l1 := FlushMany(l, hs, n);
    var more, l2;
    more, l2, id := StoreAndPoint(l1, hs);
    RunThen(l, hs, some, l1, more, l2);
    RunStep(l, hs, some + more, l2, Finish);
    steps, l' := some + more + [Finish], Next(l2, hs, Finish);
  }

  /** Flushes two tables that hold the same version of a record. */
  lemma FlushBoth(l: Lsm, hs: Hashing, n: nat, m: nat, k: RecordKey, v: u64)
    returns (steps: seq<Step>, l': Lsm, id1: string, id2: string)
    requires n < m < |l.taken| && (n == 0 ==> l.pointing.None?) && v != INVISIBLE
    requires l.pointing.Some? ==> l.pointing.value.1 <= l.taken[0].entries.Keys
    requires k in l.taken[n].entries && l.taken[n].entries[k].version == v
    requires k in l.taken[m].entries && l.taken[m].entries[k].version == v
    ensures Run(l, hs, steps, l') && NoWrites(steps) && id1 in l'.chunks && id2 in l'.chunks && id1 != id2
    ensures exists r1, r2 :: r1 in l'.chunks[id1].rows && r2 in l'.chunks[id2].rows && r1.key == r2.key == k &&
                             r1.at.version == r2.at.version == v
  {
    hide Run;
    assert k in VisibleKeys(l.taken[n]) && k in VisibleKeys(l.taken[m]);
    var l1, more;
    steps, l1, id1 := FlushTo(l, hs, n);
    assert l1.taken[m - n - 1] == l.taken[m];
    more, l', id2 := FlushTo(l1, hs, m - n - 1);
    RunThen(l, hs, steps, l1, more, l');
    steps := steps + more;
    assert ChunkRow(k, VersionOf(l.taken[n].entries[k])) in l'.chunks[id1].rows;
    assert ChunkRow(k, VersionOf(l.taken[m].entries[k])) in l'.chunks[id2].rows;
  }

  lemma StampedTwice(l: Lsm, hs: Hashing, a: Step, i: nat) returns (steps: seq<Step>, l': Lsm, id1: string, id2: string)
    requires KeptIn(l) && Allowed(l, hs, a) && a.Write? && !a.locked && i < |l.mems.queue| && a.k in l.mems.queue[i].entries
    ensures Unmixed(Next(l, hs, a), hs, steps, l') && id1 in l'.chunks && id2 in l'.chunks && id1 != id2
    ensures exists r1, r2 :: r1 in l'.chunks[id1].rows && r2 in l'.chunks[id2].rows && r1.key == r2.key == a.k &&
                             r1.at.version == r2.at.version == l.globalVersion
  {
    BothStand(l, hs, a, i);
    hide Run, Kept, WriteNext, Next, Allowed;
    var l0 := Next(l, hs, a);
    HandOver(l0, hs);
    var more;
    more, l', id1, id2 := FlushBoth(HandedOver(l0), hs, |l.taken| + i, |l.taken| + |l.mems.queue|, a.k, l.globalVersion);
    RunThen(l0, hs, [Rotate, Take], HandedOver(l0), more, l');
    steps := [Rotate, Take] + more;
    FlushIsUnmixed(l0, hs, steps, l');
  }

  lemma KeptIsOnce(l: Lsm)
    requires KeptIn(l)
    ensures EachOnce(l.chunks)
  {
  }

  /** A step leaves the chunks' versions distinct for good if and only if it stamps no queued copy. */
  lemma UnstampedIsExact(l: Lsm, hs: Hashing, a: Step)
    requires KeptIn(l) && Allowed(l, hs, a)
    ensures Unstamped(l, a) <==> StaysOnce(Next(l, hs, a), hs)
  {
    hide KeptIn, Allowed, Next, EachOnce;
    if Unstamped(l, a) {
      StepKeepsApart(l, hs, a);
      forall steps, l' | Unmixed(Next(l, hs, a), hs, steps, l')
        ensures EachOnce(l'.chunks)
      {
        UnmixedKeeps(Next(l, hs, a), hs, steps, l');
        KeptIsOnce(l');
      }
    } else {
      var t :| t in l.mems.queue && a.k in t.entries;
      var i :| 0 <= i < |l.mems.queue| && l.mems.queue[i] == t;
      var steps, l', id1, id2 := StampedTwice(l, hs, a, i);
      TwiceIsNotOnce(l'.chunks, id1, id2, a.k, l.globalVersion);
    }
  }

  lemma TwiceIsNotOnce(chunks: map<string, Chunk>, a: string, b: string, k: RecordKey, v: u64)
    requires a in chunks && b in chunks && a != b
    requires exists r, q :: r in chunks[a].rows && q in chunks[b].rows && r.key == q.key == k && r.at.version == q.at.version == v
    ensures !EachOnce(chunks)
  {
    assert !ChunksApart(chunks[a], chunks[b]);
  }

  // ---------- The cold rebuild from them ----------

  function ItemOf(r: ChunkRow): R.Item {
    R.Item(r.key, r.at.version, r.at.body, r.at.deleted, r.at.txn)
  }

  predicate IsXtc(s3Key: string) {
    |s3Key| >= 4 && s3Key[|s3Key| - 4..] == ".xtc"
  }

  /** The listed chunk objects are these chunks, each once, all of them decodable. */
  ghost predicate Lists(ls: seq<R.Listing>, chunks: map<string, Chunk>) {
    && (forall a :: 0 <= a < |ls| && IsXtc(ls[a].s3Key) ==> ls[a].decoded.Some? && ListsOne(ls[a].decoded.value, chunks))
    && (forall a, b :: 0 <= a < b < |ls| && IsXtc(ls[a].s3Key) && IsXtc(ls[b].s3Key) && ls[a].decoded.Some? && ls[b].decoded.Some? ==>
          ls[a].decoded.value.chunkId != ls[b].decoded.value.chunkId)
    && (forall id :: id in chunks ==> exists a :: 0 <= a < |ls| && IsXtc(ls[a].s3Key) && ls[a].decoded.Some? && ls[a].decoded.value.chunkId == id)
  }

  ghost predicate ListsOne(d: R.Decoded, chunks: map<string, Chunk>) {
    && d.chunkId in chunks && |d.items| == |chunks[d.chunkId].rows|
    && forall i :: 0 <= i < |d.items| ==> d.items[i] == ItemOf(chunks[d.chunkId].rows[i])
  }

  lemma ListedRow(ls: seq<R.Listing>, chunks: map<string, Chunk>, a: int, i: int) returns (r: ChunkRow)
    requires Lists(ls, chunks) && R.At(ls, a, i)
    ensures ls[a].decoded.value.chunkId in chunks && i < |chunks[ls[a].decoded.value.chunkId].rows|
    ensures r == chunks[ls[a].decoded.value.chunkId].rows[i] && R.ItemAt(ls, a, i) == ItemOf(r)
  {
    assert IsXtc(ls[a].s3Key);
    r := chunks[ls[a].decoded.value.chunkId].rows[i];
  }

  lemma RowListed(ls: seq<R.Listing>, chunks: map<string, Chunk>, id: string, i: nat) returns (a: int)
    requires Lists(ls, chunks) && id in chunks && i < |chunks[id].rows|
    ensures R.At(ls, a, i) && ls[a].decoded.value.chunkId == id && R.ItemAt(ls, a, i) == ItemOf(chunks[id].rows[i])
  {
    a :| 0 <= a < |ls| && IsXtc(ls[a].s3Key) && ls[a].decoded.Some? && ls[a].decoded.value.chunkId == id;
    assert ListsOne(ls[a].decoded.value, chunks);
  }

  lemma ListedApart(ls: seq<R.Listing>, chunks: map<string, Chunk>, a: int, i: int, b: int, j: int)
    requires Lists(ls, chunks) && EachOnce(chunks) && R.At(ls, a, i) && R.At(ls, b, j) && (a, i) != (b, j)
    requires R.ItemAt(ls, a, i).key == R.ItemAt(ls, b, j).key
    ensures R.ItemAt(ls, a, i).version != R.ItemAt(ls, b, j).version
  {
    var r := ListedRow(ls, chunks, a, i);
    var q := ListedRow(ls, chunks, b, j);
    var c, d := ls[a].decoded.value.chunkId, ls[b].decoded.value.chunkId;
    IdsApart(ls, chunks, a, b);
    hide Lists;
    assert KeysOnce(chunks[c].rows) && (c != d ==> ChunksApart(chunks[c], chunks[d]));
  }

  lemma IdsApart(ls: seq<R.Listing>, chunks: map<string, Chunk>, a: int, b: int)
    requires Lists(ls, chunks) && 0 <= a < |ls| && 0 <= b < |ls| && IsXtc(ls[a].s3Key) && IsXtc(ls[b].s3Key)
    ensures ls[a].decoded.Some? && ls[b].decoded.Some?
    ensures a != b ==> ls[a].decoded.value.chunkId != ls[b].decoded.value.chunkId
  {
  }

  /** The precondition of a rebuild, for chunks that hold each version once. */
  lemma ListingIsDistinct(ls: seq<R.Listing>, chunks: map<string, Chunk>)
    requires Lists(ls, chunks) && EachOnce(chunks)
    ensures R.PairsDistinct(ls) && R.IdsDistinct(ls)
  {
    forall a, i, b, j | R.At(ls, a, i) && R.At(ls, b, j) && (a, i) != (b, j) && R.ItemAt(ls, a, i).key == R.ItemAt(ls, b, j).key
      ensures R.ItemAt(ls, a, i).version != R.ItemAt(ls, b, j).version
    {
      ListedApart(ls, chunks, a, i, b, j);
    }
    forall a, b | 0 <= a < b < |ls| && R.Usable(ls[a]) && R.Usable(ls[b])
      ensures ls[a].decoded.value.chunkId != ls[b].decoded.value.chunkId
    {
      assert IsXtc(ls[a].s3Key) && IsXtc(ls[b].s3Key);
    }
  }

  /** The row is some chunk's newest of the record at or below the snapshot. */
  ghost predicate NewestFlushed(chunks: map<string, Chunk>, k: RecordKey, s: u64, v: Version) {
    && v.version <= s && (exists id :: id in chunks && ChunkRow(k, v) in chunks[id].rows)
    && forall id, r :: id in chunks && r in chunks[id].rows && r.key == k && r.at.version <= s ==> r.at.version <= v.version
  }

  ghost predicate NothingFlushed(chunks: map<string, Chunk>, k: RecordKey, s: u64) {
    forall id, r :: id in chunks && r in chunks[id].rows && r.key == k ==> s < r.at.version
  }

  /** Bodies are empty exactly for tombstones. */
  ghost predicate Tidy(chunks: map<string, Chunk>) {
    forall id, r :: id in chunks && r in chunks[id].rows ==> (r.at.deleted <==> r.at.body == [])
  }

  const NoMemory := MemSet(EmptyTable, [])

  /** A rebuilt index row keeps no filter, and without one a chunk is always looked into. */
  function Unfiltered(chunks: map<string, Chunk>): map<string, Chunk> {
    map id | id in chunks :: Chunk(chunks[id].rows, [])
  }

  /** A read with empty memory, through the rebuilt tables. */
  ghost function RebuiltRead(r: R.Rebuilt, chunks: map<string, Chunk>, hs: Hashing, k: RecordKey, s: u64): Option<ReadResult> {
    ReadIn(NoMemory, Tables(r.latest, r.versions), Unfiltered(chunks), hs, k, s)
  }

  /** Each restored history row is a chunk's row, and points at that chunk. */
  lemma RestoredRow(ls: seq<R.Listing>, chunks: map<string, Chunk>, r: R.Rebuilt, k: RecordKey, v: u64) returns (id: string, row: ChunkRow)
    requires Lists(ls, chunks) && R.Restores(ls, r) && (k, v) in r.versions
    ensures id in chunks && row in chunks[id].rows && row.key == k && row.at.version == v
    ensures r.versions[(k, v)] == Row(v, row.at.deleted, id, row.at.txn, row.at.body)
  {
    hide R.LatestFrom, R.EntryFrom, Lists;
    assert R.HistoryFrom(ls, (k, v));
    var a, i :| R.At(ls, a, i) && R.ItemAt(ls, a, i).key == k && R.ItemAt(ls, a, i).version == v;
    row := ListedRow(ls, chunks, a, i);
    id := ls[a].decoded.value.chunkId;
    assert R.RestoresAt(ls, r, a, i);
  }

  /** And every chunk's row is restored. */
  lemma RowRestored(ls: seq<R.Listing>, chunks: map<string, Chunk>, r: R.Rebuilt, id: string, row: ChunkRow)
    requires Lists(ls, chunks) && R.Restores(ls, r) && id in chunks && row in chunks[id].rows
    ensures (row.key, row.at.version) in r.versions && row.at.version <= r.globalVersion
  {
    hide R.LatestFrom, R.EntryFrom, R.HistoryFrom, Lists;
    var i :| 0 <= i < |chunks[id].rows| && chunks[id].rows[i] == row;
    var a := RowListed(ls, chunks, id, i);
    assert R.RestoresAt(ls, r, a, i);
  }

  lemma RestoredReads(chunks: map<string, Chunk>, hs: Hashing, id: string, row: ChunkRow, s: u64)
    requires EachOnce(chunks) && Tidy(chunks) && id in chunks && row in chunks[id].rows && row.at.version <= s
    ensures ReadRow(Unfiltered(chunks), Row(row.at.version, row.at.deleted, id, row.at.txn, row.at.body), hs, row.key, s) == Some(ResultOf(row.at))
  {
    hide ChunksApart;
    var c := Unfiltered(chunks)[id];
    assert KeysOnce(chunks[id].rows) && c.rows == chunks[id].rows;
    assert forall q :: q in c.rows && q.key == row.key ==> q.at == row.at;
    ServedRow(c.rows, row.key, row.at, s);
    assert row == ChunkRow(row.key, row.at);
  }

  /** Any read through the rebuilt tables returns the newest flushed version at or below the snapshot. */
  lemma RebuiltReads(ls: seq<R.Listing>, chunks: map<string, Chunk>, hs: Hashing, r: R.Rebuilt, k: RecordKey, s: u64)
    requires Lists(ls, chunks) && R.Restores(ls, r) && EachOnce(chunks) && Tidy(chunks)
    ensures RebuiltRead(r, chunks, hs, k, s).None? <==> NothingFlushed(chunks, k, s)
    ensures RebuiltRead(r, chunks, hs, k, s).Some? ==>
              exists v :: NewestFlushed(chunks, k, s, v) && RebuiltRead(r, chunks, hs, k, s) == Some(ResultOf(v))
  {
    hide Lists, EachOnce, Tidy, R.Restores;
    assert Find(NoMemory, k, s).None?;
    if v: u64 :| NewestAt(r.versions, k, s, v) {
      HistoryOnly(r.versions, k, s, v);
      var id, row := RestoredRow(ls, chunks, r, k, v);
      RestoredReads(chunks, hs, id, row, s);
      assert row == ChunkRow(k, row.at);
      forall id2, q | id2 in chunks && q in chunks[id2].rows && q.key == k && q.at.version <= s
        ensures q.at.version <= row.at.version
      {
        RowRestored(ls, chunks, r, id2, q);
      }
      assert NewestFlushed(chunks, k, s, row.at);
    } else {
      NothingRestored(ls, chunks, r, k, s);
    }
  }

  lemma HistoryOnly(versions: VersionTable, k: RecordKey, s: u64, v: u64)
    requires NewestAt(versions, k, s, v)
    ensures HistoryAt(versions, k, s) == Some(versions[(k, v)])
  {
    forall w: u64 | NewestAt(versions, k, s, w)
      ensures w == v
    {
      assert (k, w) in versions && (k, v) in versions;
    }
  }

  lemma NothingRestored(ls: seq<R.Listing>, chunks: map<string, Chunk>, r: R.Rebuilt, k: RecordKey, s: u64)
    requires Lists(ls, chunks) && R.Restores(ls, r) && forall v: u64 :: !NewestAt(r.versions, k, s, v)
    ensures NothingFlushed(chunks, k, s) && HistoryAt(r.versions, k, s).None? && (k in r.latest ==> s < r.latest[k].version)
  {
    hide Lists, R.EntryFrom, R.HistoryFrom;
    NothingBelow(r.versions, k, s);
    forall id, q | id in chunks && q in chunks[id].rows && q.key == k
      ensures s < q.at.version
    {
      RowRestored(ls, chunks, r, id, q);
    }
    if k in r.latest {
      assert R.LatestFrom(ls, k, r.latest[k]);
      var a, i :| R.At(ls, a, i) && R.ItemAt(ls, a, i).key == k &&
                  R.RowSays(r.latest[k].(body := R.ItemAt(ls, a, i).body), ls[a], R.ItemAt(ls, a, i));
      assert R.RestoresAt(ls, r, a, i);
    }
  }

  lemma NothingBelow(versions: VersionTable, k: RecordKey, s: u64)
    requires forall v: u64 :: !NewestAt(versions, k, s, v)
    ensures forall v: u64 :: (k, v) in versions ==> s < v
  {
    var below := set x | x in versions && x.0 == k && x.1 <= s :: x.1;
    if v: u64 :| (k, v) in versions && v <= s {
      assert v in below;
      var m := Greatest(below);
      forall w: u64 | (k, w) in versions && w <= s
        ensures w <= m
      {
        assert (k, w).1 in below;
      }
      assert NewestAt(versions, k, s, m);
    }
  }

  lemma {:induction false} Greatest(vs: set<u64>) returns (m: u64)
    requires vs != {}
    ensures m in vs && forall v :: v in vs ==> v <= m
  {
    var v :| v in vs;
    if vs == {v} {
      m := v;
    } else {
      var rest := Greatest(vs - {v});
      m := if rest < v then v else rest;
      assert forall w :: w in vs ==> w == v || w in vs - {v};
    }
  }

  // ---------- Nothing committed is lost ----------

  ghost predicate Flushed(l: Lsm) {
    l.mems == NoMemory && l.taken == [] && l.pointing.None?
  }

  lemma KeptIsTidy(l: Lsm)
    requires KeptIn(l)
    ensures Tidy(l.chunks)
  {
    hide AllApart, NewestHeld;
    assert forall id, r :: id in l.chunks && r in l.chunks[id].rows ==> ChunkKnown(l.chunks[id], l.log);
  }

  /** With memory empty the newest version of every record is the newest flushed one, at its version and above. */
  lemma NewestIsFlushed(l: Lsm, k: RecordKey, s: u64, v: Version)
    requires KeptIn(l) && Flushed(l) && k in l.log && l.log[k] != [] && l.log[k][|l.log[k]| - 1].version <= s
    requires NewestFlushed(l.chunks, k, s, v)
    ensures v == l.log[k][|l.log[k]| - 1]
  {
    KeptIsOnce(l);
    var id, row := NewestHasRow(l, k);
    var b :| b in l.chunks && ChunkRow(k, v) in l.chunks[b].rows;
    NotNewer(l, b, ChunkRow(k, v));
    hide KeptIn, EachOnce;
    SamePlace(l.chunks, id, row, b, ChunkRow(k, v));
  }

  lemma NotNewer(l: Lsm, b: string, r: ChunkRow)
    requires KeptIn(l) && b in l.chunks && r in l.chunks[b].rows && r.key in l.log && l.log[r.key] != []
    ensures r.at.version <= l.log[r.key][|l.log[r.key]| - 1].version
  {
    hide AllApart, NewestHeld;
    assert ChunkKnown(l.chunks[b], l.log);
  }

  lemma SamePlace(chunks: map<string, Chunk>, a: string, r: ChunkRow, b: string, q: ChunkRow)
    requires EachOnce(chunks) && a in chunks && b in chunks && r in chunks[a].rows && q in chunks[b].rows
    requires r.key == q.key && r.at.version == q.at.version
    ensures r == q
  {
    var c, d := chunks[a], chunks[b];
    assert KeysOnce(c.rows) && (a != b ==> ChunksApart(c, d));
  }

  /**
   After any unmixed run that leaves nothing in memory a cold rebuild of its chunks applies, and through what it
   restores every record reads as its newest committed version, at that version's snapshot and all later ones.
   */
  lemma RebuildRecovers(hs: Hashing, steps: seq<Step>, l: Lsm, ls: seq<R.Listing>, r: R.Rebuilt, k: RecordKey, s: u64)
    requires Unmixed(Fresh, hs, steps, l) && Flushed(l) && Lists(ls, l.chunks) && R.Restores(ls, r)
    requires k in l.log && l.log[k] != [] && l.log[k][|l.log[k]| - 1].version <= s
    ensures R.PairsDistinct(ls) && R.IdsDistinct(ls)
    ensures RebuiltRead(r, l.chunks, hs, k, s) == Right(l, k, s) == Some(ResultOf(l.log[k][|l.log[k]| - 1]))
    ensures l.log[k][|l.log[k]| - 1].version <= r.globalVersion
  {
    hide Unmixed, KeptIn, Lists, R.Restores, R.PairsDistinct, R.IdsDistinct, RebuiltRead, Tidy, EachOnce;
    FreshIsKept();
    UnmixedKeeps(Fresh, hs, steps, l);
    KeptIsOnce(l);
    ListingIsDistinct(ls, l.chunks);
    RecoversFrom(l, hs, ls, r, k, s);
  }

  lemma RecoversFrom(l: Lsm, hs: Hashing, ls: seq<R.Listing>, r: R.Rebuilt, k: RecordKey, s: u64)
    requires KeptIn(l) && Flushed(l) && Lists(ls, l.chunks) && R.Restores(ls, r)
    requires k in l.log && l.log[k] != [] && l.log[k][|l.log[k]| - 1].version <= s
    ensures RebuiltRead(r, l.chunks, hs, k, s) == Some(ResultOf(l.log[k][|l.log[k]| - 1]))
    ensures l.log[k][|l.log[k]| - 1].version <= r.globalVersion
  {
    hide KeptIn, Tidy, EachOnce, Lists, R.Restores, RebuiltRead, NewestFlushed;
    KeptIsTidy(l);
    KeptIsOnce(l);
    RebuiltReads(ls, l.chunks, hs, r, k, s);
    var id, row := NewestHasRow(l, k);
    RowRestored(ls, l.chunks, r, id, row);
    if RebuiltRead(r, l.chunks, hs, k, s).Some? {
      var v :| NewestFlushed(l.chunks, k, s, v) && RebuiltRead(r, l.chunks, hs, k, s) == Some(ResultOf(v));
      NewestIsFlushed(l, k, s, v);
    }
  }

  lemma NewestHasRow(l: Lsm, k: RecordKey) returns (id: string, row: ChunkRow)
    requires KeptIn(l) && Flushed(l) && k in l.log && l.log[k] != []
    ensures id in l.chunks && row in l.chunks[id].rows && row == ChunkRow(k, l.log[k][|l.log[k]| - 1])
  {
    var last := l.log[k][|l.log[k]| - 1];
    assert Pending(l) == [EmptyTable];
    assert Held(Pending(l), l.chunks, k, last);
    id :| id in l.chunks && ChunkRow(k, last) in l.chunks[id].rows;
    row := ChunkRow(k, last);
  }

  lemma ListedOnce(ls: seq<R.Listing>, chunks: map<string, Chunk>)
    requires Lists(ls, chunks) && forall id :: id in chunks ==> KeysOnce(chunks[id].rows)
    ensures R.ChunksOnce(ls)
  {
    hide Lists;
    forall a, i, j | R.At(ls, a, i) && R.At(ls, a, j) && i != j
      ensures R.ItemAt(ls, a, i).key != R.ItemAt(ls, a, j).key
    {
      var r := ListedRow(ls, chunks, a, i);
      var q := ListedRow(ls, chunks, a, j);
      assert KeysOnce(chunks[ls[a].decoded.value.chunkId].rows);
    }
  }

  /** Chunks with a version of a record in two of them: their rebuild is refused. */
  lemma StampedRebuildFails(ls: seq<R.Listing>, chunks: map<string, Chunk>)
    requires Lists(ls, chunks) && !EachOnce(chunks) && forall id :: id in chunks ==> KeysOnce(chunks[id].rows)
    ensures R.ChunksOnce(ls) && !R.PairsDistinct(ls)
  {
    hide Lists, R.ChunksOnce, R.PairsDistinct, EachOnce, KeysOnce;
    ListedOnce(ls, chunks);
    var c, i, d, j := FindTwice(chunks);
    TwiceListed(ls, chunks, c, i, d, j);
  }

  lemma FindTwice(chunks: map<string, Chunk>) returns (c: string, i: nat, d: string, j: nat)
    requires !EachOnce(chunks) && forall id :: id in chunks ==> KeysOnce(chunks[id].rows)
    ensures c in chunks && d in chunks && c != d && i < |chunks[c].rows| && j < |chunks[d].rows|
    ensures chunks[c].rows[i].key == chunks[d].rows[j].key && chunks[c].rows[i].at.version == chunks[d].rows[j].at.version
  {
    hide KeysOnce, ChunksApart;
    c, d :| c in chunks && d in chunks && c != d && !ChunksApart(chunks[c], chunks[d]);
    i, j := MeetAt(chunks[c], chunks[d]);
  }

  lemma MeetAt(c: Chunk, d: Chunk) returns (i: nat, j: nat)
    requires !ChunksApart(c, d)
    ensures i < |c.rows| && j < |d.rows| && c.rows[i].key == d.rows[j].key && c.rows[i].at.version == d.rows[j].at.version
  {
    var r, q :| r in c.rows && q in d.rows && r.key == q.key && r.at.version == q.at.version;
    i :| 0 <= i < |c.rows| && c.rows[i] == r;
    j :| 0 <= j < |d.rows| && d.rows[j] == q;
  }

  lemma TwiceListed(ls: seq<R.Listing>, chunks: map<string, Chunk>, c: string, i: nat, d: string, j: nat)
    requires Lists(ls, chunks) && c in chunks && d in chunks && c != d && i < |chunks[c].rows| && j < |chunks[d].rows|
    requires chunks[c].rows[i].key == chunks[d].rows[j].key && chunks[c].rows[i].at.version == chunks[d].rows[j].at.version
    ensures !R.PairsDistinct(ls)
  {
    hide Lists;
    var a := RowListed(ls, chunks, c, i);
    var b := RowListed(ls, chunks, d, j);
    assert R.At(ls, a, i) && R.At(ls, b, j) && (a, i) != (b, j);
  }
}
