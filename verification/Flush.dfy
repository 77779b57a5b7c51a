/** Flushing one memtable into a chunk, and the read method, as they run over the mutable tables. */
module Flush {
  import opened Primitives
  import opened RecordIndex
  import opened MemTables
  import opened LittleEndian
  import opened Bloom
  import opened ReadPath
  import opened ReadLimits

  /** Collects every visible entry, in whatever order the map yields them. */
  method ChunkRows(t: MemTable) returns (rows: seq<ChunkRow>)
    ensures IsChunkOf(rows, t) && |rows| == |VisibleKeys(t)|
    ensures forall k :: k in t.entries && t.entries[k].version != INVISIBLE ==>
              exists i :: 0 <= i < |rows| && rows[i].key == k && rows[i].at.version == t.entries[k].version && rows[i].at.body == t.entries[k].body
                          && rows[i].at.deleted == t.entries[k].deleted && rows[i].at.txn == t.entries[k].txn
  {
    rows := [];
    var todo := t.entries.Keys;
    ghost var seen: set<RecordKey> := {};
    while todo != {}
      invariant todo <= t.entries.Keys
      invariant KeysOnce(rows) && |rows| == |seen| && seen == set k | k in t.entries && k !in todo && t.entries[k].version != INVISIBLE
      invariant forall r :: r in rows ==> r.key !in todo
      invariant forall r :: r in rows ==>
                  r.key in t.entries && t.entries[r.key].version != INVISIBLE && r.at == VersionOf(t.entries[r.key])
      invariant forall k :: k in t.entries && k !in todo && t.entries[k].version != INVISIBLE ==>
                  ChunkRow(k, VersionOf(t.entries[k])) in rows
      decreases |todo|
    {
      var k :| k in todo;
      todo := todo - {k};
      if t.entries[k].version != INVISIBLE {
        rows := rows + [ChunkRow(k, VersionOf(t.entries[k]))];
        seen := seen + {k};
      }
    }
    assert seen == VisibleKeys(t);
    forall k | k in t.entries && t.entries[k].version != INVISIBLE
      ensures exists i :: 0 <= i < |rows| && rows[i].key == k && rows[i].at.version == t.entries[k].version && rows[i].at.body == t.entries[k].body
                          && rows[i].at.deleted == t.entries[k].deleted && rows[i].at.txn == t.entries[k].txn
    {
      var i :| 0 <= i < |rows| && rows[i] == ChunkRow(k, VersionOf(t.entries[k]));
    }
  }

  function RowKeys(rows: seq<ChunkRow>, hs: Hashing): (keys: seq<Bytes>)
    ensures |keys| == |rows|
  {
    seq(|rows|, i requires 0 <= i < |rows| => hs.encode(rows[i].key))
  }

  lemma ExactCovers(rows: seq<ChunkRow>, bits: Bytes, hs: Hashing)
    requires Exact(bits, RowKeys(rows, hs), hs.hash)
    ensures BloomCovers(Chunk(rows, bits), hs)
  {
    forall r | r in rows
      ensures MayContain(bits, hs.encode(r.key), hs.hash)
    {
      var j :| 0 <= j < |rows| && rows[j] == r;
      assert RowKeys(rows, hs)[j] == hs.encode(r.key);
      ExactAnswers(bits, RowKeys(rows, hs), hs.hash, hs.encode(r.key));
    }
  }

  /** The chunk's filter: exactly the bits of its rows' keys. */
  method ChunkBloom(rows: seq<ChunkRow>, hs: Hashing) returns (bits: Bytes)
    ensures Exact(bits, RowKeys(rows, hs), hs.hash) && BloomCovers(Chunk(rows, bits), hs) && |bits| == FilterBytes(|rows|)
  {
    hide Exact, FilterBytes, MayContain, BloomCovers;
    var keys := [];
    for i := 0 to |rows|
      invariant |keys| == i && forall j :: 0 <= j < i ==> keys[j] == hs.encode(rows[j].key)
    {
      keys := keys + [hs.encode(rows[i].key)];
    }
    assert keys == RowKeys(rows, hs);
    var filter := BuildBloom(keys, hs.hash);
    bits := filter[..];
    ExactCovers(rows, bits, hs);
  }

  /** The version of the record this memtable flushes. */
  predicate Emits(t: MemTable, k: RecordKey, v: u64) {
    k in t.entries && t.entries[k].version == v && v != INVISIBLE
  }

  /** Exactly the flushed versions point at the chunk; everything else is as before. */
  ghost predicate Pointed(was: Tables, t: MemTable, id: string, now: Tables) {
    && now.versions.Keys == was.versions.Keys && now.latest.Keys == was.latest.Keys
    && (forall x :: x in was.versions ==>
          now.versions[x] == if Emits(t, x.0, x.1) then was.versions[x].(chunk := id) else was.versions[x])
    && (forall k :: k in was.latest ==>
          now.latest[k] == if Emits(t, k, was.latest[k].version) then was.latest[k].(chunk := id) else was.latest[k])
  }

  lemma PointedMore(was: Tables, t: MemTable, id: string, mid: Tables, k: RecordKey, e: MemEntry)
    requires Pointed(was, t, id, mid) && k !in t.entries
    ensures Pointed(was, t.(entries := t.entries[k := e]), id, if e.version == INVISIBLE then mid else PointRow(mid, k, e.version, id))
  {
    var t', now := t.(entries := t.entries[k := e]), if e.version == INVISIBLE then mid else PointRow(mid, k, e.version, id);
    forall x | x in was.versions
      ensures now.versions[x] == if Emits(t', x.0, x.1) then was.versions[x].(chunk := id) else was.versions[x]
    {
      assert x == (x.0, x.1);
    }
  }

  method UpdateIndex(tables: RecordTables, t: MemTable, id: string)
    modifies tables
    ensures Pointed(old(tables.Value()), t, id, tables.Value())
    ensures old(RowsAgree(tables.Value())) ==> RowsAgree(tables.Value())
  {
    var todo := t.entries.Keys;
    ghost var done := t.(entries := map[]);
    while todo != {}
      invariant todo <= t.entries.Keys && done.entries.Keys == t.entries.Keys - todo
      invariant done == t.(entries := done.entries) && forall k :: k in done.entries ==> done.entries[k] == t.entries[k]
      invariant Pointed(old(tables.Value()), done, id, tables.Value())
      invariant old(RowsAgree(tables.Value())) ==> RowsAgree(tables.Value())
      decreases |todo|
    {
      hide Pointed, RowsAgree;
      var k :| k in todo;
      todo := todo - {k};
      PointedMore(old(tables.Value()), done, id, tables.Value(), k, t.entries[k]);
      if t.entries[k].version != INVISIBLE {
        var _ := tables.Repoint(k, t.entries[k].version, id);
      }
      done := done.(entries := done.entries[k := t.entries[k]]);
    }
    assert done.entries == t.entries;
  }

  // ---------- A flush is a run of the read path's steps ----------

  ghost predicate Becomes(l: Lsm, hs: Hashing, l': Lsm) {
    exists steps :: Run(l, hs, steps, l')
  }

  /** The table cut down to some of its records. */
  function Only(t: MemTable, ks: set<RecordKey>): MemTable {
    t.(entries := map k | k in t.entries && k in ks :: t.entries[k])
  }

  lemma {:induction false} PointSome(l: Lsm, hs: Hashing, ks: set<RecordKey>) returns (steps: seq<Step>, mid: Lsm)
    requires l.pointing.Some? && l.taken != [] && ks <= l.pointing.value.1 <= VisibleKeys(l.taken[0])
    ensures Run(l, hs, steps, mid) && Pointed(l.rows, Only(l.taken[0], ks), l.pointing.value.0, mid.rows)
    ensures mid == l.(rows := mid.rows, pointing := Some((l.pointing.value.0, l.pointing.value.1 - ks)))
    decreases ks
  {
    var (id, todo) := l.pointing.value;
    var t := l.taken[0];
    if ks == {} {
      steps, mid := [], l;
      assert todo - {} == todo;
    } else {
      var k :| k in ks;
      var some, was := PointSome(l, hs, ks - {k});
      PointedMore(l.rows, Only(t, ks - {k}), id, was.rows, k, t.entries[k]);
      assert Only(t, ks - {k}).entries[k := t.entries[k]] == Only(t, ks).entries;
      hide Pointed, Run, PointRow;
      assert todo - (ks - {k}) - {k} == todo - ks;
      mid := Next(was, hs, PointAt(k));
      RunStep(l, hs, some, was, PointAt(k));
      steps := some + [PointAt(k)];
    }
  }

  lemma PointedIsOne(was: Tables, t: MemTable, id: string, now: Tables, other: Tables)
    requires Pointed(was, Only(t, VisibleKeys(t)), id, now) && Pointed(was, t, id, other)
    ensures now == other
  {
    assert forall k, v: u64 :: Emits(Only(t, VisibleKeys(t)), k, v) <==> Emits(t, k, v);
    assert now.versions == other.versions;
    assert now.latest == other.latest;
  }

  lemma FlushIsRun(l: Lsm, hs: Hashing, id: string, chunk: Chunk, rows: Tables)
    requires Allowed(l, hs, StoreChunk(id, chunk)) && Pointed(l.rows, l.taken[0], id, rows)
    ensures Becomes(l, hs, l.(taken := l.taken[1..], rows := rows, chunks := l.chunks[id := chunk]))
  {
    var a := StoreChunk(id, chunk);
    var l1 := Next(l, hs, a);
    assert Run(l, hs, [], l);
    hide Run;
    RunStep(l, hs, [], l, a);
    var some, l2 := PointSome(l1, hs, VisibleKeys(l.taken[0]));
    PointedIsOne(l.rows, l.taken[0], id, l2.rows, rows);
    hide Pointed;
    RunThen(l, hs, [] + [a], l1, some, l2);
    RunStep(l, hs, [] + [a] + some, l2, Finish);
  }

  lemma SkipIsRun(l: Lsm, hs: Hashing)
    requires Allowed(l, hs, Skip)
    ensures Becomes(l, hs, l.(taken := l.taken[1..]))
  {
    assert Run(l, hs, [], l);
    RunStep(l, hs, [], l, Skip);
  }

  /** The table is next to be flushed, and the chunk id is new. */
  ghost predicate NextFlush(l: Lsm, t: MemTable, id: string, rows: Tables, chunks: map<string, Chunk>) {
    && l.pointing.None? && l.taken != [] && l.taken[0] == t && l.rows == rows && l.chunks == chunks
    && id !in chunks && forall x :: x in rows.versions ==> rows.versions[x].chunk != id
  }

  lemma SkippedRuns(t: MemTable, id: string, hs: Hashing, rows: Tables, chunks: map<string, Chunk>)
    requires IsChunkOf([], t)
    ensures forall l :: NextFlush(l, t, id, rows, chunks) ==>
              Becomes(l, hs, l.(taken := l.taken[1..], rows := rows, chunks := chunks))
  {
    forall l | NextFlush(l, t, id, rows, chunks)
      ensures Becomes(l, hs, l.(taken := l.taken[1..], rows := rows, chunks := chunks))
    {
      assert VisibleKeys(t) == {};
      SkipIsRun(l, hs);
    }
  }

  lemma FlushedRuns(t: MemTable, id: string, hs: Hashing, was: Tables, chunks: map<string, Chunk>, chunk: Chunk, rows: Tables)
    requires IsChunkOf(chunk.rows, t) && BloomCovers(chunk, hs) && chunk.rows != [] && |chunk.bloom| == FilterBytes(|chunk.rows|)
    requires Pointed(was, t, id, rows)
    ensures forall l :: NextFlush(l, t, id, was, chunks) ==>
              Becomes(l, hs, l.(taken := l.taken[1..], rows := rows, chunks := chunks[id := chunk]))
  {
    hide Pointed, IsChunkOf, BloomCovers, Becomes;
    forall l | NextFlush(l, t, id, was, chunks)
      ensures Becomes(l, hs, l.(taken := l.taken[1..], rows := rows, chunks := chunks[id := chunk]))
    {
      FlushIsRun(l, hs, id, chunk, rows);
    }
  }

  /** One flush: build the chunk, register it, then move the index rows of the flushed versions to it. */
  method FlushOne(t: MemTable, id: string, hs: Hashing, tables: RecordTables, chunks: map<string, Chunk>)
    returns (now: map<string, Chunk>)
    modifies tables
    ensures (forall k :: k in t.entries ==> t.entries[k].version == INVISIBLE) ==> now == chunks && tables.Value() == old(tables.Value())
    ensures (exists k :: k in t.entries && t.entries[k].version != INVISIBLE) ==>
              && id in now && now == chunks[id := now[id]]
              && IsChunkOf(now[id].rows, t) && |now[id].rows| == |VisibleKeys(t)|
              && Exact(now[id].bloom, RowKeys(now[id].rows, hs), hs.hash) && BloomCovers(now[id], hs)
              && Pointed(old(tables.Value()), t, id, tables.Value())
    ensures old(RowsAgree(tables.Value())) ==> RowsAgree(tables.Value())
    ensures forall l :: NextFlush(l, t, id, old(tables.Value()), chunks) ==>
              Becomes(l, hs, l.(taken := l.taken[1..], rows := tables.Value(), chunks := now))
  {
    hide Becomes, NextFlush, Exact, RowKeys, BloomCovers, FilterBytes, Pointed;
    var rows := ChunkRows(t);
    if rows == [] {
      SkippedRuns(t, id, hs, tables.Value(), chunks);
      return chunks;
    }
    assert rows[0] in rows;
    var bits := ChunkBloom(rows, hs);
    now := chunks[id := Chunk(rows, bits)];
    UpdateIndex(tables, t, id);
    FlushedRuns(t, id, hs, old(tables.Value()), chunks, Chunk(rows, bits), tables.Value());
  }

  method BestInChunk(rows: seq<ChunkRow>, k: RecordKey, s: u64) returns (best: Option<Version>)
    ensures best == BestRow(rows, k, s)
    ensures best.None? <==> forall i :: 0 <= i < |rows| && rows[i].key == k ==> s < rows[i].at.version
    ensures best.Some? ==> exists i :: 0 <= i < |rows| && rows[i].key == k && rows[i].at == best.value && best.value.version <= s
    ensures best.Some? ==> forall i :: 0 <= i < |rows| && rows[i].key == k && rows[i].at.version <= s ==> rows[i].at.version <= best.value.version
  {
    best := None;
    for i := 0 to |rows|
      invariant best == BestRow(rows[..i], k, s)
      invariant best.None? <==> forall j :: 0 <= j < i && rows[j].key == k ==> s < rows[j].at.version
      invariant best.Some? ==> exists j :: 0 <= j < i && rows[j].key == k && rows[j].at == best.value && best.value.version <= s
      invariant best.Some? ==> forall j :: 0 <= j < i && rows[j].key == k && rows[j].at.version <= s ==> rows[j].at.version <= best.value.version
    {
      assert rows[..i + 1][..i] == rows[..i];
      if Hits(rows[i], k, s) && (best.None? || best.value.version <= rows[i].at.version) {
        best := Some(rows[i].at);
      }
    }
    assert rows[..|rows|] == rows;
  }

  method ReadChunk(chunks: map<string, Chunk>, id: string, hs: Hashing, k: RecordKey, s: u64) returns (r: Option<ReadResult>)
    ensures r == ReadFromChunk(chunks, id, hs, k, s)
  {
    if id !in chunks || !MayContain(chunks[id].bloom, hs.encode(k), hs.hash) {
      return None;
    }
    var best := BestInChunk(chunks[id].rows, k, s);
    r := if best.None? then None else Some(ResultOf(best.value));
  }

  /** A record indexed before histories were kept reads as its latest row's version, through that row's chunk. */
  lemma LegacyReads(rows: Tables, chunks: map<string, Chunk>, hs: Hashing, k: RecordKey, s: u64, v: Version)
    requires (forall w: u64 :: (k, w) !in rows.versions) && k in rows.latest
    requires v.version == rows.latest[k].version && v.deleted == rows.latest[k].deleted && v.txn == rows.latest[k].txn
    requires v.deleted ==> v.body == []
    requires !v.deleted ==>
               var id := rows.latest[k].chunk; id in chunks && Serves(chunks[id], k, v) && BloomCovers(chunks[id], hs)
    ensures ReadIn(MemSet(EmptyTable, []), rows, chunks, hs, k, s) == if v.version <= s then Some(ResultOf(v)) else None
  {
    assert HistoryAt(rows.versions, k, s).None?;
    if !v.deleted && v.version <= s {
      ServedRow(chunks[rows.latest[k].chunk].rows, k, v, s);
    }
  }

  lemma HistoryIs(versions: VersionTable, k: RecordKey, s: u64, best: Option<Row>)
    requires best.None? <==> NothingAt(versions, k, s)
    requires best.Some? ==> NewestAt(versions, k, s, best.value.version) && best.value == versions[(k, best.value.version)]
    ensures HistoryAt(versions, k, s) == best
  {
  }

  /** The lookup sequence with its early returns. */
  method ReadAtSnapshot(mems: MemTableSet, tables: RecordTables, chunks: map<string, Chunk>, hs: Hashing, k: RecordKey, s: u64)
    returns (r: Option<ReadResult>)
    requires forall x :: x in tables.versions ==> tables.versions[x].version == x.1
    ensures r == ReadIn(mems.Value(), tables.Value(), chunks, hs, k, s)
  {
    var found := mems.Lookup(k, s);
    if found.Some? {
      var e := found.value;
      return Some(ReadResult(e.body, e.version, e.deleted, e.txn));
    }
    var best := tables.GetAt(k, s);
    HistoryIs(tables.versions, k, s, best);
    if best.Some? {
      var row := best.value;
      if row.deleted {
        return Some(Tombstone(row));
      }
      if row.body != [] && row.chunk !in chunks {
        return Some(ReadResult(row.body, row.version, false, row.txn));
      }
      r := ReadChunk(chunks, row.chunk, hs, k, s);
      return;
    }
    if k !in tables.latest || tables.latest[k].version > s {
      return None;
    }
    if tables.latest[k].deleted {
      return Some(Tombstone(tables.latest[k]));
    }
    r := ReadChunk(chunks, tables.latest[k].chunk, hs, k, s);
  }
}
