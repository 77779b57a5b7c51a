/**
 The side condition on rewrites is exact: from any state the steps keep, a write that breaks it has a
 continuation after which some read is wrong. Also here: what sequence a flush truncates the log by.
 */
module ReadLimits {
  import opened Primitives
  import opened RecordIndex
  import opened MemTables
  import opened LittleEndian
  import opened Bloom
  import opened ReadPath

  lemma {:induction false} RunThen(l: Lsm, hs: Hashing, steps: seq<Step>, mid: Lsm, more: seq<Step>, l': Lsm)
    requires Run(l, hs, steps, mid) && Run(mid, hs, more, l')
    ensures Run(l, hs, steps + more, l')
    decreases |steps|
  {
    hide Next, Allowed, Calm;
    if steps == [] {
      assert steps + more == more;
    } else {
      assert (steps + more)[1..] == steps[1..] + more;
      RunThen(Next(l, hs, steps[0]), hs, steps[1..], mid, more, l');
    }
  }

  lemma RunStep(l: Lsm, hs: Hashing, steps: seq<Step>, mid: Lsm, a: Step)
    requires Run(l, hs, steps, mid) && Allowed(mid, hs, a) && Calm(mid, a)
    ensures Run(l, hs, steps + [a], Next(mid, hs, a))
  {
    hide Next, Allowed, Calm;
    assert [a][1..] == [];
    assert Run(Next(mid, hs, a), hs, [], Next(mid, hs, a));
    assert Run(mid, hs, [a], Next(mid, hs, a));
    RunThen(l, hs, steps, mid, [a], Next(mid, hs, a));
  }

  // ---------- A version hidden behind a queued copy ----------

  /** Replacing the active copy lets a queued one answer for the snapshots in between. */
  lemma HiddenVersionMisreads(l: Lsm, hs: Hashing, a: Step) returns (s: u64)
    requires Inv(l, hs) && Allowed(l, hs, a) && a.Write? && a.locked && !ReplacesUnseen(l, a)
    ensures s == MaxOf(l.mems.active.entries[a.k].version, l.horizon) < l.globalVersion
    ensures var e := FindQueued(l.mems.queue, a.k, l.globalVersion).value;
            && Read(Next(l, hs, a), hs, a.k, s) == Some(ResultOf(VersionOf(e)))
            && Right(Next(l, hs, a), a.k, s) == Some(ResultOf(VersionOf(l.mems.active.entries[a.k])))
            && e != l.mems.active.entries[a.k]
  {
    hide TablesOk, RowsOk, HistoryOk, ChunksOk, BloomsOk, RowsAgree, PointingOk, Rising, HistoryAt, ReadRow, ReadFromChunk;
    hide AnswersRight, Publish, Put;
    var k, q, was := a.k, l.mems.queue, l.mems.active.entries[a.k];
    s := MaxOf(was.version, l.horizon);
    var new2 := MemEntry(a.body, l.globalVersion, a.deleted, a.txn);
    WriteShape(l.mems, k, new2, a.full, a.locked);
    RotatedFind(Written(l.mems, k, new2, a.locked), k, s);
    QueuedBelow(q, l.log, l.globalVersion, k);
    FindSettles(q, k, was.version, s);
    FindSettles(q, k, was.version, l.globalVersion);
    NewestGrown(LogOf(l, k), VersionOf(new2), s);
  }

  // ---------- Flushing on ----------

  lemma {:induction false} LongerThan(used: set<string>) returns (n: nat)
    ensures forall u :: u in used ==> |u| < n
  {
    if used == {} {
      n := 0;
    } else {
      var u :| u in used;
      var m := LongerThan(used - {u});
      n := if |u| < m then m else |u| + 1;
    }
  }

  lemma FreshId(l: Lsm) returns (id: string)
    ensures id !in l.chunks && forall x :: x in l.rows.versions ==> l.rows.versions[x].chunk != id
  {
    var n := LongerThan(l.chunks.Keys + set x | x in l.rows.versions :: l.rows.versions[x].chunk);
    id := seq(n, _ => 'c');
  }

  lemma {:induction false} RowsFor(t: MemTable, todo: set<RecordKey>) returns (rows: seq<ChunkRow>)
    requires todo <= t.entries.Keys
    ensures forall r :: r in rows ==> r.key in todo && t.entries[r.key].version != INVISIBLE && r.at == VersionOf(t.entries[r.key])
    ensures forall k :: k in todo && t.entries[k].version != INVISIBLE ==> ChunkRow(k, VersionOf(t.entries[k])) in rows
    ensures KeysOnce(rows)
  {
    if todo == {} {
      rows := [];
    } else {
      var k :| k in todo;
      rows := RowsFor(t, todo - {k});
      if t.entries[k].version != INVISIBLE {
        rows := rows + [ChunkRow(k, VersionOf(t.entries[k]))];
      }
    }
  }

  /** A filter with every bit set. */
  function FullFilter(n: nat): Bytes {
    seq(n, _ => 255)
  }

  lemma FullCovers(rows: seq<ChunkRow>, n: nat, hs: Hashing)
    ensures BloomCovers(Chunk(rows, FullFilter(n)), hs)
  {
    forall r | r in rows
      ensures MayContain(FullFilter(n), hs.encode(r.key), hs.hash)
    {
      if n > 0 {
        var (p1, p2) := Positions(n, hs.encode(r.key), hs.hash);
        AllBits(p1 % 8);
        AllBits(p2 % 8);
      }
    }
  }

  lemma AllBits(i: nat)
    requires i < 8
    ensures Bit(255, i)
  {
    assert Bit(255, 0) && Bit(255, 1) && Bit(255, 2) && Bit(255, 3);
    assert Bit(255, 4) && Bit(255, 5) && Bit(255, 6) && Bit(255, 7);
  }

  /** Flushing changes only where rows point. */
  ghost predicate Repointed(was: VersionTable, now: VersionTable) {
    was.Keys == now.Keys && forall x :: x in was ==> now[x] == was[x].(chunk := now[x].chunk)
  }

  ghost predicate Flushing(l: Lsm, l': Lsm) {
    && l'.mems == l.mems && l'.log == l.log && l'.globalVersion == l.globalVersion && l'.horizon == l.horizon
    && Repointed(l.rows.versions, l'.rows.versions)
  }

  ghost predicate NoWrites(steps: seq<Step>) {
    forall i :: 0 <= i < |steps| ==> !steps[i].Write?
  }

  /** Chunks are only ever added. */
  ghost predicate Grew(was: map<string, Chunk>, now: map<string, Chunk>) {
    forall id :: id in was ==> id in now && now[id] == was[id]
  }

  lemma PointOne(l: Lsm, hs: Hashing, k: RecordKey) returns (mid: Lsm)
    requires l.pointing.Some? && l.taken != [] && k in l.pointing.value.1 && k in l.taken[0].entries
    ensures Allowed(l, hs, PointAt(k)) && mid == Next(l, hs, PointAt(k)) && Flushing(l, mid)
    ensures mid.taken == l.taken && mid.chunks == l.chunks
    ensures mid.pointing == Some((l.pointing.value.0, l.pointing.value.1 - {k}))
    ensures forall x :: x in l.rows.versions && l.rows.versions[x].chunk == l.pointing.value.0 ==>
              mid.rows.versions[x].chunk == l.pointing.value.0
    ensures (k, l.taken[0].entries[k].version) in l.rows.versions ==>
              mid.rows.versions[(k, l.taken[0].entries[k].version)].chunk == l.pointing.value.0
  {
    mid := Next(l, hs, PointAt(k));
  }

  /** Points every remaining row of the table being flushed at its chunk. */
  lemma {:induction false} PointAll(l: Lsm, hs: Hashing) returns (steps: seq<Step>, l': Lsm)
    requires l.pointing.Some? && l.taken != [] && l.pointing.value.1 <= l.taken[0].entries.Keys
    ensures Run(l, hs, steps, l') && Flushing(l, l') && NoWrites(steps)
    ensures l'.taken == l.taken && l'.chunks == l.chunks && l'.pointing == Some((l.pointing.value.0, {}))
    ensures forall x :: x in l.rows.versions && l.rows.versions[x].chunk == l.pointing.value.0 ==>
              l'.rows.versions[x].chunk == l.pointing.value.0
    ensures forall k :: k in l.pointing.value.1 && (k, l.taken[0].entries[k].version) in l.rows.versions ==>
              l'.rows.versions[(k, l.taken[0].entries[k].version)].chunk == l.pointing.value.0
    decreases |l.pointing.value.1|
  {
    var (id, todo) := l.pointing.value;
    if todo == {} {
      steps, l' := [], l;
    } else {
      var k :| k in todo;
      var mid := PointOne(l, hs, k);
      hide Next, Allowed;
      var more;
      more, l' := PointAll(mid, hs);
      steps := [PointAt(k)] + more;
      assert steps[1..] == more;
    }
  }

  /** Stores a chunk for the first taken table and points its rows at it. */
  lemma StoreAndPoint(l: Lsm, hs: Hashing) returns (steps: seq<Step>, l': Lsm, id: string)
    requires l.pointing.None? && l.taken != [] && VisibleKeys(l.taken[0]) != {}
    ensures Run(l, hs, steps, l') && Flushing(l, l') && l'.taken == l.taken && l'.pointing == Some((id, {})) && NoWrites(steps)
    ensures id !in l.chunks && id in l'.chunks && l'.chunks == l.chunks[id := l'.chunks[id]]
    ensures IsChunkOf(l'.chunks[id].rows, l.taken[0]) && BloomCovers(l'.chunks[id], hs)
    ensures forall k :: k in VisibleKeys(l.taken[0]) && (k, l.taken[0].entries[k].version) in l.rows.versions ==>
              l'.rows.versions[(k, l.taken[0].entries[k].version)].chunk == id
  {
    var t := l.taken[0];
    id := FreshId(l);
    var rows := RowsFor(t, t.entries.Keys);
    var some :| some in VisibleKeys(t);
    assert ChunkRow(some, VersionOf(t.entries[some])) in rows;
    var n := FilterBytes(|rows|);
    FullCovers(rows, n, hs);
    var a := StoreChunk(id, Chunk(rows, FullFilter(n)));
    assert Allowed(l, hs, a);
    var mid := Next(l, hs, a);
    assert Run(l, hs, [], l);
    RunStep(l, hs, [], l, a);
    var more;
    more, l' := PointAll(mid, hs);
    steps := [] + [a] + more;
    RunThen(l, hs, [] + [a], mid, more, l');
  }

  lemma FlushingOn(a: Lsm, b: Lsm, c: Lsm)
    requires Flushing(a, b) && Flushing(b, c)
    ensures Flushing(a, c)
  {
  }

  /** Completes the flush of the first taken table, wherever it stands. */
  lemma FlushFirst(l: Lsm, hs: Hashing) returns (steps: seq<Step>, l': Lsm)
    requires l.taken != [] && (l.pointing.Some? ==> l.pointing.value.1 <= l.taken[0].entries.Keys)
    ensures Run(l, hs, steps, l') && Flushing(l, l') && l'.taken == l.taken[1..] && l'.pointing.None?
    ensures NoWrites(steps) && Grew(l.chunks, l'.chunks)
  {
    if l.pointing.None? && VisibleKeys(l.taken[0]) == {} {
      assert Run(l, hs, [], l);
      RunStep(l, hs, [], l, Skip);
      steps, l' := [] + [Skip], Next(l, hs, Skip);
    } else {
      var mid;
      if l.pointing.None? {
        var id;
        steps, mid, id := StoreAndPoint(l, hs);
      } else {
        steps, mid := PointAll(l, hs);
      }
      RunStep(l, hs, steps, mid, Finish);
      steps, l' := steps + [Finish], Next(mid, hs, Finish);
    }
  }

  lemma {:induction false} FlushMany(l: Lsm, hs: Hashing, n: nat) returns (steps: seq<Step>, l': Lsm)
    requires n <= |l.taken| && (n == 0 ==> l.pointing.None?)
    requires l.pointing.Some? ==> l.taken != [] && l.pointing.value.1 <= l.taken[0].entries.Keys
    ensures Run(l, hs, steps, l') && Flushing(l, l') && l'.taken == l.taken[n..] && l'.pointing.None?
    ensures NoWrites(steps) && Grew(l.chunks, l'.chunks)
    decreases n
  {
    if n == 0 {
      steps, l' := [], l;
    } else {
      hide Run, Flushing;
      var mid, more;
      steps, mid := FlushFirst(l, hs);
      more, l' := FlushMany(mid, hs, n - 1);
      RunThen(l, hs, steps, mid, more, l');
      FlushingOn(l, mid, l');
      steps := steps + more;
    }
  }

  // ---------- A stamped copy flushed over the version it was stamped with ----------

  /** Everything in memory handed to the flush task. */
  function HandedOver(l: Lsm): Lsm {
    l.(mems := MemSet(EmptyTable, []), taken := l.taken + (l.mems.queue + [l.mems.active]))
  }

  lemma HandOver(l: Lsm, hs: Hashing)
    ensures Run(l, hs, [Rotate, Take], HandedOver(l))
  {
    assert [Rotate, Take][1..] == [Take] && [Take][1..] == [];
    assert Next(Next(l, hs, Rotate), hs, Take) == HandedOver(l);
  }

  /** The row's chunk says something else than the row, and nothing in memory answers. */
  lemma ReadsChunk(l: Lsm, hs: Hashing, k: RecordKey, v: u64, e: MemEntry, t: MemTable)
    requires l.mems == MemSet(EmptyTable, []) && (k, v) in l.rows.versions && !l.rows.versions[(k, v)].deleted
    requires var id := l.rows.versions[(k, v)].chunk;
             id in l.chunks && IsChunkOf(l.chunks[id].rows, t) && BloomCovers(l.chunks[id], hs)
    requires k in t.entries && t.entries[k] == e && e.version == v != INVISIBLE
    ensures Read(l, hs, k, v) == Some(ResultOf(VersionOf(e)))
  {
    assert NewestAt(l.rows.versions, k, v, v);
    ServedRow(l.chunks[l.rows.versions[(k, v)].chunk].rows, k, VersionOf(e), v);
  }

  /** After the write the stamped copy and the row at the new version both stand, and flushing may start. */
  lemma StampedAfter(l: Lsm, hs: Hashing, a: Step, i: nat)
    requires Inv(l, hs) && Allowed(l, hs, a) && a.Write? && !a.locked && !a.deleted
    requires i < |l.mems.queue| && a.k in l.mems.queue[i].entries
    ensures var l' := HandedOver(Next(l, hs, a));
            && |l.taken| + i < |l'.taken|
            && l'.taken[|l.taken| + i] == StampEntry(l.mems.queue[i], a.k, l.globalVersion)
            && (a.k, l.globalVersion) in l'.rows.versions && !l'.rows.versions[(a.k, l.globalVersion)].deleted
            && l'.horizon == l.horizon <= l.globalVersion != INVISIBLE
            && l'.pointing == l.pointing && (l.pointing.Some? ==> l'.taken[0] == l.taken[0])
            && Right(l', a.k, l.globalVersion) == Some(ReadResult(a.body, l.globalVersion, a.deleted, a.txn))
  {
    hide MemsOk, TablesOk, RowsOk, HistoryOk, ChunksOk, BloomsOk, RowsAgree;
    var e := MemEntry(a.body, l.globalVersion, a.deleted, a.txn);
    WriteShape(l.mems, a.k, e, a.full, a.locked);
    NewestGrown(LogOf(l, a.k), VersionOf(e), l.globalVersion);
  }

  /** Stamping a queued copy that says something else lets its flush answer in place of the new version. */
  lemma StaleStampMisreads(l: Lsm, hs: Hashing, a: Step, i: nat) returns (steps: seq<Step>, l': Lsm)
    requires Inv(l, hs) && Allowed(l, hs, a) && a.Write? && !a.locked && !a.deleted
    requires i < |l.mems.queue| && a.k in l.mems.queue[i].entries && !SameContent(l.mems.queue[i].entries[a.k], a)
    ensures Run(Next(l, hs, a), hs, steps, l') && l'.horizon <= l.globalVersion
    ensures var e := l.mems.queue[i].entries[a.k];
            && Read(l', hs, a.k, l.globalVersion) == Some(ReadResult(e.body, l.globalVersion, e.deleted, e.txn))
            && Right(l', a.k, l.globalVersion) == Some(ReadResult(a.body, l.globalVersion, a.deleted, a.txn))
  {
    StampedAfter(l, hs, a, i);
    assert l.pointing.Some? ==> l.taken != [] && l.pointing.value.1 <= l.taken[0].entries.Keys;
    hide Inv, Read, Right, Run, WriteNext;
    var l0 := Next(l, hs, a);
    var l1, t := HandedOver(l0), StampEntry(l.mems.queue[i], a.k, l.globalVersion);
    HandOver(l0, hs);
    var some, l2 := FlushMany(l1, hs, |l.taken| + i);
    RunThen(l0, hs, [Rotate, Take], l1, some, l2);
    assert l2.taken[0] == t && a.k in VisibleKeys(t);
    var more, id;
    more, l', id := StoreAndPoint(l2, hs);
    RunThen(l0, hs, [Rotate, Take] + some, l2, more, l');
    steps := [Rotate, Take] + some + more;
    ReadsChunk(l', hs, a.k, l.globalVersion, t.entries[a.k], t);
    RightStays(l1, l', a.k, l.globalVersion);
  }

  lemma RightStays(l: Lsm, l': Lsm, k: RecordKey, s: u64)
    requires l'.log == l.log
    ensures Right(l', k, s) == Right(l, k, s)
  {
  }

  // ---------- The condition is exact ----------

  /** Whatever calm steps follow, every read at an unpruned snapshot is right. */
  ghost predicate StaysRight(l: Lsm, hs: Hashing) {
    forall steps, l', k, s: u64 :: Run(l, hs, steps, l') && l'.horizon <= s ==> Read(l', hs, k, s) == Right(l', k, s)
  }

  lemma CalmStaysRight(l: Lsm, hs: Hashing)
    requires Inv(l, hs)
    ensures StaysRight(l, hs)
  {
    hide Inv, Run, Read, Right;
    forall steps, l', k, s: u64 | Run(l, hs, steps, l') && l'.horizon <= s
      ensures Read(l', hs, k, s) == Right(l', k, s)
    {
      RunKeeps(l, hs, steps, l');
      ReadIsRight(l', hs, k, s);
    }
  }

  /** A step leaves all reads right for good if and only if it is calm. */
  lemma CalmIsExact(l: Lsm, hs: Hashing, a: Step)
    requires Inv(l, hs) && Allowed(l, hs, a)
    ensures Calm(l, a) <==> StaysRight(Next(l, hs, a), hs)
  {
    hide Inv, Allowed, Next, Read, Right;
    if Calm(l, a) {
      StepKeeps(l, hs, a);
      CalmStaysRight(Next(l, hs, a), hs);
    } else if a.locked {
      var s := HiddenVersionMisreads(l, hs, a);
      WriteHorizon(l, hs, a);
      assert Run(Next(l, hs, a), hs, [], Next(l, hs, a));
    } else {
      var t :| t in l.mems.queue && a.k in t.entries && !SameContent(t.entries[a.k], a);
      var i :| 0 <= i < |l.mems.queue| && l.mems.queue[i] == t;
      var steps, l' := StaleStampMisreads(l, hs, a, i);
      assert Run(Next(l, hs, a), hs, steps, l');
    }
  }

  lemma WriteHorizon(l: Lsm, hs: Hashing, a: Step)
    requires Allowed(l, hs, a) && a.Write?
    ensures Next(l, hs, a).horizon == l.horizon
  {
  }

  // ---------- Both failures from the empty store ----------

  lemma Wrote(l: Lsm, hs: Hashing, a: Step)
    requires Allowed(l, hs, a) && a.Write?
    ensures var l', e := Next(l, hs, a), MemEntry(a.body, l.globalVersion, a.deleted, a.txn);
            var w := Written(l.mems, a.k, e, a.locked);
            && l'.mems == (if a.full then Rotated(w) else w) && LogOf(l', a.k) == LogOf(l, a.k) + [VersionOf(e)]
            && l'.globalVersion == l.globalVersion && l'.horizon == l.horizon && l'.chunks == l.chunks
  {
    WriteShape(l.mems, a.k, MemEntry(a.body, l.globalVersion, a.deleted, a.txn), a.full, a.locked);
  }

  /** One more write of the record, and the next version drawn. */
  lemma WriteAndDraw(hs: Hashing, steps: seq<Step>, l: Lsm, a: Step) returns (steps': seq<Step>, l': Lsm)
    requires Run(Fresh, hs, steps, l) && Allowed(l, hs, a) && Calm(l, a) && a.Write? && l.globalVersion < U64_MAX - 1
    ensures Run(Fresh, hs, steps', l') && Inv(l', hs)
    ensures var e := MemEntry(a.body, l.globalVersion, a.deleted, a.txn);
            var w := Written(l.mems, a.k, e, a.locked);
            && l'.mems == (if a.full then Rotated(w) else w) && LogOf(l', a.k) == LogOf(l, a.k) + [VersionOf(e)]
            && l'.globalVersion == l.globalVersion + 1 && l'.horizon == l.horizon && l'.chunks == l.chunks
  {
    Wrote(l, hs, a);
    hide Run, Inv, WriteNext, Calm, Written, Rotated;
    RunStep(Fresh, hs, steps, l, a);
    var mid := Next(l, hs, a);
    assert Allowed(mid, hs, NextVersion);
    Draws(hs, steps + [a], mid);
    steps', l' := steps + [a] + [NextVersion], Next(mid, hs, NextVersion);
  }

  lemma Draws(hs: Hashing, steps: seq<Step>, l: Lsm)
    requires Run(Fresh, hs, steps, l) && Allowed(l, hs, NextVersion)
    ensures Run(Fresh, hs, steps + [NextVersion], Next(l, hs, NextVersion)) && Inv(Next(l, hs, NextVersion), hs)
  {
    hide Run, Inv, Next, Allowed;
    RunStep(Fresh, hs, steps, l, NextVersion);
    FreshIsOk(hs);
    RunKeeps(Fresh, hs, steps + [NextVersion], Next(l, hs, NextVersion));
  }

  lemma FirstQueued(hs: Hashing, k: RecordKey, body: seq<u8>) returns (steps: seq<Step>, l: Lsm)
    requires body != []
    ensures Run(Fresh, hs, steps, l) && Inv(l, hs) && l.globalVersion == 2 && l.horizon == 0 && l.chunks == map[]
    ensures l.mems.active == EmptyTable && |l.mems.queue| == 1 && LogOf(l, k) == [Version(1, body, false, "t")]
    ensures k in l.mems.queue[0].entries && l.mems.queue[0].entries[k] == MemEntry(body, 1, false, "t")
    ensures FindQueued(l.mems.queue, k, 3) == Some(MemEntry(body, 1, false, "t"))
  {
    assert Run(Fresh, hs, [], Fresh);
    hide Run, Inv;
    Draws(hs, [], Fresh);
    steps, l := WriteAndDraw(hs, [] + [NextVersion], Next(Fresh, hs, NextVersion), Write(k, body, false, "t", "p", true, true));
  }

  /** For every record and every two bodies: rewritten while queued, the record is later read with its old body at its new version. */
  lemma RewriteWhileQueuedReadsOld(hs: Hashing, k: RecordKey, old1: seq<u8>, new2: seq<u8>)
    returns (before: seq<Step>, l: Lsm, after: seq<Step>, l': Lsm)
    requires old1 != [] && new2 != [] && old1 != new2
    ensures Run(Fresh, hs, before, l) && Allowed(l, hs, Write(k, new2, false, "t", "p", false, false))
    ensures Run(Next(l, hs, Write(k, new2, false, "t", "p", false, false)), hs, after, l') && l'.horizon <= 2
    ensures Read(l', hs, k, 2) == Some(ReadResult(old1, 2, false, "t"))
    ensures Right(l', k, 2) == Some(ReadResult(new2, 2, false, "t"))
  {
    before, l := FirstQueued(hs, k, old1);
    hide Run, Inv, Read, Right;
    after, l' := StaleStampMisreads(l, hs, Write(k, new2, false, "t", "p", false, false), 0);
  }

  lemma NotActive(l: Lsm, a: Step)
    requires a.Write? && a.locked && a.k !in l.mems.active.entries
    ensures Calm(l, a)
  {
  }

  lemma MayWriteNext(l: Lsm, hs: Hashing, k: RecordKey, b: seq<u8>)
    requires b != [] && l.chunks == map[] && l.globalVersion > 0 && Newer(LogOf(l, k), l.globalVersion)
    ensures Allowed(l, hs, Write(k, b, false, "t", "p", false, true))
  {
  }

  lemma SecondLocked(hs: Hashing, k: RecordKey, b1: seq<u8>, b2: seq<u8>) returns (steps: seq<Step>, l: Lsm)
    requires b1 != [] && b2 != []
    ensures Run(Fresh, hs, steps, l) && Inv(l, hs) && l.globalVersion == 3 && l.horizon == 0 && l.chunks == map[]
    ensures LogOf(l, k) == [Version(1, b1, false, "t"), Version(2, b2, false, "t")]
    ensures FindQueued(l.mems.queue, k, 3) == Some(MemEntry(b1, 1, false, "t"))
    ensures k in l.mems.active.entries && l.mems.active.entries[k] == MemEntry(b2, 2, false, "t")
  {
    hide Run, Inv, WriteNext, Calm, FindQueued, Allowed, LogOf, Written, Rotated;
    var some, l0 := FirstQueued(hs, k, b1);
    var a := Write(k, b2, false, "t", "p", false, true);
    NotActive(l0, a);
    MayWriteNext(l0, hs, k, b2);
    steps, l := WriteAndDraw(hs, some, l0, a);
    WrittenLocked(l0.mems, k, MemEntry(b2, 2, false, "t"));
  }

  lemma WrittenLocked(ms: MemSet, k: RecordKey, e: MemEntry)
    ensures var w := Written(ms, k, e, true);
            w.queue == ms.queue && k in w.active.entries && w.active.entries[k] == e
  {
  }

  /** A second rewrite that also finds the queue locked leaves the first rewrite unreadable at its own version. */
  lemma LockedRewritesReadOld(hs: Hashing, k: RecordKey, b1: seq<u8>, b2: seq<u8>, b3: seq<u8>)
    returns (before: seq<Step>, l: Lsm)
    requires b1 != [] && b2 != [] && b3 != []
    ensures Run(Fresh, hs, before, l) && Allowed(l, hs, Write(k, b3, false, "t", "p", false, true))
    ensures var l' := Next(l, hs, Write(k, b3, false, "t", "p", false, true));
            && l'.horizon <= 2 && Read(l', hs, k, 2) == Some(ReadResult(b1, 1, false, "t"))
            && Right(l', k, 2) == Some(ReadResult(b2, 2, false, "t"))
  {
    before, l := SecondLocked(hs, k, b1, b2);
    hide Run, Inv, Read, Right, WriteNext, FindQueued, NewestIn;
    var a := Write(k, b3, false, "t", "p", false, true);
    assert Allowed(l, hs, a);
    assert !ReplacesUnseen(l, a);
    var s := HiddenVersionMisreads(l, hs, a);
    WriteHorizon(l, hs, a);
  }

  // ---------- What a flush truncates the log by ----------

  /** A run without the side condition. */
  ghost predicate Steps(l: Lsm, hs: Hashing, steps: seq<Step>, l': Lsm)
    decreases |steps|
  {
    if steps == [] then l == l'
    else Allowed(l, hs, steps[0]) && Steps(Next(l, hs, steps[0]), hs, steps[1..], l')
  }

  ghost predicate Committed(log: map<RecordKey, seq<Version>>, n: u64) {
    exists k, v :: k in log && v in log[k] && v.version == n
  }

  ghost predicate SeqOk(t: MemTable, log: map<RecordKey, seq<Version>>) {
    t.lastSeq == 0 || Committed(log, t.lastSeq)
  }

  ghost predicate SeqsOk(l: Lsm) {
    && SeqOk(l.mems.active, l.log)
    && (forall t :: t in l.mems.queue ==> SeqOk(t, l.log)) && (forall t :: t in l.taken ==> SeqOk(t, l.log))
  }

  lemma GrownSeq(t: MemTable, log: map<RecordKey, seq<Version>>, k: RecordKey, v: Version)
    requires SeqOk(t, log)
    ensures SeqOk(t, Grown(log, k, v))
  {
    if t.lastSeq != 0 {
      var j, w :| j in log && w in log[j] && w.version == t.lastSeq;
      assert w in Grown(log, k, v)[j];
    }
  }

  lemma WriteSeqs(l: Lsm, a: Step)
    requires SeqsOk(l) && a.Write?
    ensures SeqsOk(WriteNext(l, a))
  {
    var e := MemEntry(a.body, l.globalVersion, a.deleted, a.txn);
    var w, log' := Written(l.mems, a.k, e, a.locked), Grown(l.log, a.k, VersionOf(e));
    WriteShape(l.mems, a.k, e, a.full, a.locked);
    assert WriteNext(l, a).log == log';
    assert VersionOf(e) in log'[a.k];
    assert Committed(log', e.version);
    GrownSeq(l.mems.active, l.log, a.k, VersionOf(e));
    forall t | t in l.taken
      ensures SeqOk(t, log')
    {
      GrownSeq(t, l.log, a.k, VersionOf(e));
    }
    forall t | t in w.queue
      ensures SeqOk(t, log')
    {
      var i :| 0 <= i < |w.queue| && w.queue[i] == t;
      assert t.lastSeq == l.mems.queue[i].lastSeq && l.mems.queue[i] in l.mems.queue;
      GrownSeq(l.mems.queue[i], l.log, a.k, VersionOf(e));
    }
  }

  /** In every run, the sequence the flush of a table truncates up to is the version of a committed write. */
  lemma {:induction false} TruncationIsByVersion(l: Lsm, hs: Hashing, steps: seq<Step>, l': Lsm)
    requires SeqsOk(l) && Steps(l, hs, steps, l')
    ensures SeqsOk(l')
    decreases |steps|
  {
    if steps != [] {
      if steps[0].Write? { WriteSeqs(l, steps[0]); }
      TruncationIsByVersion(Next(l, hs, steps[0]), hs, steps[1..], l');
    }
  }
}
