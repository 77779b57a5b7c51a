/** Cold rebuild: all tables reconstructed from the listed chunks, the same for every listing order. */
module Rebuild {
  import opened Primitives
  import opened VersionChains
  import opened Stores
  import opened ChainBatches
  import opened RecordIndex
  import KeyLayout

  datatype Item = Item(key: RecordKey, version: u64, body: seq<u8>, deleted: bool, txn: string)

  /** A listed object; `decoded` is None when fetching or decoding failed. */
  datatype Listing = Listing(s3Key: string, decoded: Option<Decoded>)
  datatype Decoded = Decoded(chunkId: string, items: seq<Item>)

  /** A chunk entry together with where it was found. */
  datatype Found = Found(item: Item, s3Key: string, chunkId: string)

  datatype Rebuilt = Rebuilt(
    chunks: map<string, string>,
    latest: map<RecordKey, Row>,
    versions: VersionTable,
    chains: map<string, Entries>,
    globalVersion: u64)

  predicate IsChunk(s3Key: string) {
    KeyLayout.StripSuffix(s3Key, ".xtc").Some?
  }

  predicate Usable(l: Listing)
    ensures Usable(l) ==> l.decoded.Some?
  {
    IsChunk(l.s3Key) && l.decoded.Some?
  }

  function FoundIn(l: Listing): (r: seq<Found>)
    ensures |r| == if Usable(l) then |l.decoded.value.items| else 0
  {
    if !Usable(l) then []
    else
      var d := l.decoded.value;
      seq(|d.items|, i requires 0 <= i < |d.items| => Found(d.items[i], l.s3Key, d.chunkId))
  }

  function AllFound(ls: seq<Listing>): seq<Found> {
    if ls == [] then [] else AllFound(ls[..|ls| - 1]) + FoundIn(ls[|ls| - 1])
  }

  /** The key of a record's rebuilt chain; unlike the coordinator's key it has no file suffix. */
  function ChainKey(r: RecordKey): string {
    KeyLayout.XT_PREFIX + "/" + (r.0 + "/" + (r.1 + "/" + r.2))
  }

  function RowOf(f: Found): Row {
    Row(f.item.version, f.item.deleted, f.chunkId, f.item.txn, f.item.body)
  }

  function LatestRowOf(f: Found): Row {
    RowOf(f).(body := [])
  }

  function EntryOf(f: Found): VersionEntry {
    VersionEntry(f.item.version, f.item.txn, f.s3Key, |f.item.body|, f.item.deleted)
  }

  function BatchOf(f: Found): BatchItem {
    BatchItem(ChainKey(f.item.key), EntryOf(f), U64_MAX)
  }

  // ---------- What a rebuild must give ----------

  ghost predicate VersionsOk(fs: seq<Found>, versions: VersionTable) {
    && (forall f :: f in fs ==> (f.item.key, f.item.version) in versions && versions[(f.item.key, f.item.version)] == RowOf(f))
    && (forall x :: x in versions ==> exists f :: f in fs && x == (f.item.key, f.item.version))
  }

  ghost predicate LatestOk(fs: seq<Found>, latest: map<RecordKey, Row>) {
    && (forall f :: f in fs ==> f.item.key in latest && f.item.version <= latest[f.item.key].version)
    && (forall k :: k in latest ==> exists f :: f in fs && f.item.key == k && latest[k] == LatestRowOf(f))
  }

  ghost predicate ChainHolds(fs: seq<Found>, ck: string, e: VersionEntry) {
    exists f :: f in fs && ChainKey(f.item.key) == ck && EntryOf(f) == e
  }

  ghost predicate ChainsOk(fs: seq<Found>, chains: map<string, Entries>) {
    && (forall ck :: ck in chains ==> chains[ck] != [] && Ascending(chains[ck]))
    && (forall ck, e :: e in ChainOf(chains, ck) <==> ChainHolds(fs, ck, e))
  }

  ghost predicate VersionOk(fs: seq<Found>, v: u64) {
    (forall f :: f in fs ==> f.item.version <= v) && (v == 0 || exists f :: f in fs && f.item.version == v)
  }

  ghost predicate ChunksOk(ls: seq<Listing>, chunks: map<string, string>) {
    && (forall l :: l in ls && Usable(l) ==> l.decoded.value.chunkId in chunks && chunks[l.decoded.value.chunkId] == l.s3Key)
    && (forall id :: id in chunks ==> exists l :: l in ls && Usable(l) && l.decoded.value.chunkId == id)
  }

  ghost predicate Faithful(ls: seq<Listing>, r: Rebuilt) {
    var fs := AllFound(ls);
    && ChunksOk(ls, r.chunks) && VersionsOk(fs, r.versions) && LatestOk(fs, r.latest)
    && ChainsOk(fs, r.chains) && VersionOk(fs, r.globalVersion)
  }

  /** A snapshot read of the history finds the newest entry at or below it in any chunk. */
  ghost predicate ReadsNewest(ls: seq<Listing>, r: Rebuilt) {
    forall k, s: u64, v: u64 :: NewestAt(r.versions, k, s, v) <==> NewestFound(AllFound(ls), k, s, v)
  }

  ghost predicate NewestFound(fs: seq<Found>, k: RecordKey, s: u64, v: u64) {
    && v <= s && (exists f :: f in fs && f.item.key == k && f.item.version == v)
    && forall f :: f in fs && f.item.key == k && f.item.version <= s ==> f.item.version <= v
  }

  /** The latest row stands at the record's greatest version, at or below the version counter. */
  ghost predicate LatestNewest(r: Rebuilt) {
    forall k :: k in r.latest ==>
      && NewestAt(r.versions, k, U64_MAX, r.latest[k].version) && r.latest[k].version <= r.globalVersion
      && (k, r.latest[k].version) in r.versions && r.latest[k] == r.versions[(k, r.latest[k].version)].(body := [])
  }

  lemma HistoryReads(fs: seq<Found>, versions: VersionTable, k: RecordKey, s: u64, v: u64)
    requires VersionsOk(fs, versions)
    ensures NewestAt(versions, k, s, v) <==> NewestFound(fs, k, s, v)
  {
  }

  lemma LatestReads(fs: seq<Found>, r: Rebuilt, k: RecordKey)
    requires VersionsOk(fs, r.versions) && LatestOk(fs, r.latest) && VersionOk(fs, r.globalVersion) && k in r.latest
    ensures NewestAt(r.versions, k, U64_MAX, r.latest[k].version) && r.latest[k].version <= r.globalVersion
    ensures (k, r.latest[k].version) in r.versions && r.latest[k] == r.versions[(k, r.latest[k].version)].(body := [])
  {
    var f :| f in fs && f.item.key == k && r.latest[k] == LatestRowOf(f);
    assert NewestFound(fs, k, U64_MAX, f.item.version);
    HistoryReads(fs, r.versions, k, U64_MAX, f.item.version);
    hide NewestAt, NewestFound, LatestOk;
  }

  lemma FaithfulReads(ls: seq<Listing>, r: Rebuilt)
    requires Faithful(ls, r)
    ensures ReadsNewest(ls, r) && LatestNewest(r)
  {
    hide VersionsOk, LatestOk, VersionOk, ChunksOk, ChainsOk, NewestAt, NewestFound;
    forall k, s: u64, v: u64
      ensures NewestAt(r.versions, k, s, v) <==> NewestFound(AllFound(ls), k, s, v)
    {
      HistoryReads(AllFound(ls), r.versions, k, s, v);
    }
    forall k | k in r.latest
      ensures NewestAt(r.versions, k, U64_MAX, r.latest[k].version) && r.latest[k].version <= r.globalVersion
      ensures (k, r.latest[k].version) in r.versions && r.latest[k] == r.versions[(k, r.latest[k].version)].(body := [])
    {
      LatestReads(AllFound(ls), r, k);
    }
  }

  // ---------- What a rebuild restores, read off the listing ----------

  /** Position `i` of the listed object `a`, if it is a chunk that could be decoded. */
  predicate At(ls: seq<Listing>, a: int, i: int) {
    && 0 <= a < |ls| && |ls[a].s3Key| >= 4 && ls[a].s3Key[|ls[a].s3Key| - 4..] == ".xtc"
    && ls[a].decoded.Some? && 0 <= i < |ls[a].decoded.value.items|
  }

  function ItemAt(ls: seq<Listing>, a: int, i: int): Item
    requires At(ls, a, i)
  {
    ls[a].decoded.value.items[i]
  }

  /** No record's version is listed at two positions. */
  ghost predicate PairsDistinct(ls: seq<Listing>) {
    forall a, i, b, j :: At(ls, a, i) && At(ls, b, j) && (a, i) != (b, j) && ItemAt(ls, a, i).key == ItemAt(ls, b, j).key ==>
      ItemAt(ls, a, i).version != ItemAt(ls, b, j).version
  }

  ghost predicate NamesValid(ls: seq<Listing>) {
    forall a, i :: At(ls, a, i) ==> '/' !in ItemAt(ls, a, i).key.0 && '/' !in ItemAt(ls, a, i).key.1
  }

  /** The row carries the item's version, tombstone flag, writer and body, and the id of its chunk. */
  ghost predicate RowSays(row: Row, l: Listing, e: Item)
    requires l.decoded.Some?
  {
    && row.version == e.version && row.deleted == e.deleted && row.txn == e.txn && row.body == e.body
    && row.chunk == l.decoded.value.chunkId
  }

  /** The chain entry carries the same, with the body's size and the chunk's object key. */
  ghost predicate EntrySays(x: VersionEntry, l: Listing, e: Item) {
    && x.commitVersion == e.version && x.deleted == e.deleted && x.txnId == e.txn && x.size == |e.body|
    && x.backendKey == l.s3Key
  }

  ghost predicate RestoresAt(ls: seq<Listing>, r: Rebuilt, a: int, i: int)
    requires At(ls, a, i)
  {
    var e := ItemAt(ls, a, i);
    && (e.key, e.version) in r.versions && RowSays(r.versions[(e.key, e.version)], ls[a], e)
    && e.key in r.latest && e.version <= r.latest[e.key].version && e.version <= r.globalVersion
    && exists x :: x in ChainOf(r.chains, ChainKey(e.key)) && EntrySays(x, ls[a], e)
  }

  ghost predicate HistoryFrom(ls: seq<Listing>, x: (RecordKey, u64)) {
    exists a, i :: At(ls, a, i) && ItemAt(ls, a, i).key == x.0 && ItemAt(ls, a, i).version == x.1
  }

  ghost predicate LatestFrom(ls: seq<Listing>, k: RecordKey, row: Row) {
    exists a, i :: At(ls, a, i) && ItemAt(ls, a, i).key == k && row.body == [] && RowSays(row.(body := ItemAt(ls, a, i).body), ls[a], ItemAt(ls, a, i))
  }

  ghost predicate EntryFrom(ls: seq<Listing>, ck: string, x: VersionEntry) {
    exists a, i :: At(ls, a, i) && ChainKey(ItemAt(ls, a, i).key) == ck && EntrySays(x, ls[a], ItemAt(ls, a, i))
  }

  /** Every listed item is in all three tables, field by field, and nothing else is in any of them. */
  ghost predicate Restores(ls: seq<Listing>, r: Rebuilt) {
    && (forall a, i :: At(ls, a, i) ==> RestoresAt(ls, r, a, i))
    && (forall x :: x in r.versions ==> HistoryFrom(ls, x))
    && (forall k :: k in r.latest ==> LatestFrom(ls, k, r.latest[k]))
    && (forall ck :: ck in r.chains ==> r.chains[ck] != [] && Ascending(r.chains[ck]))
    && (forall ck, x :: x in ChainOf(r.chains, ck) ==> EntryFrom(ls, ck, x))
    && (r.globalVersion == 0 || exists a, i :: At(ls, a, i) && ItemAt(ls, a, i).version == r.globalVersion)
  }

  lemma {:induction false} FoundAt(ls: seq<Listing>, a: int, i: int)
    requires At(ls, a, i)
    ensures Found(ItemAt(ls, a, i), ls[a].s3Key, ls[a].decoded.value.chunkId) in AllFound(ls)
  {
    var rest := ls[..|ls| - 1];
    if a == |ls| - 1 {
      assert FoundIn(ls[a])[i] == Found(ItemAt(ls, a, i), ls[a].s3Key, ls[a].decoded.value.chunkId);
    } else {
      assert rest[a] == ls[a];
      FoundAt(rest, a, i);
    }
  }

  lemma {:induction false} AtFound(ls: seq<Listing>, p: nat) returns (a: int, i: int)
    requires p < |AllFound(ls)|
    ensures At(ls, a, i) && AllFound(ls)[p] == Found(ItemAt(ls, a, i), ls[a].s3Key, ls[a].decoded.value.chunkId)
  {
    var m := |ls| - 1;
    var rest := ls[..m];
    var n := |AllFound(rest)|;
    assert AllFound(ls) == AllFound(rest) + FoundIn(ls[m]);
    if p < n {
      a, i := AtFound(rest, p);
      assert rest[a] == ls[a];
    } else {
      a, i := m, p - n;
      assert AllFound(ls)[p] == FoundIn(ls[m])[i];
    }
  }

  /** The position of what stands at a place in the gathered sequence. */
  function PlaceOf(ls: seq<Listing>, p: nat): (r: (int, int))
    requires p < |AllFound(ls)|
    ensures At(ls, r.0, r.1) && AllFound(ls)[p].item == ItemAt(ls, r.0, r.1)
  {
    var m := |ls| - 1;
    var n := |AllFound(ls[..m])|;
    assert AllFound(ls) == AllFound(ls[..m]) + FoundIn(ls[m]);
    if p < n then PlaceOf(ls[..m], p) else (m, p - n)
  }

  lemma {:induction false} PlacesApart(ls: seq<Listing>, p: nat, q: nat)
    requires p < q < |AllFound(ls)|
    ensures PlaceOf(ls, p) != PlaceOf(ls, q)
  {
    var m := |ls| - 1;
    var n := |AllFound(ls[..m])|;
    assert AllFound(ls) == AllFound(ls[..m]) + FoundIn(ls[m]);
    if q < n {
      PlacesApart(ls[..m], p, q);
    }
  }

  /** Different places in the gathered sequence are different positions of the listing. */
  lemma PlacesDiffer(ls: seq<Listing>)
    requires PairsDistinct(ls)
    ensures DistinctPairs(AllFound(ls))
  {
    hide AllFound, At, ItemAt;
    forall p, q | 0 <= p < q < |AllFound(ls)| && AllFound(ls)[p].item.key == AllFound(ls)[q].item.key
      ensures AllFound(ls)[p].item.version != AllFound(ls)[q].item.version
    {
      PlacesApart(ls, p, q);
      var (a, i) := PlaceOf(ls, p);
      var (b, j) := PlaceOf(ls, q);
      assert At(ls, a, i) && At(ls, b, j);
    }
  }

  lemma NamesAreKeys(ls: seq<Listing>)
    requires NamesValid(ls)
    ensures KeysValid(AllFound(ls))
  {
    forall p | 0 <= p < |AllFound(ls)|
      ensures KeyLayout.NoSlash(AllFound(ls)[p].item.key.0) && KeyLayout.NoSlash(AllFound(ls)[p].item.key.1)
    {
      var a, i := AtFound(ls, p);
    }
  }

  lemma FaithfulAt(ls: seq<Listing>, r: Rebuilt, a: int, i: int)
    requires Faithful(ls, r) && At(ls, a, i)
    ensures RestoresAt(ls, r, a, i)
  {
    hide ChunksOk, AllFound;
    var f := Found(ItemAt(ls, a, i), ls[a].s3Key, ls[a].decoded.value.chunkId);
    FoundAt(ls, a, i);
    assert ChainHolds(AllFound(ls), ChainKey(f.item.key), EntryOf(f));
    assert EntryOf(f) in ChainOf(r.chains, ChainKey(f.item.key));
  }

  lemma FoundSomewhere(ls: seq<Listing>, f: Found) returns (a: int, i: int)
    requires f in AllFound(ls)
    ensures At(ls, a, i) && f == Found(ItemAt(ls, a, i), ls[a].s3Key, ls[a].decoded.value.chunkId)
  {
    var p :| 0 <= p < |AllFound(ls)| && AllFound(ls)[p] == f;
    a, i := AtFound(ls, p);
  }

  lemma FaithfulRestores(ls: seq<Listing>, r: Rebuilt)
    requires Faithful(ls, r)
    ensures Restores(ls, r)
  {
    hide ChunksOk, AllFound, RestoresAt, At, VersionsOk, LatestOk, HistoryFrom, LatestFrom, EntryFrom;
    forall a, i | At(ls, a, i)
      ensures RestoresAt(ls, r, a, i)
    {
      FaithfulAt(ls, r, a, i);
    }
    forall x | x in r.versions
      ensures HistoryFrom(ls, x)
    {
      HistoryIsFrom(ls, r, x);
    }
    forall k | k in r.latest
      ensures LatestFrom(ls, k, r.latest[k])
    {
      LatestIsFrom(ls, r, k);
    }
    forall ck, x | x in ChainOf(r.chains, ck)
      ensures EntryFrom(ls, ck, x)
    {
      EntryIsFrom(ls, r, ck, x);
    }
    if r.globalVersion != 0 {
      var f :| f in AllFound(ls) && f.item.version == r.globalVersion;
      var a, i := FoundSomewhere(ls, f);
    }
  }

  lemma HistoryIsFrom(ls: seq<Listing>, r: Rebuilt, x: (RecordKey, u64))
    requires Faithful(ls, r) && x in r.versions
    ensures HistoryFrom(ls, x)
  {
    hide ChunksOk, ChainsOk, LatestOk, VersionOk;
    var f :| f in AllFound(ls) && x == (f.item.key, f.item.version);
    var a, i := FoundSomewhere(ls, f);
  }

  lemma EntryIsFrom(ls: seq<Listing>, r: Rebuilt, ck: string, x: VersionEntry)
    requires Faithful(ls, r) && x in ChainOf(r.chains, ck)
    ensures EntryFrom(ls, ck, x)
  {
    hide ChunksOk, VersionsOk, LatestOk, VersionOk;
    assert ChainHolds(AllFound(ls), ck, x);
    var f :| f in AllFound(ls) && ChainKey(f.item.key) == ck && EntryOf(f) == x;
    var a, i := FoundSomewhere(ls, f);
  }

  lemma LatestIsFrom(ls: seq<Listing>, r: Rebuilt, k: RecordKey)
    requires Faithful(ls, r) && k in r.latest
    ensures LatestFrom(ls, k, r.latest[k])
  {
    hide ChunksOk, ChainsOk, VersionsOk, VersionOk;
    var f :| f in AllFound(ls) && f.item.key == k && r.latest[k] == LatestRowOf(f);
    var a, i := FoundSomewhere(ls, f);
    assert RowSays(r.latest[k].(body := ItemAt(ls, a, i).body), ls[a], ItemAt(ls, a, i));
  }

  // ---------- What the chunks must satisfy ----------

  /** No two entries are the same version of the same record. */
  predicate DistinctPairs(fs: seq<Found>) {
    forall i, j :: 0 <= i < j < |fs| && fs[i].item.key == fs[j].item.key ==> fs[i].item.version != fs[j].item.version
  }

  predicate KeysValid(fs: seq<Found>) {
    forall i :: 0 <= i < |fs| ==> KeyLayout.NoSlash(fs[i].item.key.0) && KeyLayout.NoSlash(fs[i].item.key.1)
  }

  predicate IdsDistinct(ls: seq<Listing>) {
    forall i, j :: 0 <= i < j < |ls| && Usable(ls[i]) && Usable(ls[j]) ==> ls[i].decoded.value.chunkId != ls[j].decoded.value.chunkId
  }

  lemma ChainKeyInjective(a: RecordKey, b: RecordKey)
    requires KeyLayout.NoSlash(a.0) && KeyLayout.NoSlash(a.1) && KeyLayout.NoSlash(b.0) && KeyLayout.NoSlash(b.1)
    requires ChainKey(a) == ChainKey(b)
    ensures a == b
  {
    KeyLayout.PrintedCuts(a.0, a.1, a.2);
    KeyLayout.PrintedCuts(b.0, b.1, b.2);
  }

  // ---------- Gathering ----------

  ghost predicate BestOk(fs: seq<Found>, best: map<RecordKey, Found>) {
    && (forall f :: f in fs ==> f.item.key in best && f.item.version <= best[f.item.key].item.version)
    && (forall k :: k in best ==> best[k] in fs && best[k].item.key == k)
  }

  method Gather(ls: seq<Listing>) returns (chunks: map<string, string>, fs: seq<Found>, best: map<RecordKey, Found>, maxV: u64)
    ensures fs == AllFound(ls) && BestOk(fs, best) && VersionOk(fs, maxV)
    ensures IdsDistinct(ls) ==> ChunksOk(ls, chunks)
  {
    hide FoundIn;
    chunks, fs, best, maxV := map[], [], map[], 0;
    for i := 0 to |ls|
      invariant fs == AllFound(ls[..i]) && BestOk(fs, best) && VersionOk(fs, maxV)
      invariant IdsDistinct(ls) ==> ChunksOk(ls[..i], chunks)
    {
      hide BestOk, VersionOk, ChunksOk;
      assert ls[..i + 1][..i] == ls[..i];
      ChunksMore(ls, i, chunks);
      if Usable(ls[i]) {
        chunks := chunks[ls[i].decoded.value.chunkId := ls[i].s3Key];
        fs, best, maxV := GatherChunk(ls[i], fs, best, maxV);
      } else {
        NothingFound(ls[i]);
        assert AllFound(ls[..i + 1]) == AllFound(ls[..i]);
      }
    }
    assert ls[..|ls|] == ls;
  }

  lemma NothingFound(l: Listing)
    requires !Usable(l)
    ensures FoundIn(l) == []
  {
  }

  lemma ChunksMore(ls: seq<Listing>, i: nat, chunks: map<string, string>)
    requires i < |ls|
    ensures IdsDistinct(ls) && ChunksOk(ls[..i], chunks) ==>
              ChunksOk(ls[..i + 1], if Usable(ls[i]) then chunks[ls[i].decoded.value.chunkId := ls[i].s3Key] else chunks)
  {
    if IdsDistinct(ls) && ChunksOk(ls[..i], chunks) {
      hide Usable;
      var now := if Usable(ls[i]) then chunks[ls[i].decoded.value.chunkId := ls[i].s3Key] else chunks;
      assert ls[..i + 1] == ls[..i] + [ls[i]];
      forall l | l in ls[..i + 1] && Usable(l)
        ensures l.decoded.value.chunkId in now && now[l.decoded.value.chunkId] == l.s3Key
      {
        var j :| 0 <= j < i + 1 && ls[j] == l;
        assert j < i ==> ls[..i][j] == l;
      }
      forall id | id in now
        ensures exists l :: l in ls[..i + 1] && Usable(l) && l.decoded.value.chunkId == id
      {
        if id in chunks {
          var l :| l in ls[..i] && Usable(l) && l.decoded.value.chunkId == id;
          assert l in ls[..i + 1];
        } else {
          assert ls[i] in ls[..i + 1];
        }
      }
    }
  }

  /** One chunk's entries: all of them into the history, the newest per record kept aside. */
  method GatherChunk(l: Listing, fs0: seq<Found>, best0: map<RecordKey, Found>, maxV0: u64)
    returns (fs: seq<Found>, best: map<RecordKey, Found>, maxV: u64)
    requires Usable(l) && BestOk(fs0, best0) && VersionOk(fs0, maxV0)
    ensures fs == fs0 + FoundIn(l) && BestOk(fs, best) && VersionOk(fs, maxV)
  {
    hide BestOk, VersionOk;
    fs, best, maxV := fs0, best0, maxV0;
    var d := l.decoded.value;
    for j := 0 to |d.items|
      invariant fs == fs0 + FoundIn(l)[..j] && BestOk(fs, best) && VersionOk(fs, maxV)
    {
      var e := d.items[j];
      var f := Found(e, l.s3Key, d.chunkId);
      assert fs0 + FoundIn(l)[..j] + [f] == fs0 + (FoundIn(l)[..j] + [f]);
      assert FoundIn(l)[..j + 1] == FoundIn(l)[..j] + [f];
      BestMore(fs, best, f);
      VersionMore(fs, maxV, f);
      if e.version > maxV {
        maxV := e.version;
      }
      fs := fs + [f];
      if e.key !in best || e.version > best[e.key].item.version {
        best := best[e.key := f];
      }
    }
    assert FoundIn(l)[..|d.items|] == FoundIn(l);
  }

  lemma BestMore(fs: seq<Found>, best: map<RecordKey, Found>, f: Found)
    requires BestOk(fs, best)
    ensures BestOk(fs + [f], if f.item.key !in best || f.item.version > best[f.item.key].item.version then best[f.item.key := f] else best)
  {
    assert forall g :: g in fs + [f] <==> g in fs || g == f;
  }

  lemma VersionMore(fs: seq<Found>, v: u64, f: Found)
    requires VersionOk(fs, v)
    ensures VersionOk(fs + [f], if f.item.version > v then f.item.version else v)
  {
    assert forall g :: g in fs + [f] <==> g in fs || g == f;
  }

  // ---------- Writing ----------

  method HistoryRows(fs: seq<Found>) returns (versions: VersionTable)
    ensures DistinctPairs(fs) ==> VersionsOk(fs, versions)
  {
    versions := map[];
    for i := 0 to |fs|
      invariant DistinctPairs(fs) ==> VersionsOk(fs[..i], versions)
    {
      assert fs[..i + 1] == fs[..i] + [fs[i]];
      var f := fs[i];
      versions := versions[(f.item.key, f.item.version) := RowOf(f)];
    }
    assert fs[..|fs|] == fs;
  }

  method LatestRows(fs: seq<Found>, best: map<RecordKey, Found>) returns (latest: map<RecordKey, Row>)
    requires BestOk(fs, best)
    ensures LatestOk(fs, latest)
  {
    latest := map[];
    var todo := best.Keys;
    while todo != {}
      invariant todo <= best.Keys && latest.Keys == best.Keys - todo
      invariant forall k :: k in latest ==> latest[k] == LatestRowOf(best[k])
      decreases |todo|
    {
      var k :| k in todo;
      todo := todo - {k};
      latest := latest[k := LatestRowOf(best[k])];
    }
  }

  function Batches(fs: seq<Found>): (xs: seq<BatchItem>)
    ensures |xs| == |fs|
  {
    seq(|fs|, i requires 0 <= i < |fs| => BatchOf(fs[i]))
  }

  lemma BatchesDistinct(fs: seq<Found>)
    requires DistinctPairs(fs) && KeysValid(fs)
    ensures DistinctVersions(Batches(fs))
  {
    forall i, j | 0 <= i < j < |fs| && BatchOf(fs[i]).key == BatchOf(fs[j]).key
      ensures fs[i].item.version != fs[j].item.version
    {
      ChainKeyInjective(fs[i].item.key, fs[j].item.key);
    }
  }

  lemma BatchesHold(fs: seq<Found>, x: BatchItem)
    ensures x in Batches(fs) <==> exists f :: f in fs && BatchOf(f) == x
  {
    if x in Batches(fs) {
      var i :| 0 <= i < |fs| && Batches(fs)[i] == x;
      assert fs[i] in fs;
    }
    if f :| f in fs && BatchOf(f) == x {
      var i :| 0 <= i < |fs| && fs[i] == f;
      assert Batches(fs)[i] == x;
    }
  }

  /** Distinct versions stay distinct under sorting. */
  lemma SortedDistinct(xs: seq<BatchItem>)
    requires DistinctVersions(xs)
    ensures DistinctVersions(SortItems(xs)) && InOrder(SortItems(xs))
    ensures forall x :: x in SortItems(xs) <==> x in xs
  {
    SortSorts(xs);
    var ys := SortItems(xs);
    assert forall y :: y in ys <==> y in multiset(ys);
    assert forall y :: y in xs <==> y in multiset(xs);
    OncePerVersion(xs);
    forall i, j | 0 <= i < j < |ys| && ys[i].key == ys[j].key
      ensures ys[i].entry.commitVersion != ys[j].entry.commitVersion
    {
      if ys[i].entry.commitVersion == ys[j].entry.commitVersion {
        assert ys[i] in xs && ys[j] in xs;
        SameVersionSame(xs, ys[i], ys[j]);
        TwiceCounts(ys, i, j);
      }
    }
  }

  lemma SameVersionSame(xs: seq<BatchItem>, a: BatchItem, b: BatchItem)
    requires DistinctVersions(xs) && a in xs && b in xs && a.key == b.key && a.entry.commitVersion == b.entry.commitVersion
    ensures a == b
  {
  }

  lemma {:induction false} OncePerVersion(xs: seq<BatchItem>)
    requires DistinctVersions(xs)
    ensures forall x :: multiset(xs)[x] <= 1
  {
    if xs != [] {
      var x, rest := xs[|xs| - 1], xs[..|xs| - 1];
      OncePerVersion(rest);
      assert xs == rest + [x];
      assert x !in rest;
      assert multiset(rest)[x] == 0;
    }
  }

  lemma ChainsFromBatches(fs: seq<Found>)
    requires DistinctPairs(fs) && KeysValid(fs)
    ensures AppendList(map[], SortItems(Batches(fs))).Some?
    ensures ChainsOk(fs, AppendList(map[], SortItems(Batches(fs))).value)
  {
    BatchesDistinct(fs);
    var xs := SortItems(Batches(fs));
    SortedDistinct(Batches(fs));
    forall x | x in xs
      ensures x.snapshot == U64_MAX
    {
      BatchesHold(fs, x);
    }
    FreshAppends(xs, "");
    var chains := AppendList(map[], xs).value;
    forall ck
      ensures ck in chains ==> chains[ck] != [] && Ascending(chains[ck])
      ensures ChainOf(chains, ck) == Listed(xs, ck)
    {
      FreshAppends(xs, ck);
    }
    forall ck, e
      ensures e in ChainOf(chains, ck) <==> ChainHolds(fs, ck, e)
    {
      ListedHolds(fs, xs, ck, e);
    }
  }

  lemma ListedHolds(fs: seq<Found>, xs: seq<BatchItem>, ck: string, e: VersionEntry)
    requires forall x :: x in xs <==> x in Batches(fs)
    ensures e in Listed(xs, ck) <==> ChainHolds(fs, ck, e)
  {
    ListedMeans(xs, ck, e);
    if e in Listed(xs, ck) {
      var x :| x in xs && x.key == ck && x.entry == e;
      BatchesHold(fs, x);
    }
    if f :| f in fs && ChainKey(f.item.key) == ck && EntryOf(f) == e {
      BatchesHold(fs, BatchOf(f));
    }
  }

  // ---------- When it is refused ----------

  /** The chunks are different objects. */
  ghost predicate ObjectsDistinct(ls: seq<Listing>) {
    forall a, b :: 0 <= a < b < |ls| ==> ls[a].s3Key != ls[b].s3Key
  }

  /** No chunk holds a record twice. */
  ghost predicate ChunksOnce(ls: seq<Listing>) {
    forall a, i, j :: At(ls, a, i) && At(ls, a, j) && i != j ==> ItemAt(ls, a, i).key != ItemAt(ls, a, j).key
  }

  lemma BatchAt(ls: seq<Listing>, a: int, i: int) returns (x: BatchItem)
    requires At(ls, a, i)
    ensures x in SortItems(Batches(AllFound(ls))) && x.key == ChainKey(ItemAt(ls, a, i).key)
    ensures x.entry.commitVersion == ItemAt(ls, a, i).version && x.entry.backendKey == ls[a].s3Key
  {
    hide AllFound, SortItems;
    var f := Found(ItemAt(ls, a, i), ls[a].s3Key, ls[a].decoded.value.chunkId);
    FoundAt(ls, a, i);
    x := BatchOf(f);
    BatchesHold(AllFound(ls), x);
    SortSorts(Batches(AllFound(ls)));
    SameMembers(SortItems(Batches(AllFound(ls))), Batches(AllFound(ls)));
  }

  /** The same version of a record in two objects: the chain append refuses, and with it the rebuild. */
  lemma CollisionRefused(ls: seq<Listing>)
    requires ObjectsDistinct(ls) && ChunksOnce(ls) && !PairsDistinct(ls)
    ensures AppendList(map[], SortItems(Batches(AllFound(ls)))).None?
  {
    hide AllFound, SortItems, AppendList, Batches;
    var a, i, b, j :| At(ls, a, i) && At(ls, b, j) && (a, i) != (b, j) && ItemAt(ls, a, i).key == ItemAt(ls, b, j).key &&
                      ItemAt(ls, a, i).version == ItemAt(ls, b, j).version;
    assert a != b && ls[a].s3Key != ls[b].s3Key;
    var x := BatchAt(ls, a, i);
    var y := BatchAt(ls, b, j);
    var xs := SortItems(Batches(AllFound(ls)));
    SortSorts(Batches(AllFound(ls)));
    var p :| 0 <= p < |xs| && xs[p] == x;
    var q :| 0 <= q < |xs| && xs[q] == y;
    if AppendList(map[], xs).Some? {
      AcceptedAgree(xs, if p < q then p else q, if p < q then q else p);
    }
  }

  /** The rebuild: gather everything, then write the tables. */
  method RebuildTables(ls: seq<Listing>) returns (r: Result<Rebuilt>)
    ensures PairsDistinct(ls) && NamesValid(ls) && IdsDistinct(ls) ==>
              r.Ok? && Restores(ls, r.value) && Faithful(ls, r.value) && ReadsNewest(ls, r.value) && LatestNewest(r.value)
    ensures ObjectsDistinct(ls) && ChunksOnce(ls) && !PairsDistinct(ls) ==> r.Err?
  {
    if ObjectsDistinct(ls) && ChunksOnce(ls) && !PairsDistinct(ls) {
      CollisionRefused(ls);
    }
    if PairsDistinct(ls) && NamesValid(ls) {
      PlacesDiffer(ls);
      NamesAreKeys(ls);
    }
    hide PairsDistinct, NamesValid, Restores, ObjectsDistinct, ChunksOnce;
    hide SortItems, AppendList, DistinctPairs, KeysValid, VersionsOk, LatestOk, ChainsOk, VersionOk, ChunksOk, BestOk;
    hide ReadsNewest, LatestNewest;
    var chunks, fs, best, maxV := Gather(ls);
    var versions := HistoryRows(fs);
    var latest := LatestRows(fs, best);
    var appended := AppendList(map[], SortItems(Batches(fs)));
    if DistinctPairs(fs) && KeysValid(fs) {
      ChainsFromBatches(fs);
    }
    match appended
    case None => r := Err("append");
    case Some(chains) =>
      r := Ok(Rebuilt(chunks, latest, versions, chains, maxV));
      if Faithful(ls, r.value) {
        FaithfulRestores(ls, r.value);
        FaithfulReads(ls, r.value);
      }
  }

  // ---------- Order independence and reads ----------

  lemma {:induction false} FoundMeans(ls: seq<Listing>, f: Found)
    ensures f in AllFound(ls) <==> exists l :: l in ls && f in FoundIn(l)
  {
    if ls != [] {
      FoundMeans(ls[..|ls| - 1], f);
      assert ls == ls[..|ls| - 1] + [ls[|ls| - 1]];
    }
  }

  lemma {:induction false} AscendingUnique(a: Entries, b: Entries)
    requires Ascending(a) && Ascending(b) && forall e :: e in a <==> e in b
    ensures a == b
  {
    assert a != [] ==> a[|a| - 1] in b;
    assert b != [] ==> b[|b| - 1] in a;
    if a != [] && b != [] {
      var x, y := a[|a| - 1], b[|b| - 1];
      assert x == y;
      var p, q := a[..|a| - 1], b[..|b| - 1];
      assert a == p + [x] && b == q + [y];
      forall e
        ensures e in p <==> e in q
      {
        assert e in p ==> e in a && e.commitVersion < x.commitVersion;
        assert e in q ==> e in b && e.commitVersion < y.commitVersion;
      }
      AscendingUnique(p, q);
    }
  }

  /** Any two listings of the same objects, in whatever order, rebuild to the same tables. */
  lemma OrderDoesNotMatter(ls: seq<Listing>, r: Rebuilt, ls': seq<Listing>, r': Rebuilt)
    requires Faithful(ls, r) && Faithful(ls', r') && forall l :: l in ls <==> l in ls'
    ensures r == r'
  {
    forall f
      ensures f in AllFound(ls) <==> f in AllFound(ls')
    {
      FoundMeans(ls, f);
      FoundMeans(ls', f);
    }
    hide AllFound, VersionsOk, LatestOk, ChainsOk;
    SameVersions(AllFound(ls), r, AllFound(ls'), r');
    SameLatest(AllFound(ls), r, AllFound(ls'), r');
    SameChains(AllFound(ls), r, AllFound(ls'), r');
    SameChunks(ls, r.chunks, ls', r'.chunks);
  }

  lemma SameChunks(ls: seq<Listing>, c: map<string, string>, ls': seq<Listing>, c': map<string, string>)
    requires ChunksOk(ls, c) && ChunksOk(ls', c') && forall l :: l in ls <==> l in ls'
    ensures c == c'
  {
    assert forall id :: id in c ==> id in c' && c'[id] == c[id];
    assert forall id :: id in c' ==> id in c;
  }

  lemma SameVersions(fs: seq<Found>, r: Rebuilt, fs': seq<Found>, r': Rebuilt)
    requires VersionsOk(fs, r.versions) && VersionsOk(fs', r'.versions) && forall f :: f in fs <==> f in fs'
    ensures r.versions == r'.versions
  {
    assert forall x :: x in r.versions ==> x in r'.versions && r'.versions[x] == r.versions[x];
    assert forall x :: x in r'.versions ==> x in r.versions;
  }

  lemma SameLatest(fs: seq<Found>, r: Rebuilt, fs': seq<Found>, r': Rebuilt)
    requires LatestOk(fs, r.latest) && LatestOk(fs', r'.latest) && VersionsOk(fs, r.versions) && forall f :: f in fs <==> f in fs'
    ensures r.latest == r'.latest
  {
    hide VersionsOk;
    forall k | k in r.latest
      ensures k in r'.latest && r'.latest[k] == r.latest[k]
    {
      var f :| f in fs && f.item.key == k && r.latest[k] == LatestRowOf(f);
      var g :| g in fs' && g.item.key == k && r'.latest[k] == LatestRowOf(g);
      SameRow(fs, r.versions, f, g);
    }
    forall k | k in r'.latest
      ensures k in r.latest
    {
      var g :| g in fs' && g.item.key == k && r'.latest[k] == LatestRowOf(g);
    }
  }

  lemma SameRow(fs: seq<Found>, versions: VersionTable, f: Found, g: Found)
    requires VersionsOk(fs, versions) && f in fs && g in fs && f.item.key == g.item.key && f.item.version == g.item.version
    ensures RowOf(f) == RowOf(g)
  {
  }

  lemma SameChains(fs: seq<Found>, r: Rebuilt, fs': seq<Found>, r': Rebuilt)
    requires ChainsOk(fs, r.chains) && ChainsOk(fs', r'.chains) && forall f :: f in fs <==> f in fs'
    ensures r.chains == r'.chains
  {
    forall ck, e
      ensures e in ChainOf(r.chains, ck) <==> e in ChainOf(r'.chains, ck)
    {
      assert ChainHolds(fs, ck, e) <==> ChainHolds(fs', ck, e);
    }
    forall ck
      ensures ChainOf(r.chains, ck) == ChainOf(r'.chains, ck)
    {
      AscendingUnique(ChainOf(r.chains, ck), ChainOf(r'.chains, ck));
    }
    assert forall ck :: ck in r.chains <==> ChainOf(r.chains, ck) != [];
    assert forall ck :: ck in r'.chains <==> ChainOf(r'.chains, ck) != [];
  }

  // ---------- The rebuilt chain key ----------

  /** A record's rebuilt chain is not the chain its later commits check and extend; a schema version's is. */
  lemma RebuiltKeyIsAnother(space: string, table: string, id: string, v: u32)
    ensures KeyLayout.PrintRecord(space, table, id) == ChainKey((space, table, id)) + KeyLayout.JSON
    ensures KeyLayout.PrintRecord(space, table, id) != ChainKey((space, table, id))
    ensures KeyLayout.PrintSchema(space, table, v) == ChainKey((space, KeyLayout.SCHEMA_SEG, KeyLayout.SchemaRecordId(table, v)))
  {
    var a, b := KeyLayout.PrintRecord(space, table, id), ChainKey((space, table, id));
    assert a == b + KeyLayout.JSON;
    assert |a| == |b| + 5;
  }
}
