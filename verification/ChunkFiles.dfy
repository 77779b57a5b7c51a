/** Chunk files: header, compressed body, footer and the footer's length at the very end. */
module ChunkFiles {
  import opened Primitives
  import opened LittleEndian
  import opened Bloom
  import opened ChunkKeys
  import opened ChunkEntries

  const CHUNK_MAGIC: Bytes := [88, 84, 67, 49]
  const FOOTER_MAGIC: Bytes := [88, 84, 67, 70]
  const CHUNK_VERSION := 1
  const KEY_INDEX_SAMPLE_EVERY := 256

  type i64 = x: int | -0x8000_0000_0000_0000 <= x < 0x8000_0000_0000_0000

  datatype ChunkHeader = ChunkHeader(
    chunkId: Bytes,
    createdAt: i64,
    compressedLen: u64,
    uncompressedLen: u64,
    space: Bytes,
    table: Bytes,
    keyMin: Bytes,
    keyMax: Bytes,
    recordCount: u64)

  datatype KeyIndexEntry = KeyIndexEntry(key: Bytes, offset: nat, commitVersion: u64)

  datatype ChunkFooter = ChunkFooter(bloom: Bytes, keyIndex: seq<KeyIndexEntry>, bodyCrc: u32)

  /** The serializer, compressor, checksum and hash the format is built on. */
  datatype Codecs = Codecs(
    serialize: seq<KeyIndexEntry> -> Bytes,
    deserialize: Bytes -> Result<seq<KeyIndexEntry>>,
    compress: Bytes -> Bytes,
    decompress: Bytes -> Result<Bytes>,
    crc: Crc,
    hash: Bytes -> u64)

  ghost predicate Inverse(c: Codecs) {
    && (forall x :: c.deserialize(c.serialize(x)) == Ok(x))
    && (forall b :: c.decompress(c.compress(b)) == Ok(b))
  }

  // ---------- Header ----------

  function ToBits(n: i64): u64 {
    if n < 0 then n + U64_MAX + 1 else n
  }

  function FromBits(n: u64): i64 {
    if n >= 0x8000_0000_0000_0000 then n - U64_MAX - 1 else n
  }

  function StartBytes(h: ChunkHeader): Bytes {
    CHUNK_MAGIC + (Le(CHUNK_VERSION, 2) + Blob(h.chunkId, 2))
  }

  function NumberBytes(h: ChunkHeader): Bytes {
    Le(ToBits(h.createdAt), 8) + (Le(h.compressedLen, 8) + Le(h.uncompressedLen, 8))
  }

  function NameBytes(h: ChunkHeader): Bytes {
    Blob(h.space, 2) + (Blob(h.table, 2) + (Blob(h.keyMin, 2) + (Blob(h.keyMax, 2) + Le(h.recordCount, 8))))
  }

  function HeaderBytes(h: ChunkHeader): Bytes {
    StartBytes(h) + (NumberBytes(h) + NameBytes(h))
  }

  function ReadStart(buf: Bytes): Result<(Bytes, nat)> {
    if |buf| < 6 || buf[0..4] != CHUNK_MAGIC then Err("magic")
    else
      var (version, p) :- ReadLe(buf, 4, 2);
      if version != CHUNK_VERSION then Err("version") else ReadBlob(buf, p, 2)
  }

  function ReadNumbers(buf: Bytes, pos: nat): Result<((u64, u64, u64), nat)> {
    var (created, p1) :- ReadU64(buf, pos);
    var (compressed, p2) :- ReadU64(buf, p1);
    var (uncompressed, p3) :- ReadU64(buf, p2);
    Ok(((created, compressed, uncompressed), p3))
  }

  datatype Names = Names(space: Bytes, table: Bytes, keyMin: Bytes, keyMax: Bytes, count: u64)

  function ReadNames(buf: Bytes, pos: nat): Result<(Names, nat)> {
    var (space, p1) :- ReadBlob(buf, pos, 2);
    var (table, p2) :- ReadBlob(buf, p1, 2);
    var (lo, p3) :- ReadBlob(buf, p2, 2);
    var (hi, p4) :- ReadBlob(buf, p3, 2);
    var (count, p5) :- ReadU64(buf, p4);
    Ok((Names(space, table, lo, hi, count), p5))
  }

  function ReadHeader(buf: Bytes): Result<(ChunkHeader, nat)> {
    var (id, p1) :- ReadStart(buf);
    var ((created, compressed, uncompressed), p2) :- ReadNumbers(buf, p1);
    var (n, p3) :- ReadNames(buf, p2);
    Ok((ChunkHeader(id, FromBits(created), compressed, uncompressed, n.space, n.table, n.keyMin, n.keyMax, n.count), p3))
  }

  predicate FitsHeader(h: ChunkHeader) {
    |h.chunkId| < Width(2) && |h.space| < Width(2) && |h.table| < Width(2) && |h.keyMin| < Width(2) && |h.keyMax| < Width(2)
  }

  lemma StartReads(buf: Bytes, h: ChunkHeader)
    requires At(buf, 0, StartBytes(h)) && FitsHeader(h)
    ensures ReadStart(buf) == Ok((h.chunkId, |StartBytes(h)|))
  {
    Widths();
    AtParts(buf, 0, CHUNK_MAGIC, Le(CHUNK_VERSION, 2) + Blob(h.chunkId, 2));
    AtParts(buf, 4, Le(CHUNK_VERSION, 2), Blob(h.chunkId, 2));
    hide Width, Le, FromLe;
    NumReads(buf, 4, CHUNK_VERSION, 2);
    BlobReads(buf, 6, h.chunkId, 2);
  }

  lemma NumbersRead(buf: Bytes, pos: nat, h: ChunkHeader)
    requires At(buf, pos, NumberBytes(h))
    ensures ReadNumbers(buf, pos) == Ok(((ToBits(h.createdAt), h.compressedLen, h.uncompressedLen), pos + |NumberBytes(h)|))
  {
    Widths();
    hide Width, Le, ReadLe, At;
    var a, b, c := Le(ToBits(h.createdAt), 8), Le(h.compressedLen, 8), Le(h.uncompressedLen, 8);
    AtParts(buf, pos, a, b + c);
    AtParts(buf, pos + |a|, b, c);
    NumReads(buf, pos, ToBits(h.createdAt), 8);
    NumReads(buf, pos + |a|, h.compressedLen, 8);
    NumReads(buf, pos + |a| + |b|, h.uncompressedLen, 8);
  }

  lemma NamesRead(buf: Bytes, pos: nat, h: ChunkHeader)
    requires At(buf, pos, NameBytes(h)) && FitsHeader(h)
    ensures ReadNames(buf, pos) == Ok((Names(h.space, h.table, h.keyMin, h.keyMax, h.recordCount), pos + |NameBytes(h)|))
  {
    Widths();
    hide Width, Le, ReadLe, ReadBlob, Blob, At;
    var s, t, lo, hi, n := Blob(h.space, 2), Blob(h.table, 2), Blob(h.keyMin, 2), Blob(h.keyMax, 2), Le(h.recordCount, 8);
    var p1 := pos + |s|;
    var p2 := p1 + |t|;
    var p3 := p2 + |lo|;
    AtParts(buf, pos, s, t + (lo + (hi + n)));
    AtParts(buf, p1, t, lo + (hi + n));
    AtParts(buf, p2, lo, hi + n);
    AtParts(buf, p3, hi, n);
    BlobReads(buf, pos, h.space, 2);
    BlobReads(buf, p1, h.table, 2);
    BlobReads(buf, p2, h.keyMin, 2);
    BlobReads(buf, p3, h.keyMax, 2);
    NumReads(buf, p3 + |hi|, h.recordCount, 8);
  }

  lemma HeaderBound(buf: Bytes)
    requires ReadHeader(buf).Ok?
    ensures FitsHeader(ReadHeader(buf).value.0)
  {
    hide Width, ReadLe, ReadBlob, ReadU64;
    BlobBound(buf, ReadLe(buf, 4, 2).value.1, 2);
    var p := ReadNumbers(buf, ReadStart(buf).value.1).value.1;
    BlobBound(buf, p, 2);
    var p1 := ReadBlob(buf, p, 2).value.1;
    BlobBound(buf, p1, 2);
    var p2 := ReadBlob(buf, p1, 2).value.1;
    BlobBound(buf, p2, 2);
    BlobBound(buf, ReadBlob(buf, p2, 2).value.1, 2);
  }

  /** A header reads back from the front of any file that starts with it if and only if its lengths fit. */
  lemma HeaderRoundTrip(buf: Bytes, h: ChunkHeader)
    requires At(buf, 0, HeaderBytes(h))
    ensures ReadHeader(buf).Ok? && ReadHeader(buf).value.0 == h <==> FitsHeader(h)
    ensures FitsHeader(h) ==> ReadHeader(buf) == Ok((h, |HeaderBytes(h)|))
  {
    hide ReadHeader, HeaderBytes, FitsHeader, At;
    if ReadHeader(buf).Ok? {
      HeaderBound(buf);
    }
    if FitsHeader(h) {
      HeaderReads(buf, h);
    }
  }

  lemma HeaderReads(buf: Bytes, h: ChunkHeader)
    requires At(buf, 0, HeaderBytes(h)) && FitsHeader(h)
    ensures ReadHeader(buf) == Ok((h, |HeaderBytes(h)|))
  {
    hide Width, Le, At, ReadStart, ReadNumbers, ReadNames, StartBytes, NumberBytes, NameBytes, FitsHeader;
    var a, b, c := StartBytes(h), NumberBytes(h), NameBytes(h);
    AtParts(buf, 0, a, b + c);
    AtParts(buf, |a|, b, c);
    StartReads(buf, h);
    NumbersRead(buf, |a|, h);
    NamesRead(buf, |a| + |b|, h);
  }

  // ---------- Footer ----------

  function FooterBytes(f: ChunkFooter, c: Codecs): Bytes {
    Blob(f.bloom, 4) + (Blob(c.serialize(f.keyIndex), 4) + (Le(f.bodyCrc, 4) + FOOTER_MAGIC))
  }

  function ReadFooter(buf: Bytes, c: Codecs): Result<ChunkFooter> {
    if |buf| < 8 || buf[|buf| - 4..] != FOOTER_MAGIC then Err("footer magic")
    else
      var (bloom, p1) :- ReadBlob(buf, 0, 4);
      var (ki, p2) :- ReadBlob(buf, p1, 4);
      var index :- c.deserialize(ki);
      var (crc, p3) :- ReadU32(buf, p2);
      Ok(ChunkFooter(bloom, index, crc))
  }

  predicate FitsFooter(f: ChunkFooter, c: Codecs) {
    |f.bloom| < Width(4) && |c.serialize(f.keyIndex)| < Width(4) && |FooterBytes(f, c)| < Width(4)
  }

  lemma FooterRoundTrip(f: ChunkFooter, c: Codecs)
    requires Inverse(c) && FitsFooter(f, c)
    ensures ReadFooter(FooterBytes(f, c), c) == Ok(f)
  {
    Widths();
    var buf, a, b, n := FooterBytes(f, c), Blob(f.bloom, 4), Blob(c.serialize(f.keyIndex), 4), Le(f.bodyCrc, 4);
    assert At(buf, 0, a + (b + (n + FOOTER_MAGIC)));
    assert buf == (a + (b + n)) + FOOTER_MAGIC;
    hide Width, Le, FromLe, ReadBlob, Blob;
    AtParts(buf, 0, a, b + (n + FOOTER_MAGIC));
    AtParts(buf, |a|, b, n + FOOTER_MAGIC);
    AtParts(buf, |a| + |b|, n, FOOTER_MAGIC);
    BlobReads(buf, 0, f.bloom, 4);
    BlobReads(buf, |a|, c.serialize(f.keyIndex), 4);
    NumReads(buf, |a| + |b|, f.bodyCrc, 4);
  }

  // ---------- Whole files ----------

  function FileBytes(h: ChunkHeader, body: Bytes, f: ChunkFooter, c: Codecs): Bytes {
    HeaderBytes(h) + (c.compress(body) + (FooterBytes(f, c) + Le(|FooterBytes(f, c)|, 4)))
  }

  function DecompressBody(file: Bytes, c: Codecs): Result<Bytes> {
    var (_, start) :- ReadHeader(file);
    if |file| < start + 4 then Err("too short")
    else
      var (footerLen, _) :- ReadLe(file, |file| - 4, 4);
      var end := if footerLen <= |file| - 4 then |file| - 4 - footerLen else 0;
      if end < start then Err("bad footer length") else c.decompress(file[start..end])
  }

  ghost predicate WellMade(h: ChunkHeader, f: ChunkFooter, c: Codecs) {
    FitsHeader(h) && FitsFooter(f, c) && Inverse(c)
  }

  lemma FileParts(h: ChunkHeader, body: Bytes, f: ChunkFooter, c: Codecs)
    ensures var file, a, b, d := FileBytes(h, body, f, c), HeaderBytes(h), c.compress(body), FooterBytes(f, c);
            && |file| == |a| + |b| + |d| + 4
            && At(file, 0, a) && At(file, |a|, b) && At(file, |a| + |b|, d) && At(file, |a| + |b| + |d|, Le(|d|, 4))
  {
    var file, a, b, d := FileBytes(h, body, f, c), HeaderBytes(h), c.compress(body), FooterBytes(f, c);
    var n := Le(|d|, 4);
    hide Le, HeaderBytes, FooterBytes;
    assert At(file, 0, a + (b + (d + n)));
    AtParts(file, 0, a, b + (d + n));
    AtParts(file, |a|, b, d + n);
    AtParts(file, |a| + |b|, d, n);
  }

  /** Header, body and footer of a well-made file all read back. */
  lemma FileRoundTrip(h: ChunkHeader, body: Bytes, f: ChunkFooter, c: Codecs)
    requires WellMade(h, f, c)
    ensures var file := FileBytes(h, body, f, c);
            var footer := |HeaderBytes(h)| + |c.compress(body)|;
            && ReadHeader(file) == Ok((h, |HeaderBytes(h)|))
            && DecompressBody(file, c) == Ok(body)
            && footer + 4 <= |file| && ReadFooter(file[footer..|file| - 4], c) == Ok(f)
  {
    hide Width, Le, FromLe, HeaderBytes, FooterBytes, ReadHeader, FitsHeader, FileBytes, ReadFooter;
    var file, a, b, d := FileBytes(h, body, f, c), HeaderBytes(h), c.compress(body), FooterBytes(f, c);
    FileParts(h, body, f, c);
    HeaderRoundTrip(file, h);
    NumReads(file, |file| - 4, |d|, 4);
    FooterRoundTrip(f, c);
  }

  // ---------- Sampled key index ----------

  function SampleOf(es: seq<ChunkEntry>, i: nat, crc: Crc): KeyIndexEntry
    requires i < |es|
  {
    KeyIndexEntry(KeyOf(es[i]), |BodyBytes(es[..i], crc)|, es[i].commitVersion)
  }

  /** One sample for every 256th entry, with its offset in the body. */
  function Samples(es: seq<ChunkEntry>, n: nat, crc: Crc): seq<KeyIndexEntry>
    requires n <= |es|
  {
    if n == 0 then []
    else Samples(es, n - 1, crc) + if (n - 1) % KEY_INDEX_SAMPLE_EVERY == 0 then [SampleOf(es, n - 1, crc)] else []
  }

  lemma {:induction false} SampleIsSome(es: seq<ChunkEntry>, n: nat, crc: Crc, k: KeyIndexEntry) returns (i: nat)
    requires n <= |es| && k in Samples(es, n, crc)
    ensures i < n && i % 256 == 0 && k == SampleOf(es, i, crc)
  {
    if k in Samples(es, n - 1, crc) {
      i := SampleIsSome(es, n - 1, crc, k);
    } else {
      i := n - 1;
    }
  }

  lemma {:induction false} EverySampleThere(es: seq<ChunkEntry>, n: nat, crc: Crc, i: nat)
    requires i < n <= |es| && i % 256 == 0
    ensures i / 256 < |Samples(es, n, crc)| && Samples(es, n, crc)[i / 256] == SampleOf(es, i, crc)
    decreases n
  {
    SampleCount(es, n - 1, crc);
    if i < n - 1 {
      EverySampleThere(es, n - 1, crc, i);
    }
  }

  lemma {:induction false} SampleCount(es: seq<ChunkEntry>, n: nat, crc: Crc)
    requires n <= |es|
    ensures |Samples(es, n, crc)| == (n + 255) / 256
  {
    if n > 0 {
      SampleCount(es, n - 1, crc);
    }
  }

  /** Decoding the body at a sampled offset yields the sampled entry. */
  lemma SampledOffsetDecodes(es: seq<ChunkEntry>, crc: Crc, k: KeyIndexEntry)
    requires k in Samples(es, |es|, crc) && AllSurvive(es)
    ensures var r := ReadEntry(BodyBytes(es, crc), k.offset);
            r.Ok? && r.value.0 in es && KeyOf(r.value.0) == k.key && r.value.0.commitVersion == k.commitVersion
  {
    hide ReadEntry, EntryBytes, Fits, Plain, KeyOf, BodyBytes;
    var i := SampleIsSome(es, |es|, crc, k);
    EntryStands(es, i, crc);
    EntryRoundTrip(BodyBytes(es, crc), k.offset, es[i], crc);
  }

  // ---------- The writer ----------

  function AsU64(n: nat): u64 {
    n % (U64_MAX + 1)
  }

  class ChunkWriter {
    const chunkId: Bytes
    const space: Bytes
    const table: Bytes
    const codecs: Codecs
    var body: Bytes
    var entries: seq<ChunkEntry>
    var keys: seq<Bytes>

    constructor (chunkId: Bytes, space: Bytes, table: Bytes, codecs: Codecs)
      ensures Valid() && entries == []
      ensures this.chunkId == chunkId && this.space == space && this.table == table && this.codecs == codecs
    {
      this.chunkId, this.space, this.table, this.codecs := chunkId, space, table, codecs;
      body, entries, keys := [], [], [];
    }

    predicate Valid()
      reads this
    {
      && body == BodyBytes(entries, codecs.crc)
      && |keys| == |entries| && forall i :: 0 <= i < |keys| ==> keys[i] == KeyOf(entries[i])
    }

    method Append(e: ChunkEntry)
      requires Valid()
      modifies this
      ensures Valid() && entries == old(entries) + [e]
    {
      keys := keys + [KeyOf(e)];
      BodySplits(entries, [e], codecs.crc);
      OneEntry(e, codecs.crc);
      body := EncodeEntryInto(body, e, codecs.crc);
      entries := entries + [e];
    }

    method KeyIndex() returns (index: seq<KeyIndexEntry>)
      requires Valid()
      ensures index == Samples(entries, |entries|, codecs.crc)
    {
      hide BodyBytes, EntryBytes, KeyOf;
      index := [];
      var offset := 0;
      NoBody(codecs.crc);
      assert entries[..0] == [];
      for i := 0 to |entries|
        invariant index == Samples(entries, i, codecs.crc)
        invariant offset == |BodyBytes(entries[..i], codecs.crc)|
      {
        var one := EncodeEntryInto([], entries[i], codecs.crc);
        if i % KEY_INDEX_SAMPLE_EVERY == 0 {
          index := index + [KeyIndexEntry(KeyOf(entries[i]), offset, entries[i].commitVersion)];
        }
        assert entries[..i + 1] == entries[..i] + [entries[i]];
        BodySplits(entries[..i], [entries[i]], codecs.crc);
        OneEntry(entries[i], codecs.crc);
        offset := offset + |one|;
      }
    }

    /** The finished file, with its header and footer. */
    method Finalize(now: i64) returns (file: Bytes, header: ChunkHeader, footer: ChunkFooter)
      requires Valid()
      ensures file == FileBytes(header, body, footer, codecs)
      ensures header.chunkId == chunkId && header.space == space && header.table == table && header.createdAt == now
      ensures header.uncompressedLen == AsU64(|body|) && header.compressedLen == AsU64(|codecs.compress(body)|)
      ensures header.recordCount == AsU64(|entries|)
      ensures forall e :: e in entries ==> Cmp(header.keyMin, KeyOf(e)) <= 0 && Cmp(KeyOf(e), header.keyMax) <= 0
      ensures entries != [] ==> header.keyMin in keys && header.keyMax in keys
      ensures footer.keyIndex == Samples(entries, |entries|, codecs.crc) && footer.bodyCrc == codecs.crc(body)
      ensures Exact(footer.bloom, keys, codecs.hash) && forall e :: e in entries ==> MayContain(footer.bloom, KeyOf(e), codecs.hash)
      ensures Inverse(codecs) && Sized(chunkId, space, table, entries, codecs) && AllSurvive(entries) ==>
                && WellMade(header, footer, codecs)
                && DecompressBody(file, codecs) == Ok(body) && ReadBody(body, 0) == Ok(entries)
    {
      hide BodyBytes, Samples, HeaderBytes, FooterBytes, MayContain, Cmp, KeyOf, FilterBytes, Exact;
      hide Inverse, Sized, AllSurvive, WellMade, DecompressBody, ReadBody;
      var compressed := codecs.compress(body);
      var bits := BuildBloom(keys, codecs.hash);
      var index := KeyIndex();
      var lo := MinKey(keys);
      var hi := MaxKey(keys);
      header := ChunkHeader(chunkId, now, AsU64(|compressed|), AsU64(|body|), space, table, lo, hi, AsU64(|entries|));
      footer := ChunkFooter(bits[..], index, codecs.crc(body));
      file := HeaderBytes(header) + (compressed + (FooterBytes(footer, codecs) + Le(|FooterBytes(footer, codecs)|, 4)));
      forall e | e in entries
        ensures KeyOf(e) in keys
      {
        var i :| 0 <= i < |entries| && entries[i] == e;
        assert keys[i] == KeyOf(e);
      }
      if Inverse(codecs) && Sized(chunkId, space, table, entries, codecs) && AllSurvive(entries) {
        MadeWell(header, footer, entries, codecs);
        ChunkRoundTrip(entries, header, footer, codecs);
      }
    }
  }

  lemma OneEntry(e: ChunkEntry, crc: Crc)
    ensures BodyBytes([e], crc) == EntryBytes(e, crc)
  {
    assert [e][1..] == [];
  }

  lemma NoBody(crc: Crc)
    ensures BodyBytes([], crc) == []
  {
  }

  /** From finished file back to entries: what was appended comes back if and only if each entry survives on its own. */
  lemma ChunkRoundTrip(es: seq<ChunkEntry>, h: ChunkHeader, f: ChunkFooter, c: Codecs)
    requires WellMade(h, f, c)
    ensures var file := FileBytes(h, BodyBytes(es, c.crc), f, c);
            && DecompressBody(file, c) == Ok(BodyBytes(es, c.crc))
            && (ReadBody(DecompressBody(file, c).value, 0) == Ok(es) <==> AllSurvive(es))
  {
    hide DecompressBody, FileBytes, BodyBytes, Fits, Plain, WellMade, ReadBody;
    FileRoundTrip(h, BodyBytes(es, c.crc), f, c);
    BodyReads(BodyBytes(es, c.crc), 0, es, c.crc);
  }

  predicate AllSurvive(es: seq<ChunkEntry>) {
    forall i :: 0 <= i < |es| ==> Fits(es[i]) && Plain(es[i])
  }

  /** Names that fit two-byte prefixes, and few enough entries for the footer's four-byte ones. */
  predicate Sized(chunkId: Bytes, space: Bytes, table: Bytes, es: seq<ChunkEntry>, c: Codecs) {
    && |chunkId| < Width(2) && |space| < Width(2) && |table| < Width(2)
    && FilterBytes(|es|) + |c.serialize(Samples(es, |es|, c.crc))| + 16 < Width(4)
  }

  lemma FooterIsSized(f: ChunkFooter, c: Codecs)
    requires |f.bloom| + |c.serialize(f.keyIndex)| + 16 < Width(4)
    ensures FitsFooter(f, c)
  {
    hide Width, Le;
  }

  /** The writer's own header and footer are well made. */
  lemma MadeWell(h: ChunkHeader, f: ChunkFooter, es: seq<ChunkEntry>, c: Codecs)
    requires Inverse(c) && Sized(h.chunkId, h.space, h.table, es, c) && AllSurvive(es)
    requires |f.bloom| == FilterBytes(|es|) && f.keyIndex == Samples(es, |es|, c.crc)
    requires if es == [] then h.keyMin == [] && h.keyMax == []
             else exists i, j :: 0 <= i < |es| && 0 <= j < |es| && h.keyMin == KeyOf(es[i]) && h.keyMax == KeyOf(es[j])
    ensures WellMade(h, f, c)
  {
    hide FilterBytes, Samples, Inverse, KeyOf;
    Widths();
    FooterIsSized(f, c);
  }
}
