/** The bytes of a chunk file, position by position: byte order, flags, magic numbers and field order. */
module ChunkLayout {
  import opened LittleEndian
  import opened ChunkEntries
  import opened ChunkFiles

  /** The `n` bytes at `pos` are the digits of `v` to base 256, the lowest first. */
  ghost predicate Spells(b: Bytes, pos: nat, n: nat, v: nat) {
    pos + n <= |b| && forall i :: 0 <= i < n ==> b[pos + i] == v / Width(i) % 256
  }

  lemma DivTwice(v: nat, w: nat)
    requires w >= 1
    ensures v / 256 / w == v / (256 * w)
  {
    var q := v / 256;
    var a, r := q / w, q % w;
    var rest := 256 * r + v % 256;
    assert q == w * a + r;
    assert v == (256 * w) * a + rest by {
      assert 256 * (w * a) == (256 * w) * a;
    }
    assert 0 <= rest < 256 * w;
    ModUnique(v, 256 * w, a, rest);
    assert (256 * w) * (v / (256 * w)) == (256 * w) * a;
    MulOrder(256 * w, v / (256 * w), a);
  }

  lemma {:induction false} LeByte(v: nat, n: nat, i: nat)
    requires i < n
    ensures Le(v, n)[i] == v / Width(i) % 256
  {
    if i > 0 {
      LeByte(v / 256, n - 1, i - 1);
      DivTwice(v, Width(i - 1));
    }
  }

  lemma LeSpells(b: Bytes, pos: nat, n: nat, v: nat)
    requires At(b, pos, Le(v, n))
    ensures Spells(b, pos, n, v)
  {
    forall i | 0 <= i < n
      ensures b[pos + i] == v / Width(i) % 256
    {
      LeByte(v, n, i);
      assert b[pos..pos + n][i] == b[pos + i];
    }
  }

  /** A length of `w` bytes and then the bytes themselves. */
  ghost predicate Holds(b: Bytes, pos: nat, w: nat, x: Bytes) {
    Spells(b, pos, w, |x|) && At(b, pos + w, x)
  }

  lemma BlobHolds(b: Bytes, pos: nat, w: nat, x: Bytes)
    requires At(b, pos, Blob(x, w))
    ensures Holds(b, pos, w, x)
  {
    AtParts(b, pos, Le(|x|, w), x);
    LeSpells(b, pos, w, |x|);
  }

  // ---------- Entries ----------

  /** The metadata pairs one after the other, each string behind one length byte. */
  ghost predicate MetaHolds(b: Bytes, pos: nat, meta: seq<(Bytes, Bytes)>)
    decreases |meta|
  {
    meta == [] ||
    var (k, v) := meta[0];
    && Holds(b, pos, 1, k) && Holds(b, pos + 1 + |k|, 1, v)
    && MetaHolds(b, pos + 1 + |k| + 1 + |v|, meta[1..])
  }

  lemma {:induction false} MetaLayout(b: Bytes, pos: nat, meta: seq<(Bytes, Bytes)>)
    requires At(b, pos, MetaBytes(meta))
    ensures MetaHolds(b, pos, meta)
    decreases |meta|
  {
    if meta != [] {
      var k, v := Blob(meta[0].0, 1), Blob(meta[0].1, 1);
      AtParts(b, pos, k, v + MetaBytes(meta[1..]));
      AtParts(b, pos + |k|, v, MetaBytes(meta[1..]));
      hide Blob, At, Spells;
      BlobHolds(b, pos, 1, meta[0].0);
      BlobHolds(b, pos + |k|, 1, meta[0].1);
      BlobLength(meta[0].0, 1);
      BlobLength(meta[0].1, 1);
      MetaLayout(b, pos + |k| + |v|, meta[1..]);
    }
  }

  lemma BlobLength(x: Bytes, w: nat)
    ensures |Blob(x, w)| == w + |x|
  {
  }

  lemma HeadLayout(b: Bytes, pos: nat, e: ChunkEntry)
    requires At(b, pos, HeadBytes(e))
    ensures Holds(b, pos, 2, e.space + [0] + e.table + [0] + e.recordId)
    ensures Holds(b, pos + 2 + |KeyOf(e)|, 4, e.value)
    ensures |HeadBytes(e)| == 2 + |KeyOf(e)| + 4 + |e.value|
  {
    hide At, Spells, Le;
    AtParts(b, pos, Blob(KeyOf(e), 2), Blob(e.value, 4));
    BlobHolds(b, pos, 2, KeyOf(e));
    BlobHolds(b, pos + 2 + |KeyOf(e)|, 4, e.value);
  }

  lemma AttributeLayout(b: Bytes, pos: nat, e: ChunkEntry)
    requires At(b, pos, AttributeBytes(e))
    ensures Holds(b, pos, 1, if e.contentType.Some? then e.contentType.value else [])
    ensures Spells(b, pos + 1 + |TypeText(e)|, 1, |e.userMeta|)
    ensures MetaHolds(b, pos + 1 + |TypeText(e)| + 1, e.userMeta)
    ensures |AttributeBytes(e)| == 1 + |TypeText(e)| + 1 + |MetaBytes(e.userMeta)|
  {
    hide At, Spells, Le, MetaHolds, MetaBytes;
    var p := pos + 1 + |TypeText(e)|;
    AtParts(b, pos, Blob(TypeText(e), 1), Le(|e.userMeta|, 1) + MetaBytes(e.userMeta));
    AtParts(b, p, Le(|e.userMeta|, 1), MetaBytes(e.userMeta));
    BlobHolds(b, pos, 1, TypeText(e));
    LeSpells(b, p, 1, |e.userMeta|);
    MetaLayout(b, p + 1, e.userMeta);
  }

  lemma StampLayout(b: Bytes, pos: nat, e: ChunkEntry)
    requires At(b, pos, StampBytes(e))
    ensures Spells(b, pos, 4, e.schemaVersion) && Holds(b, pos + 4, 1, e.txnId)
    ensures var p := pos + 5 + |e.txnId|;
            && Spells(b, p, 8, e.commitVersion) && Spells(b, p + 8, 8, e.walSeq)
            && p + 16 < |b| && b[p + 16] == if e.deleted then 1 else 0
    ensures |StampBytes(e)| == 22 + |e.txnId|
  {
    var p, flag := pos + 5 + |e.txnId|, if e.deleted then 1 else 0;
    var sv, txn, cv, ws, fl := Le(e.schemaVersion, 4), Blob(e.txnId, 1), Le(e.commitVersion, 8), Le(e.walSeq, 8), Le(flag, 1);
    assert fl == [flag];
    hide Spells, Le;
    AtParts(b, pos, sv, txn + (cv + (ws + fl)));
    AtParts(b, pos + 4, txn, cv + (ws + fl));
    AtParts(b, p, cv, ws + fl);
    AtParts(b, p + 8, ws, fl);
    LeSpells(b, pos, 4, e.schemaVersion);
    BlobHolds(b, pos + 4, 1, e.txnId);
    LeSpells(b, p, 8, e.commitVersion);
    LeSpells(b, p + 8, 8, e.walSeq);
    assert b[p + 16..p + 17] == fl;
    assert b[p + 16..p + 17][0] == b[p + 16];
  }

  /** Where each field of an entry stands and how it is spelled; the last byte before the checksum is the tombstone flag. */
  lemma EntryLayout(e: ChunkEntry, crc: Crc)
    ensures var b := EntryBytes(e, crc);
            var value := 2 + |e.space| + 1 + |e.table| + 1 + |e.recordId|;
            var kind := value + 4 + |e.value|;
            var meta := kind + 1 + if e.contentType.Some? then |e.contentType.value| else 0;
            var stamp := meta + 1 + |MetaBytes(e.userMeta)|;
            var version := stamp + 5 + |e.txnId|;
            && Holds(b, 0, 2, e.space + [0] + e.table + [0] + e.recordId)
            && Holds(b, value, 4, e.value)
            && Holds(b, kind, 1, if e.contentType.Some? then e.contentType.value else [])
            && Spells(b, meta, 1, |e.userMeta|) && MetaHolds(b, meta + 1, e.userMeta)
            && Spells(b, stamp, 4, e.schemaVersion) && Holds(b, stamp + 4, 1, e.txnId)
            && Spells(b, version, 8, e.commitVersion) && Spells(b, version + 8, 8, e.walSeq)
            && |b| == version + 21 && b[version + 16] == (if e.deleted then 1 else 0)
            && Spells(b, version + 17, 4, crc(b[..version + 17]))
  {
    var b, p := EntryBytes(e, crc), Payload(e);
    var q := HeadBytes(e);
    hide Spells, Le, HeadBytes, AttributeBytes, StampBytes, Holds, MetaHolds, MetaBytes, At;
    WholeAt(b);
    AtParts(b, 0, p, Le(crc(p), 4));
    AtParts(b, 0, q, AttributeBytes(e) + StampBytes(e));
    AtParts(b, |q|, AttributeBytes(e), StampBytes(e));
    HeadLayout(b, 0, e);
    AttributeLayout(b, |q|, e);
    StampLayout(b, |q| + |AttributeBytes(e)|, e);
    LeSpells(b, |p|, 4, crc(p));
    assert b[..|p|] == p;
  }

  lemma WholeAt(b: Bytes)
    ensures At(b, 0, b)
  {
    assert b[0..0 + |b|] == b;
  }

  // ---------- Header, footer, file ----------

  /** "XTC1", version 1, then the fields in order. */
  lemma HeaderLayout(h: ChunkHeader)
    ensures var b := HeaderBytes(h);
            var created := 8 + |h.chunkId|;
            var table := created + 24 + 2 + |h.space|;
            var lo := table + 2 + |h.table|;
            var hi := lo + 2 + |h.keyMin|;
            && At(b, 0, [0x58, 0x54, 0x43, 0x31, 1, 0]) && Holds(b, 6, 2, h.chunkId)
            && Spells(b, created, 8, if h.createdAt < 0 then h.createdAt + 0x1_0000_0000_0000_0000 else h.createdAt)
            && Spells(b, created + 8, 8, h.compressedLen) && Spells(b, created + 16, 8, h.uncompressedLen)
            && Holds(b, created + 24, 2, h.space) && Holds(b, table, 2, h.table)
            && Holds(b, lo, 2, h.keyMin) && Holds(b, hi, 2, h.keyMax)
            && Spells(b, hi + 2 + |h.keyMax|, 8, h.recordCount) && |b| == hi + 2 + |h.keyMax| + 8
  {
    var b := HeaderBytes(h);
    hide Spells, Le, Holds, At, StartBytes, NumberBytes, NameBytes;
    WholeAt(b);
    AtParts(b, 0, StartBytes(h), NumberBytes(h) + NameBytes(h));
    AtParts(b, |StartBytes(h)|, NumberBytes(h), NameBytes(h));
    StartLayout(b, h);
    NumbersLayout(b, 8 + |h.chunkId|, h);
    NamesLayout(b, 8 + |h.chunkId| + 24, h);
  }

  lemma StartLayout(b: Bytes, h: ChunkHeader)
    requires At(b, 0, StartBytes(h))
    ensures At(b, 0, [0x58, 0x54, 0x43, 0x31, 1, 0]) && Holds(b, 6, 2, h.chunkId) && |StartBytes(h)| == 8 + |h.chunkId|
  {
    var first := [0x58, 0x54, 0x43, 0x31, 1, 0];
    assert Le(CHUNK_VERSION, 2) == [1, 0];
    assert StartBytes(h) == first + Blob(h.chunkId, 2);
    hide Spells, Le;
    AtParts(b, 0, first, Blob(h.chunkId, 2));
    BlobHolds(b, 6, 2, h.chunkId);
  }

  lemma NumbersLayout(b: Bytes, pos: nat, h: ChunkHeader)
    requires At(b, pos, NumberBytes(h))
    ensures Spells(b, pos, 8, if h.createdAt < 0 then h.createdAt + 0x1_0000_0000_0000_0000 else h.createdAt)
    ensures Spells(b, pos + 8, 8, h.compressedLen) && Spells(b, pos + 16, 8, h.uncompressedLen) && |NumberBytes(h)| == 24
  {
    hide Spells, Le, At;
    var x, y, z := Le(ToBits(h.createdAt), 8), Le(h.compressedLen, 8), Le(h.uncompressedLen, 8);
    AtParts(b, pos, x, y + z);
    AtParts(b, pos + 8, y, z);
    LeSpells(b, pos, 8, ToBits(h.createdAt));
    LeSpells(b, pos + 8, 8, h.compressedLen);
    LeSpells(b, pos + 16, 8, h.uncompressedLen);
  }

  lemma NamesLayout(b: Bytes, pos: nat, h: ChunkHeader)
    requires At(b, pos, NameBytes(h))
    ensures var table := pos + 2 + |h.space|;
            var lo := table + 2 + |h.table|;
            var hi := lo + 2 + |h.keyMin|;
            && Holds(b, pos, 2, h.space) && Holds(b, table, 2, h.table) && Holds(b, lo, 2, h.keyMin) && Holds(b, hi, 2, h.keyMax)
            && Spells(b, hi + 2 + |h.keyMax|, 8, h.recordCount) && pos + |NameBytes(h)| == hi + 2 + |h.keyMax| + 8
  {
    hide Spells, Le, At, Holds;
    var s, t, lo, hi, n := Blob(h.space, 2), Blob(h.table, 2), Blob(h.keyMin, 2), Blob(h.keyMax, 2), Le(h.recordCount, 8);
    var p1 := pos + 2 + |h.space|;
    var p2 := p1 + 2 + |h.table|;
    var p3 := p2 + 2 + |h.keyMin|;
    AtParts(b, pos, s, t + (lo + (hi + n)));
    AtParts(b, p1, t, lo + (hi + n));
    AtParts(b, p2, lo, hi + n);
    AtParts(b, p3, hi, n);
    BlobHolds(b, pos, 2, h.space);
    BlobHolds(b, p1, 2, h.table);
    BlobHolds(b, p2, 2, h.keyMin);
    BlobHolds(b, p3, 2, h.keyMax);
    LeSpells(b, p3 + 2 + |h.keyMax|, 8, h.recordCount);
  }

  /** Filter, key index, checksum, and "XTCF" at the end. */
  lemma FooterLayout(f: ChunkFooter, c: Codecs)
    ensures var b := FooterBytes(f, c);
            var index := 4 + |f.bloom|;
            var crc := index + 4 + |c.serialize(f.keyIndex)|;
            && Holds(b, 0, 4, f.bloom) && Holds(b, index, 4, c.serialize(f.keyIndex)) && Spells(b, crc, 4, f.bodyCrc)
            && |b| == crc + 8 && At(b, crc + 4, [0x58, 0x54, 0x43, 0x46])
  {
    var b, x, y, n := FooterBytes(f, c), Blob(f.bloom, 4), Blob(c.serialize(f.keyIndex), 4), Le(f.bodyCrc, 4);
    hide Spells, Le, At, Holds;
    WholeAt(b);
    AtParts(b, 0, x, y + (n + FOOTER_MAGIC));
    AtParts(b, |x|, y, n + FOOTER_MAGIC);
    AtParts(b, |x| + |y|, n, FOOTER_MAGIC);
    BlobHolds(b, 0, 4, f.bloom);
    BlobHolds(b, |x|, 4, c.serialize(f.keyIndex));
    LeSpells(b, |x| + |y|, 4, f.bodyCrc);
  }
}
