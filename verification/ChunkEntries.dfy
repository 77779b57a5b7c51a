/** One chunk entry on the wire, and a body of entries packed end to end. */
module ChunkEntries {
  import opened Primitives
  import opened LittleEndian
  import opened ChunkKeys

  /** Text fields are their UTF-8 bytes. */
  datatype ChunkEntry = ChunkEntry(
    space: Bytes,
    table: Bytes,
    recordId: Bytes,
    value: Bytes,
    commitVersion: u64,
    txnId: Bytes,
    deleted: bool,
    contentType: Option<Bytes>,
    userMeta: seq<(Bytes, Bytes)>,
    schemaVersion: u32,
    walSeq: u64)

  type Crc = Bytes -> u32

  // ---------- Encoding ----------

  function KeyOf(e: ChunkEntry): Bytes {
    Compose(e.space, e.table, e.recordId)
  }

  function TypeText(e: ChunkEntry): Bytes {
    if e.contentType.Some? then e.contentType.value else []
  }

  function MetaBytes(meta: seq<(Bytes, Bytes)>): Bytes {
    if meta == [] then [] else Blob(meta[0].0, 1) + (Blob(meta[0].1, 1) + MetaBytes(meta[1..]))
  }

  function HeadBytes(e: ChunkEntry): Bytes {
    Blob(KeyOf(e), 2) + Blob(e.value, 4)
  }

  function AttributeBytes(e: ChunkEntry): Bytes {
    Blob(TypeText(e), 1) + (Le(|e.userMeta|, 1) + MetaBytes(e.userMeta))
  }

  function StampBytes(e: ChunkEntry): Bytes {
    Le(e.schemaVersion, 4) + (Blob(e.txnId, 1) +
      (Le(e.commitVersion, 8) + (Le(e.walSeq, 8) + Le(if e.deleted then 1 else 0, 1))))
  }

  function Payload(e: ChunkEntry): Bytes {
    HeadBytes(e) + (AttributeBytes(e) + StampBytes(e))
  }

  function EntryBytes(e: ChunkEntry, crc: Crc): Bytes {
    Payload(e) + Le(crc(Payload(e)), 4)
  }

  // ---------- Decoding ----------

  function SplitNul(s: Bytes): (parts: seq<Bytes>)
    ensures parts != []
  {
    if s == [] then [[]]
    else
      var rest := SplitNul(s[1..]);
      if s[0] == 0 then [[]] + rest else [[s[0]] + rest[0]] + rest[1..]
  }

  function Part(parts: seq<Bytes>, i: nat): Bytes {
    if i < |parts| then parts[i] else []
  }

  function ReadMeta(buf: Bytes, pos: nat, n: nat): Result<(seq<(Bytes, Bytes)>, nat)>
    decreases n
  {
    if n == 0 then Ok(([], pos))
    else
      var (k, p1) :- ReadBlob(buf, pos, 1);
      var (v, p2) :- ReadBlob(buf, p1, 1);
      var (rest, p3) :- ReadMeta(buf, p2, n - 1);
      Ok(([(k, v)] + rest, p3))
  }

  function ReadHead(buf: Bytes, pos: nat): Result<((Bytes, Bytes), nat)> {
    var (key, p1) :- ReadBlob(buf, pos, 2);
    var (value, p2) :- ReadBlob(buf, p1, 4);
    Ok(((key, value), p2))
  }

  function ReadAttributes(buf: Bytes, pos: nat): Result<((Bytes, seq<(Bytes, Bytes)>), nat)> {
    var (ct, p1) :- ReadBlob(buf, pos, 1);
    var (n, p2) :- ReadLe(buf, p1, 1);
    var (meta, p3) :- ReadMeta(buf, p2, n);
    Ok(((ct, meta), p3))
  }

  datatype Stamp = Stamp(schemaVersion: u32, txnId: Bytes, commitVersion: u64, walSeq: u64, flags: nat)

  function ReadStamp(buf: Bytes, pos: nat): Result<(Stamp, nat)> {
    var (sv, p1) :- ReadU32(buf, pos);
    var (txn, p2) :- ReadBlob(buf, p1, 1);
    var (cv, p3) :- ReadU64(buf, p2);
    var (ws, p4) :- ReadU64(buf, p3);
    var (flags, p5) :- ReadLe(buf, p4, 1);
    Ok((Stamp(sv, txn, cv, ws, flags), p5))
  }

  function Assemble(key: Bytes, value: Bytes, ct: Bytes, meta: seq<(Bytes, Bytes)>, s: Stamp): ChunkEntry {
    var parts := SplitNul(key);
    ChunkEntry(Part(parts, 0), Part(parts, 1), Part(parts, 2), value, s.commitVersion, s.txnId, s.flags % 2 == 1,
               if ct == [] then None else Some(ct), meta, s.schemaVersion, s.walSeq)
  }

  /** The checksum is read past and not compared. */
  function ReadEntry(buf: Bytes, pos: nat): Result<(ChunkEntry, nat)> {
    var ((key, value), p1) :- ReadHead(buf, pos);
    var ((ct, meta), p2) :- ReadAttributes(buf, p1);
    var (s, p3) :- ReadStamp(buf, p2);
    var (_, p4) :- ReadLe(buf, p3, 4);
    Ok((Assemble(key, value, ct, meta, s), p4))
  }

  // ---------- Lengths that fit their prefixes ----------

  predicate Fits(e: ChunkEntry) {
    && |KeyOf(e)| < Width(2) && |e.value| < Width(4) && |TypeText(e)| < Width(1) && |e.txnId| < Width(1)
    && |e.userMeta| < Width(1)
    && forall i :: 0 <= i < |e.userMeta| ==> |e.userMeta[i].0| < Width(1) && |e.userMeta[i].1| < Width(1)
  }

  /** What the format can represent: key parts without NUL, no empty content type. */
  predicate Plain(e: ChunkEntry) {
    NulFree(e.space) && NulFree(e.table) && NulFree(e.recordId) && e.contentType != Some([])
  }

  // ---------- Reading back ----------

  lemma HeadReads(buf: Bytes, pos: nat, e: ChunkEntry)
    requires At(buf, pos, HeadBytes(e)) && Fits(e)
    ensures ReadHead(buf, pos) == Ok(((KeyOf(e), e.value), pos + |HeadBytes(e)|))
  {
    hide Width, Le, ReadBlob, Blob, At, Compose;
    AtParts(buf, pos, Blob(KeyOf(e), 2), Blob(e.value, 4));
    BlobReads(buf, pos, KeyOf(e), 2);
    BlobReads(buf, pos + |Blob(KeyOf(e), 2)|, e.value, 4);
  }

  lemma {:induction false} MetaReads(buf: Bytes, pos: nat, meta: seq<(Bytes, Bytes)>)
    requires At(buf, pos, MetaBytes(meta))
    requires forall i :: 0 <= i < |meta| ==> |meta[i].0| < Width(1) && |meta[i].1| < Width(1)
    ensures ReadMeta(buf, pos, |meta|) == Ok((meta, pos + |MetaBytes(meta)|))
    decreases |meta|
  {
    hide Width, Le, ReadBlob, Blob;
    if meta != [] {
      var k, v := Blob(meta[0].0, 1), Blob(meta[0].1, 1);
      AtParts(buf, pos, k, v + MetaBytes(meta[1..]));
      AtParts(buf, pos + |k|, v, MetaBytes(meta[1..]));
      BlobReads(buf, pos, meta[0].0, 1);
      BlobReads(buf, pos + |k|, meta[0].1, 1);
      MetaReads(buf, pos + |k| + |v|, meta[1..]);
      assert [meta[0]] + meta[1..] == meta;
    }
  }

  lemma AttributesRead(buf: Bytes, pos: nat, e: ChunkEntry)
    requires At(buf, pos, AttributeBytes(e)) && Fits(e)
    ensures ReadAttributes(buf, pos) == Ok(((TypeText(e), e.userMeta), pos + |AttributeBytes(e)|))
  {
    hide Width, Le, ReadBlob, Blob, At, ReadMeta, MetaBytes, ReadLe;
    var ct, n := Blob(TypeText(e), 1), Le(|e.userMeta|, 1);
    AtParts(buf, pos, ct, n + MetaBytes(e.userMeta));
    AtParts(buf, pos + |ct|, n, MetaBytes(e.userMeta));
    BlobReads(buf, pos, TypeText(e), 1);
    NumReads(buf, pos + |ct|, |e.userMeta|, 1);
    MetaReads(buf, pos + |ct| + |n|, e.userMeta);
  }

  function StampOf(e: ChunkEntry): Stamp {
    Stamp(e.schemaVersion, e.txnId, e.commitVersion, e.walSeq, if e.deleted then 1 else 0)
  }

  lemma StampReads(buf: Bytes, pos: nat, e: ChunkEntry)
    requires At(buf, pos, StampBytes(e)) && Fits(e)
    ensures ReadStamp(buf, pos) == Ok((StampOf(e), pos + |StampBytes(e)|))
  {
    Widths();
    hide Width, Le, ReadBlob, Blob, At, ReadLe;
    var sv, txn, cv, ws := Le(e.schemaVersion, 4), Blob(e.txnId, 1), Le(e.commitVersion, 8), Le(e.walSeq, 8);
    var fl := Le(if e.deleted then 1 else 0, 1);
    var p1 := pos + |sv|;
    var p2 := p1 + |txn|;
    var p3 := p2 + |cv|;
    AtParts(buf, pos, sv, txn + (cv + (ws + fl)));
    AtParts(buf, p1, txn, cv + (ws + fl));
    AtParts(buf, p2, cv, ws + fl);
    AtParts(buf, p3, ws, fl);
    NumReads(buf, pos, e.schemaVersion, 4);
    BlobReads(buf, p1, e.txnId, 1);
    NumReads(buf, p2, e.commitVersion, 8);
    NumReads(buf, p3, e.walSeq, 8);
    NumReads(buf, p3 + |ws|, if e.deleted then 1 else 0, 1);
  }

  /** Reading where an entry was written gives its fields, the key taken apart again. */
  lemma EntryReads(buf: Bytes, pos: nat, e: ChunkEntry, crc: Crc)
    requires At(buf, pos, EntryBytes(e, crc)) && Fits(e)
    ensures ReadEntry(buf, pos) == Ok((Assemble(KeyOf(e), e.value, TypeText(e), e.userMeta, StampOf(e)), pos + |EntryBytes(e, crc)|))
  {
    Widths();
    hide Width, Le, ReadBlob, Blob, At, ReadHead, ReadAttributes, ReadStamp, HeadBytes, AttributeBytes, StampBytes, Fits, Assemble;
    var head, attr, stamp := HeadBytes(e), AttributeBytes(e), StampBytes(e);
    AtParts(buf, pos, Payload(e), Le(crc(Payload(e)), 4));
    AtParts(buf, pos, head, attr + stamp);
    AtParts(buf, pos + |head|, attr, stamp);
    HeadReads(buf, pos, e);
    AttributesRead(buf, pos + |head|, e);
    StampReads(buf, pos + |head| + |attr|, e);
    NumReads(buf, pos + |Payload(e)|, crc(Payload(e)), 4);
  }

  // ---------- The exact round trip ----------

  lemma {:induction false} SplitFirst(a: Bytes, b: Bytes)
    requires NulFree(a)
    ensures SplitNul(a + [0] + b) == [a] + SplitNul(b)
  {
    var s := a + [0] + b;
    if a == [] {
      assert s[1..] == b;
    } else {
      assert s[1..] == a[1..] + [0] + b;
      SplitFirst(a[1..], b);
      assert [a[0]] + a[1..] == a;
      assert ([a[1..]] + SplitNul(b))[1..] == SplitNul(b);
    }
  }

  lemma {:induction false} SplitPlain(a: Bytes)
    requires NulFree(a)
    ensures SplitNul(a) == [a]
  {
    if a != [] {
      SplitPlain(a[1..]);
      assert [a[0]] + a[1..] == a;
    }
  }

  lemma {:induction false} PartsAreNulFree(s: Bytes)
    ensures forall i :: 0 <= i < |SplitNul(s)| ==> NulFree(SplitNul(s)[i])
  {
    if s != [] {
      PartsAreNulFree(s[1..]);
    }
  }

  lemma KeySplits(e: ChunkEntry)
    requires NulFree(e.space) && NulFree(e.table) && NulFree(e.recordId)
    ensures SplitNul(KeyOf(e)) == [e.space, e.table, e.recordId]
  {
    assert KeyOf(e) == e.space + [0] + (e.table + [0] + e.recordId);
    SplitFirst(e.space, e.table + [0] + e.recordId);
    SplitFirst(e.table, e.recordId);
    SplitPlain(e.recordId);
  }

  lemma {:induction false} PartsFit(s: Bytes)
    ensures |Part(SplitNul(s), 0)| + |Part(SplitNul(s), 1)| + |Part(SplitNul(s), 2)| <= |s|
  {
    if s != [] {
      PartsFit(s[1..]);
      PairFits(s[1..]);
    }
  }

  lemma {:induction false} PairFits(s: Bytes)
    ensures |Part(SplitNul(s), 0)| + |Part(SplitNul(s), 1)| <= |s|
  {
    if s != [] {
      PairFits(s[1..]);
    }
  }

  lemma BlobBound(buf: Bytes, pos: nat, w: nat)
    requires ReadBlob(buf, pos, w).Ok?
    ensures |ReadBlob(buf, pos, w).value.0| < Width(w)
  {
    LeBound(buf[pos..pos + w]);
  }

  lemma {:induction false} MetaBound(buf: Bytes, pos: nat, n: nat)
    requires ReadMeta(buf, pos, n).Ok?
    ensures var meta := ReadMeta(buf, pos, n).value.0;
            |meta| == n && forall i :: 0 <= i < n ==> |meta[i].0| < Width(1) && |meta[i].1| < Width(1)
    decreases n
  {
    hide Width, ReadBlob;
    if n > 0 {
      BlobBound(buf, pos, 1);
      var p1 := ReadBlob(buf, pos, 1).value.1;
      BlobBound(buf, p1, 1);
      MetaBound(buf, ReadBlob(buf, p1, 1).value.1, n - 1);
    }
  }

  /** Whatever stands in the buffer, what is read never exceeds its prefixes, and the key is no longer than its prefix says. */
  lemma ReadFits(buf: Bytes, pos: nat)
    requires ReadEntry(buf, pos).Ok?
    ensures var e := ReadEntry(buf, pos).value.0;
            && |e.value| < Width(4) && |TypeText(e)| < Width(1) && |e.txnId| < Width(1) && |e.userMeta| < Width(1)
            && (forall i :: 0 <= i < |e.userMeta| ==> |e.userMeta[i].0| < Width(1) && |e.userMeta[i].1| < Width(1))
            && |e.space| + |e.table| + |e.recordId| <= FromLe(buf[pos..pos + 2])
  {
    hide Width, ReadLe, FromLe, SplitNul, ReadBlob, ReadMeta, ReadU32, ReadU64;
    KeyBound(buf, pos);
    var (key, p1) := ReadBlob(buf, pos, 2).value;
    PartsFit(key);
    BlobBound(buf, p1, 4);
    var (value, p2) := ReadBlob(buf, p1, 4).value;
    BlobBound(buf, p2, 1);
    var (ct, p3) := ReadBlob(buf, p2, 1).value;
    var (n, p4) := ReadLe(buf, p3, 1).value;
    ByteBound(buf, p3);
    MetaBound(buf, p4, n);
    var (meta, p5) := ReadMeta(buf, p4, n).value;
    var (sv, p6) := ReadU32(buf, p5).value;
    BlobBound(buf, p6, 1);
  }

  lemma KeyBound(buf: Bytes, pos: nat)
    requires ReadBlob(buf, pos, 2).Ok?
    ensures pos + 2 <= |buf| && |ReadBlob(buf, pos, 2).value.0| == FromLe(buf[pos..pos + 2])
  {
  }

  lemma ByteBound(buf: Bytes, pos: nat)
    requires ReadLe(buf, pos, 1).Ok?
    ensures ReadLe(buf, pos, 1).value.0 < Width(1)
  {
    LeBound(buf[pos..pos + 1]);
  }

  /** The prefix an encoded entry starts with is its key's length cut to two bytes. */
  lemma KeyPrefix(buf: Bytes, pos: nat, e: ChunkEntry, crc: Crc)
    requires At(buf, pos, EntryBytes(e, crc))
    ensures pos + 2 <= |buf| && FromLe(buf[pos..pos + 2]) == |KeyOf(e)| % Width(2)
  {
    hide Width, Le, FromLe, Compose, AttributeBytes, StampBytes, At;
    var n := Le(|KeyOf(e)|, 2);
    LeReads(|KeyOf(e)|, 2);
    AtParts(buf, pos, Payload(e), Le(crc(Payload(e)), 4));
    AtParts(buf, pos, HeadBytes(e), AttributeBytes(e) + StampBytes(e));
    AtParts(buf, pos, Blob(KeyOf(e), 2), Blob(e.value, 4));
    AtParts(buf, pos, n, KeyOf(e));
    AtIs(buf, pos, n);
  }

  lemma AtIs(buf: Bytes, pos: nat, x: Bytes)
    requires At(buf, pos, x)
    ensures pos + |x| <= |buf| && buf[pos..pos + |x|] == x
  {
  }

  lemma ReadBackFits(buf: Bytes, pos: nat, e: ChunkEntry, crc: Crc)
    requires At(buf, pos, EntryBytes(e, crc)) && ReadEntry(buf, pos).Ok? && ReadEntry(buf, pos).value.0 == e
    ensures Fits(e)
  {
    hide ReadEntry, EntryBytes, At, FromLe;
    Widths();
    ReadFits(buf, pos);
    KeyPrefix(buf, pos, e, crc);
    assert |KeyOf(e)| == |e.space| + |e.table| + |e.recordId| + 2;
  }

  /** An entry is read back unchanged if and only if its lengths fit their prefixes and it is plain. */
  lemma EntryRoundTrip(buf: Bytes, pos: nat, e: ChunkEntry, crc: Crc)
    requires At(buf, pos, EntryBytes(e, crc))
    ensures ReadEntry(buf, pos).Ok? && ReadEntry(buf, pos).value.0 == e <==> Fits(e) && Plain(e)
    ensures Fits(e) && Plain(e) ==> ReadEntry(buf, pos) == Ok((e, pos + |EntryBytes(e, crc)|))
  {
    hide ReadEntry, EntryBytes, At, SplitNul, KeyOf, Fits;
    if ReadEntry(buf, pos).Ok? && ReadEntry(buf, pos).value.0 == e {
      ReadBackFits(buf, pos, e, crc);
    }
    if Fits(e) {
      EntryReads(buf, pos, e, crc);
      PartsAreNulFree(KeyOf(e));
      if NulFree(e.space) && NulFree(e.table) && NulFree(e.recordId) {
        KeySplits(e);
      }
    }
  }

  // ---------- Bodies ----------

  function BodyBytes(es: seq<ChunkEntry>, crc: Crc): Bytes {
    if es == [] then [] else EntryBytes(es[0], crc) + BodyBytes(es[1..], crc)
  }

  lemma {:induction false} MetaAdvances(buf: Bytes, pos: nat, n: nat)
    ensures ReadMeta(buf, pos, n).Ok? ==> pos <= ReadMeta(buf, pos, n).value.1
    decreases n
  {
    if n > 0 && ReadMeta(buf, pos, n).Ok? {
      var (k, p1) := ReadBlob(buf, pos, 1).value;
      var (v, p2) := ReadBlob(buf, p1, 1).value;
      MetaAdvances(buf, p2, n - 1);
    }
  }

  /** Reading an entry moves forward and stays within the buffer. */
  lemma EntryAdvances(buf: Bytes, pos: nat)
    ensures ReadEntry(buf, pos).Ok? ==> pos < ReadEntry(buf, pos).value.1 <= |buf|
  {
    hide Assemble, FromLe;
    if ReadEntry(buf, pos).Ok? {
      var (_, p1) := ReadHead(buf, pos).value;
      var (ct, q1) := ReadBlob(buf, p1, 1).value;
      var (n, q2) := ReadLe(buf, q1, 1).value;
      MetaAdvances(buf, q2, n);
    }
  }

  /** Entries until the buffer is used up. */
  function ReadBody(buf: Bytes, pos: nat): Result<seq<ChunkEntry>>
    decreases |buf| - pos
  {
    if pos >= |buf| then Ok([])
    else
      EntryAdvances(buf, pos);
      var (e, p) :- ReadEntry(buf, pos);
      var rest :- ReadBody(buf, p);
      Ok([e] + rest)
  }

  lemma EntryIsLong(e: ChunkEntry, crc: Crc)
    ensures |EntryBytes(e, crc)| >= 4
  {
    hide Payload;
  }

  /** A body decodes to exactly the entries it was packed from if and only if each of them survives on its own. */
  lemma {:induction false} BodyReads(buf: Bytes, pos: nat, es: seq<ChunkEntry>, crc: Crc)
    requires At(buf, pos, BodyBytes(es, crc)) && pos + |BodyBytes(es, crc)| == |buf|
    ensures ReadBody(buf, pos) == Ok(es) <==> forall i :: 0 <= i < |es| ==> Fits(es[i]) && Plain(es[i])
    decreases |es|
  {
    hide ReadEntry, EntryBytes, At, Fits, Plain;
    if es != [] {
      var b, rest := EntryBytes(es[0], crc), BodyBytes(es[1..], crc);
      EntryIsLong(es[0], crc);
      AtParts(buf, pos, b, rest);
      EntryRoundTrip(buf, pos, es[0], crc);
      BodyReads(buf, pos + |b|, es[1..], crc);
      if ReadBody(buf, pos) == Ok(es) { BodyHead(buf, pos); }
      assert [es[0]] + es[1..] == es;
      assert forall i :: 1 <= i < |es| ==> es[i] == es[1..][i - 1];
    }
  }

  /** What is read first is the entry at the start, then the rest. */
  lemma BodyHead(buf: Bytes, pos: nat)
    requires pos < |buf| && ReadBody(buf, pos).Ok?
    ensures ReadEntry(buf, pos).Ok? && ReadBody(buf, ReadEntry(buf, pos).value.1).Ok?
    ensures ReadBody(buf, pos).value == [ReadEntry(buf, pos).value.0] + ReadBody(buf, ReadEntry(buf, pos).value.1).value
  {
    hide ReadEntry;
  }

  lemma {:induction false} BodySplits(a: seq<ChunkEntry>, b: seq<ChunkEntry>, crc: Crc)
    ensures BodyBytes(a + b, crc) == BodyBytes(a, crc) + BodyBytes(b, crc)
  {
    if a == [] {
      assert a + b == b;
    } else {
      assert (a + b)[1..] == a[1..] + b;
      BodySplits(a[1..], b, crc);
    }
  }

  /** Entry `i` stands at the total length of the entries before it. */
  lemma EntryStands(es: seq<ChunkEntry>, i: nat, crc: Crc)
    requires i < |es|
    ensures At(BodyBytes(es, crc), |BodyBytes(es[..i], crc)|, EntryBytes(es[i], crc))
  {
    hide EntryBytes;
    assert es == es[..i] + es[i..];
    BodySplits(es[..i], es[i..], crc);
    assert es[i..][0] == es[i];
    var before, e, after := BodyBytes(es[..i], crc), EntryBytes(es[i], crc), BodyBytes(es[i..][1..], crc);
    assert BodyBytes(es[i..], crc) == e + after;
    assert (before + (e + after))[|before|..|before| + |e|] == e;
  }

  // ---------- The encoder and decoders as they run ----------

  method EncodeMetaInto(buf: Bytes, meta: seq<(Bytes, Bytes)>) returns (out: Bytes)
    ensures out == buf + MetaBytes(meta)
  {
    out := buf;
    for i := 0 to |meta|
      invariant out + MetaBytes(meta[i..]) == buf + MetaBytes(meta)
    {
      assert meta[i..][1..] == meta[i + 1..] && meta[i..][0] == meta[i];
      ghost var was := out;
      out := out + Blob(meta[i].0, 1) + Blob(meta[i].1, 1);
      assert out + MetaBytes(meta[i + 1..]) == was + MetaBytes(meta[i..]);
    }
    assert meta[|meta|..] == [];
  }

  /** Appends one entry to a buffer, its checksum taken over what was appended. */
  method EncodeEntryInto(buf: Bytes, e: ChunkEntry, crc: Crc) returns (out: Bytes)
    ensures out == buf + EntryBytes(e, crc)
  {
    hide Le, Blob, MetaBytes, KeyOf, TypeText;
    out := buf + Blob(KeyOf(e), 2) + Blob(e.value, 4);
    assert out == buf + HeadBytes(e);
    var attributes := Blob(TypeText(e), 1) + Le(|e.userMeta|, 1);
    var all := EncodeMetaInto(attributes, e.userMeta);
    assert all == AttributeBytes(e);
    out := out + all;
    var stamp := Le(e.schemaVersion, 4) + Blob(e.txnId, 1) + Le(e.commitVersion, 8) + Le(e.walSeq, 8);
    stamp := stamp + Le(if e.deleted then 1 else 0, 1);
    assert stamp == StampBytes(e);
    hide HeadBytes, AttributeBytes, StampBytes;
    out := out + stamp;
    assert out == buf + Payload(e);
    var start := |out| - |Payload(e)|;
    assert out[start..] == Payload(e);
    out := out + Le(crc(out[start..]), 4);
  }

  method DecodeMeta(buf: Bytes, pos: nat, n: nat) returns (r: Result<(seq<(Bytes, Bytes)>, nat)>)
    ensures r == ReadMeta(buf, pos, n)
  {
    hide ReadBlob;
    var meta: seq<(Bytes, Bytes)>, p := [], pos;
    assert ReadMeta(buf, pos, n).Ok? ==> [] + ReadMeta(buf, pos, n).value.0 == ReadMeta(buf, pos, n).value.0;
    for i := 0 to n
      invariant match ReadMeta(buf, p, n - i)
                case Ok((rest, q)) => ReadMeta(buf, pos, n) == Ok((meta + rest, q))
                case Err(reason) => ReadMeta(buf, pos, n) == Err(reason)
    {
      var k := ReadBlob(buf, p, 1);
      if k.Err? {
        return Err(k.reason);
      }
      var v := ReadBlob(buf, k.value.1, 1);
      if v.Err? {
        return Err(v.reason);
      }
      ghost var rest := ReadMeta(buf, v.value.1, n - i - 1);
      if rest.Ok? {
        assert meta + ([(k.value.0, v.value.0)] + rest.value.0) == meta + [(k.value.0, v.value.0)] + rest.value.0;
      }
      meta := meta + [(k.value.0, v.value.0)];
      p := v.value.1;
    }
    assert meta + [] == meta;
    r := Ok((meta, p));
  }

  method DecodeBodyEntries(body: Bytes) returns (r: Result<seq<ChunkEntry>>)
    ensures r == ReadBody(body, 0)
  {
    hide ReadEntry;
    var entries: seq<ChunkEntry>, offset := [], 0;
    assert ReadBody(body, 0).Ok? ==> [] + ReadBody(body, 0).value == ReadBody(body, 0).value;
    while offset < |body|
      invariant offset <= |body|
      invariant match ReadBody(body, offset)
                case Ok(rest) => ReadBody(body, 0) == Ok(entries + rest)
                case Err(reason) => ReadBody(body, 0) == Err(reason)
    {
      var e := ReadEntry(body, offset);
      EntryAdvances(body, offset);
      if e.Err? {
        return Err(e.reason);
      }
      ghost var rest := ReadBody(body, e.value.1);
      if rest.Ok? {
        assert entries + ([e.value.0] + rest.value) == entries + [e.value.0] + rest.value;
      }
      entries := entries + [e.value.0];
      offset := e.value.1;
    }
    assert entries + [] == entries;
    r := Ok(entries);
  }
}
