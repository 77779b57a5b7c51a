/** The chunk's bloom filter, for an arbitrary hash function. */
module Bloom {
  import opened Primitives
  import opened LittleEndian

  const BITS_PER_KEY: nat := 10

  predicate Bit(b: nat, i: nat) {
    if i == 0 then b % 2 == 1 else Bit(b / 2, i - 1)
  }

  /** `b | (1 << i)` */
  function SetBit(b: nat, i: nat): nat {
    if i == 0 then (if b % 2 == 1 then b else b + 1) else 2 * SetBit(b / 2, i - 1) + b % 2
  }

  lemma {:induction false} SetBitSets(b: nat, i: nat, j: nat)
    ensures Bit(SetBit(b, i), j) <==> i == j || Bit(b, j)
  {
    if i == 0 {
      if j > 0 {
        assert SetBit(b, 0) / 2 == b / 2;
      }
    } else {
      assert SetBit(b, i) / 2 == SetBit(b / 2, i - 1) && SetBit(b, i) % 2 == b % 2;
      if j > 0 {
        SetBitSets(b / 2, i - 1, j - 1);
      }
    }
  }

  function Pow2(n: nat): (r: nat)
    ensures r >= 1
  {
    if n == 0 then 1 else 2 * Pow2(n - 1)
  }

  lemma {:induction false} SetBitFits(b: nat, i: nat, n: nat)
    requires i < n && b < Pow2(n)
    ensures SetBit(b, i) < Pow2(n)
  {
    assert Pow2(n) == 2 * Pow2(n - 1);
    if i > 0 {
      assert b / 2 < Pow2(n - 1);
      SetBitFits(b / 2, i - 1, n - 1);
      assert SetBit(b, i) <= 2 * SetBit(b / 2, i - 1) + 1;
    }
  }

  function SetByte(b: u8, i: nat): (r: u8)
    requires i < 8
    ensures r == SetBit(b, i)
  {
    assert Pow2(8) == 256 by {
      assert Pow2(4) == 16;
    }
    SetBitFits(b, i, 8);
    SetBit(b, i)
  }

  // ---------- Building and probing ----------

  function Max(a: nat, b: nat): nat {
    if a >= b then a else b
  }

  /** Length of the filter for this many keys. */
  function FilterBytes(keys: nat): (n: nat)
    ensures n >= 8
  {
    (Max(Max(keys, 1) * BITS_PER_KEY, 64) + 7) / 8
  }

  predicate BitAt(bits: Bytes, pos: nat)
    requires pos < 8 * |bits|
  {
    Bit(bits[pos / 8], pos % 8)
  }

  function Positions(n: nat, key: Bytes, hash: Bytes -> u64): (r: (nat, nat))
    requires n > 0
    ensures r.0 < 8 * n && r.1 < 8 * n
  {
    var h1 := hash(key);
    var h2 := hash(Le(h1, 8));
    (h1 % (n * 8), h2 % (n * 8))
  }

  predicate MayContain(bits: Bytes, key: Bytes, hash: Bytes -> u64) {
    |bits| == 0 || (BitAt(bits, Positions(|bits|, key, hash).0) && BitAt(bits, Positions(|bits|, key, hash).1))
  }

  method SetAt(bits: array<u8>, pos: nat)
    requires pos < 8 * bits.Length
    modifies bits
    ensures forall p :: 0 <= p < 8 * bits.Length ==> (BitAt(bits[..], p) <==> p == pos || old(BitAt(bits[..], p)))
  {
    ghost var was := bits[..];
    bits[pos / 8] := SetByte(bits[pos / 8], pos % 8);
    forall p | 0 <= p < 8 * bits.Length
      ensures BitAt(bits[..], p) <==> p == pos || BitAt(was, p)
    {
      SetBitSets(was[pos / 8], pos % 8, p % 8);
      assert p / 8 == pos / 8 && p % 8 == pos % 8 ==> p == pos;
    }
  }

  /** One of the two bits the key sets in a filter of `n` bytes. */
  ghost predicate Marks(n: nat, key: Bytes, hash: Bytes -> u64, p: nat)
    requires n > 0
  {
    p == hash(key) % (8 * n) || p == hash(Le(hash(key), 8)) % (8 * n)
  }

  ghost predicate MarkedBy(n: nat, keys: seq<Bytes>, hash: Bytes -> u64, p: nat)
    requires n > 0
  {
    exists i :: 0 <= i < |keys| && Marks(n, keys[i], hash, p)
  }

  /** Exactly the bits of the keys are set. */
  ghost predicate Exact(bits: Bytes, keys: seq<Bytes>, hash: Bytes -> u64) {
    |bits| > 0 && forall p :: 0 <= p < 8 * |bits| ==> (BitAt(bits, p) <==> MarkedBy(|bits|, keys, hash, p))
  }

  lemma MoreMarked(n: nat, keys: seq<Bytes>, key: Bytes, hash: Bytes -> u64, p: nat)
    requires n > 0
    ensures MarkedBy(n, keys + [key], hash, p) <==> MarkedBy(n, keys, hash, p) || Marks(n, key, hash, p)
  {
    if MarkedBy(n, keys, hash, p) {
      var i :| 0 <= i < |keys| && Marks(n, keys[i], hash, p);
      assert (keys + [key])[i] == keys[i];
    }
    assert (keys + [key])[|keys|] == key;
  }

  /** An exact filter says yes exactly when both bits of the key are bits of some key it was built from. */
  lemma ExactAnswers(bits: Bytes, keys: seq<Bytes>, hash: Bytes -> u64, key: Bytes)
    requires Exact(bits, keys, hash)
    ensures MayContain(bits, key, hash) <==>
              MarkedBy(|bits|, keys, hash, hash(key) % (8 * |bits|)) && MarkedBy(|bits|, keys, hash, hash(Le(hash(key), 8)) % (8 * |bits|))
    ensures key in keys ==> MayContain(bits, key, hash)
  {
    hide Bit, Le;
    var n := |bits|;
    var (p1, p2) := Positions(n, key, hash);
    assert n * 8 == 8 * n;
    assert BitAt(bits, p1) <==> MarkedBy(n, keys, hash, p1);
    assert BitAt(bits, p2) <==> MarkedBy(n, keys, hash, p2);
    if key in keys {
      var i :| 0 <= i < |keys| && keys[i] == key;
      assert Marks(n, keys[i], hash, p1) && Marks(n, keys[i], hash, p2);
    }
  }

  lemma {:induction false} BitMeans(b: nat, i: nat)
    ensures Bit(b, i) <==> b / Pow2(i) % 2 == 1
  {
    if i > 0 {
      BitMeans(b / 2, i - 1);
      HalfDiv(b, Pow2(i - 1));
    }
  }

  lemma HalfDiv(b: nat, d: nat)
    requires d >= 1
    ensures b / 2 / d == b / (2 * d)
  {
    var q, a, r := b / 2, b / 2 / d, b / 2 % d;
    assert q == d * a + r;
    assert b == (2 * d) * a + (2 * r + b % 2) by {
      assert 2 * (d * a) == (2 * d) * a;
    }
    DivUnique(b, 2 * d, a, 2 * r + b % 2);
  }

  lemma DivUnique(v: nat, d: nat, a: nat, r: nat)
    requires d >= 1 && r < d && v == d * a + r
    ensures v / d == a
  {
    ModUnique(v, d, a, r);
    assert d * (v / d) == d * a;
    MulOrder(d, v / d, a);
  }

  /** The filter has exactly the keys' bits set, so it answers yes for every key it was built from, whatever the hash. */
  method BuildBloom(keys: seq<Bytes>, hash: Bytes -> u64) returns (bits: array<u8>)
    ensures fresh(bits) && bits.Length == FilterBytes(|keys|) == if |keys| <= 6 then 8 else (10 * |keys| + 7) / 8
    ensures Exact(bits[..], keys, hash)
    ensures forall k :: k in keys ==> MayContain(bits[..], k, hash)
  {
    var n := FilterBytes(|keys|);
    bits := new u8[n](_ => 0);
    NoBits();
    for i := 0 to |keys|
      invariant Exact(bits[..], keys[..i], hash)
    {
      hide Bit, FilterBytes;
      ghost var was := bits[..];
      var (p1, p2) := Positions(n, keys[i], hash);
      SetAt(bits, p1);
      SetAt(bits, p2);
      assert keys[..i + 1] == keys[..i] + [keys[i]] && n * 8 == 8 * n;
      forall p | 0 <= p < 8 * n
        ensures BitAt(bits[..], p) <==> MarkedBy(n, keys[..i + 1], hash, p)
      {
        MoreMarked(n, keys[..i], keys[i], hash, p);
        assert BitAt(was, p) <==> MarkedBy(n, keys[..i], hash, p);
      }
    }
    assert keys[..|keys|] == keys;
    forall k | k in keys
      ensures MayContain(bits[..], k, hash)
    {
      ExactAnswers(bits[..], keys, hash, k);
    }
  }

  lemma {:induction false} NoBit(i: nat)
    ensures !Bit(0, i)
  {
    if i > 0 {
      NoBit(i - 1);
    }
  }

  lemma NoBits()
    ensures forall i: nat :: !Bit(0, i)
  {
    forall i: nat
      ensures !Bit(0, i)
    {
      NoBit(i);
    }
  }
}
