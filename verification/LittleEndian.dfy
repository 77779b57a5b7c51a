/** Little-endian numbers and length-prefixed byte strings, written and read back. */
module LittleEndian {
  import opened Primitives

  type Bytes = seq<u8>

  /** The `n` low bytes of `v`. */
  function Le(v: nat, n: nat): (r: Bytes)
    ensures |r| == n
  {
    if n == 0 then [] else [v % 256] + Le(v / 256, n - 1)
  }

  function FromLe(b: Bytes): nat {
    if b == [] then 0 else b[0] + 256 * FromLe(b[1..])
  }

  /** How many numbers `n` bytes can tell apart. */
  function Width(n: nat): (w: nat)
    ensures w >= 1
  {
    if n == 0 then 1 else 256 * Width(n - 1)
  }

  lemma {:induction false} LeReads(v: nat, n: nat)
    ensures FromLe(Le(v, n)) == v % Width(n)
    ensures v < Width(n) ==> FromLe(Le(v, n)) == v
  {
    if v < Width(n) {
      ModUnique(v, Width(n), 0, v);
    }
    if n > 0 {
      LeReads(v / 256, n - 1);
      assert Le(v, n)[1..] == Le(v / 256, n - 1);
      ModShift(v, Width(n - 1));
    }
  }

  lemma ModShift(v: nat, w: nat)
    requires w >= 1
    ensures v % 256 + 256 * ((v / 256) % w) == v % (256 * w)
  {
    var q := v / 256;
    var a, b := q / w, q % w;
    assert v == 256 * q + v % 256;
    assert q == w * a + b;
    assert v == (256 * w) * a + (256 * b + v % 256) by {
      assert 256 * (w * a) == (256 * w) * a;
    }
    assert 0 <= 256 * b + v % 256 < 256 * w;
    ModUnique(v, 256 * w, a, 256 * b + v % 256);
  }

  lemma MulAtLeast(d: nat, k: nat)
    requires k >= 1
    ensures d * k >= d
  {
  }

  lemma MulOrder(d: nat, x: nat, y: nat)
    requires d >= 1
    ensures x < y ==> d * x < d * y
    ensures y < x ==> d * y < d * x
  {
    if x < y {
      assert d * y == d * x + d * (y - x);
      MulAtLeast(d, y - x);
    } else if y < x {
      assert d * x == d * y + d * (x - y);
      MulAtLeast(d, x - y);
    }
  }

  lemma ModUnique(v: nat, d: nat, a: nat, r: nat)
    requires d >= 1 && r < d && v == d * a + r
    ensures v % d == r
  {
    var k := v / d - a;
    assert d * k == r - v % d by {
      assert v == d * (v / d) + v % d;
    }
    if k >= 1 {
      MulAtLeast(d, k);
    } else if k <= -1 {
      MulAtLeast(d, -k);
    }
  }

  /** `x` stands at `pos` in the buffer. */
  predicate At(buf: Bytes, pos: nat, x: Bytes) {
    pos + |x| <= |buf| && buf[pos..pos + |x|] == x
  }

  lemma AtParts(buf: Bytes, pos: nat, x: Bytes, y: Bytes)
    ensures At(buf, pos, x + y) <==> At(buf, pos, x) && At(buf, pos + |x|, y)
  {
    if At(buf, pos, x + y) {
      var s := buf[pos..pos + |x + y|];
      assert s[..|x|] == x && s[|x|..] == y;
      assert buf[pos..pos + |x|] == s[..|x|];
      assert buf[pos + |x|..pos + |x| + |y|] == s[|x|..];
    }
    if At(buf, pos, x) && At(buf, pos + |x|, y) {
      assert buf[pos..pos + |x + y|] == buf[pos..pos + |x|] + buf[pos + |x|..pos + |x| + |y|];
    }
  }

  // ---------- Reading ----------

  function ReadLe(buf: Bytes, pos: nat, n: nat): Result<(nat, nat)> {
    if |buf| < pos + n then Err("truncated") else Ok((FromLe(buf[pos..pos + n]), pos + n))
  }

  lemma {:induction false} LeBound(b: Bytes)
    ensures FromLe(b) < Width(|b|)
  {
    if b != [] {
      LeBound(b[1..]);
    }
  }

  function ReadU32(buf: Bytes, pos: nat): Result<(u32, nat)> {
    var (n, p) :- ReadLe(buf, pos, 4);
    LeBound(buf[pos..pos + 4]);
    Widths();
    Ok((n, p))
  }

  function ReadU64(buf: Bytes, pos: nat): Result<(u64, nat)> {
    var (n, p) :- ReadLe(buf, pos, 8);
    LeBound(buf[pos..pos + 8]);
    Widths();
    Ok((n, p))
  }

  function Take(buf: Bytes, pos: nat, n: nat): Result<(Bytes, nat)> {
    if |buf| < pos + n then Err("truncated") else Ok((buf[pos..pos + n], pos + n))
  }

  /** A byte string behind its length in `w` bytes; a longer one has its length cut off. */
  function Blob(x: Bytes, w: nat): Bytes {
    Le(|x|, w) + x
  }

  function ReadBlob(buf: Bytes, pos: nat, w: nat): Result<(Bytes, nat)> {
    var (n, p) :- ReadLe(buf, pos, w);
    Take(buf, p, n)
  }

  lemma NumReads(buf: Bytes, pos: nat, v: nat, w: nat)
    requires At(buf, pos, Le(v, w)) && v < Width(w)
    ensures ReadLe(buf, pos, w) == Ok((v, pos + w))
  {
    LeReads(v, w);
    hide Width, Le, FromLe;
  }

  lemma BlobReads(buf: Bytes, pos: nat, x: Bytes, w: nat)
    requires At(buf, pos, Blob(x, w)) && |x| < Width(w)
    ensures ReadBlob(buf, pos, w) == Ok((x, pos + |Blob(x, w)|))
  {
    AtParts(buf, pos, Le(|x|, w), x);
    NumReads(buf, pos, |x|, w);
  }

  lemma Widths()
    ensures Width(1) == 256 && Width(2) == 65536 && Width(4) == U32_MAX + 1 && Width(8) == U64_MAX + 1
  {
    assert Width(4) == 256 * 256 * Width(2);
    assert Width(6) == 256 * 256 * Width(4);
    assert Width(8) == 256 * 256 * Width(6);
  }
}
