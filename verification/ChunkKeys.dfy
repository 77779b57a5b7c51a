/** Composed chunk keys: space, table and record id joined by NUL bytes. */
module ChunkKeys {
  import opened LittleEndian

  function Compose(space: Bytes, table: Bytes, id: Bytes): Bytes {
    space + [0] + table + [0] + id
  }

  predicate NulFree(s: Bytes) {
    forall i :: 0 <= i < |s| ==> s[i] != 0
  }

  /** Bytewise lexicographic comparison: negative, zero or positive. */
  function Cmp(a: Bytes, b: Bytes): int {
    if a == [] then (if b == [] then 0 else -1)
    else if b == [] then 1
    else if a[0] != b[0] then a[0] - b[0]
    else Cmp(a[1..], b[1..])
  }

  /** Less exactly for a proper prefix, or a smaller byte at the first difference. */
  lemma {:induction false} CmpMeans(a: Bytes, b: Bytes)
    ensures Cmp(a, b) < 0 <==>
              || (|a| < |b| && a == b[..|a|])
              || exists i :: 0 <= i < |a| && i < |b| && a[..i] == b[..i] && a[i] < b[i]
  {
    if a != [] && b != [] {
      if a[0] == b[0] {
        var x, y := a[1..], b[1..];
        CmpMeans(x, y);
        assert a == [a[0]] + x && b == [b[0]] + y;
        if |x| < |y| && x == y[..|x|] {
          assert b[..|a|] == [b[0]] + y[..|x|];
        }
        if |a| < |b| && a == b[..|a|] {
          assert y[..|x|] == b[..|a|][1..];
        }
        if i :| 0 <= i < |x| && i < |y| && x[..i] == y[..i] && x[i] < y[i] {
          assert a[..i + 1] == [a[0]] + x[..i] && b[..i + 1] == [b[0]] + y[..i];
          assert a[i + 1] < b[i + 1];
        }
        if i :| 0 <= i < |a| && i < |b| && a[..i] == b[..i] && a[i] < b[i] {
          assert i > 0;
          assert x[..i - 1] == a[..i][1..] && y[..i - 1] == b[..i][1..];
          assert x[i - 1] < y[i - 1];
        }
      } else {
        forall i | 0 < i <= |a| && i <= |b|
          ensures a[..i] != b[..i]
        {
          assert a[..i][0] != b[..i][0];
        }
        assert a[..0] == b[..0];
      }
    }
  }

  function Sign(n: int): int {
    if n < 0 then -1 else if n > 0 then 1 else 0
  }

  /** Order of triples, part by part. */
  function CmpTriple(s1: Bytes, t1: Bytes, r1: Bytes, s2: Bytes, t2: Bytes, r2: Bytes): int {
    if Cmp(s1, s2) != 0 then Cmp(s1, s2) else if Cmp(t1, t2) != 0 then Cmp(t1, t2) else Cmp(r1, r2)
  }

  lemma {:induction false} CmpZero(a: Bytes, b: Bytes)
    ensures Cmp(a, b) == 0 <==> a == b
  {
    if a != [] && b != [] && a[0] == b[0] {
      CmpZero(a[1..], b[1..]);
      assert a == [a[0]] + a[1..] && b == [b[0]] + b[1..];
    }
  }

  lemma {:induction false} CmpFlips(a: Bytes, b: Bytes)
    ensures Sign(Cmp(a, b)) == -Sign(Cmp(b, a))
  {
    if a != [] && b != [] && a[0] == b[0] {
      CmpFlips(a[1..], b[1..]);
    }
  }

  lemma {:induction false} CmpTransitive(a: Bytes, b: Bytes, c: Bytes)
    requires Cmp(a, b) <= 0 && Cmp(b, c) <= 0
    ensures Cmp(a, c) <= 0
  {
    if a != [] && b != [] && c != [] && a[0] == b[0] == c[0] {
      CmpTransitive(a[1..], b[1..], c[1..]);
    }
  }

  /** A NUL-free prefix ended by a NUL is compared before anything that follows it. */
  lemma {:induction false} CmpTerminated(a: Bytes, b: Bytes, x: Bytes, y: Bytes)
    requires NulFree(a) && NulFree(b)
    ensures Sign(Cmp(a + [0] + x, b + [0] + y)) == Sign(if Cmp(a, b) != 0 then Cmp(a, b) else Cmp(x, y))
  {
    var p, q := a + [0] + x, b + [0] + y;
    if a != [] && b != [] {
      assert p[1..] == a[1..] + [0] + x && q[1..] == b[1..] + [0] + y;
      if a[0] == b[0] {
        CmpTerminated(a[1..], b[1..], x, y);
      }
    } else if a == [] && b == [] {
      assert p[1..] == x && q[1..] == y;
    } else if a == [] {
      assert q[0] == b[0];
    } else {
      assert p[0] == a[0];
    }
  }

  /** Composed keys compare as their triples do, whatever bytes the record id holds. */
  lemma ComposeKeepsOrder(s1: Bytes, t1: Bytes, r1: Bytes, s2: Bytes, t2: Bytes, r2: Bytes)
    requires NulFree(s1) && NulFree(t1) && NulFree(s2) && NulFree(t2)
    ensures Sign(Cmp(Compose(s1, t1, r1), Compose(s2, t2, r2))) == Sign(CmpTriple(s1, t1, r1, s2, t2, r2))
  {
    assert Compose(s1, t1, r1) == s1 + [0] + (t1 + [0] + r1);
    assert Compose(s2, t2, r2) == s2 + [0] + (t2 + [0] + r2);
    CmpTerminated(s1, s2, t1 + [0] + r1, t2 + [0] + r2);
    CmpTerminated(t1, t2, r1, r2);
  }

  lemma ComposeInjective(s1: Bytes, t1: Bytes, r1: Bytes, s2: Bytes, t2: Bytes, r2: Bytes)
    requires NulFree(s1) && NulFree(t1) && NulFree(s2) && NulFree(t2)
    requires Compose(s1, t1, r1) == Compose(s2, t2, r2)
    ensures s1 == s2 && t1 == t2 && r1 == r2
  {
    ComposeKeepsOrder(s1, t1, r1, s2, t2, r2);
    CmpZero(Compose(s1, t1, r1), Compose(s2, t2, r2));
    CmpZero(s1, s2);
    CmpZero(t1, t2);
    CmpZero(r1, r2);
  }

  function Nuls(s: Bytes): nat {
    if s == [] then 0 else (if s[0] == 0 then 1 else 0) + Nuls(s[1..])
  }

  lemma {:induction false} NulsAdd(a: Bytes, b: Bytes)
    ensures Nuls(a + b) == Nuls(a) + Nuls(b)
  {
    if a == [] {
      assert a + b == b;
    } else {
      assert (a + b)[1..] == a[1..] + b;
      NulsAdd(a[1..], b);
    }
  }

  lemma {:induction false} NoNuls(s: Bytes)
    ensures Nuls(s) == 0 <==> NulFree(s)
  {
    if s != [] {
      NoNuls(s[1..]);
      assert forall i :: 0 <= i < |s[1..]| ==> s[1..][i] == s[i + 1];
      assert forall i :: 1 <= i < |s| ==> s[i] == s[1..][i - 1];
    }
  }

  lemma ComposeNuls(space: Bytes, table: Bytes, id: Bytes)
    ensures Nuls(Compose(space, table, id)) == 2 + Nuls(space) + Nuls(table) + Nuls(id)
  {
    NulsAdd(space, [0]);
    NulsAdd(space + [0], table);
    NulsAdd(space + [0] + table, [0]);
    NulsAdd(space + [0] + table + [0], id);
  }

  lemma SplitAtNul(s: Bytes) returns (a: Bytes, b: Bytes)
    requires !NulFree(s)
    ensures s == a + [0] + b
  {
    var i :| 0 <= i < |s| && s[i] == 0;
    a, b := s[..i], s[i + 1..];
  }

  /** A NUL inside any part lets another triple compose to the same key. */
  lemma NulCollides(space: Bytes, table: Bytes, id: Bytes) returns (s: Bytes, t: Bytes, r: Bytes)
    requires !(NulFree(space) && NulFree(table) && NulFree(id))
    ensures Compose(s, t, r) == Compose(space, table, id) && (s, t, r) != (space, table, id)
  {
    if !NulFree(space) {
      var a, b := SplitAtNul(space);
      s, t, r := a, b, table + [0] + id;
    } else if !NulFree(table) {
      var a, b := SplitAtNul(table);
      s, t, r := space, a, b + [0] + id;
    } else {
      var a, b := SplitAtNul(id);
      s, t, r := space + [0] + table, a, b;
    }
  }

  /** A triple is the only one with its composed key if and only if none of its parts holds a NUL. */
  lemma KeyIsOwn(space: Bytes, table: Bytes, id: Bytes)
    ensures NulFree(space) && NulFree(table) && NulFree(id) <==>
            forall s, t, r :: Compose(s, t, r) == Compose(space, table, id) ==> s == space && t == table && r == id
  {
    if NulFree(space) && NulFree(table) && NulFree(id) {
      forall s, t, r | Compose(s, t, r) == Compose(space, table, id)
        ensures s == space && t == table && r == id
      {
        ComposeNuls(s, t, r);
        ComposeNuls(space, table, id);
        NoNuls(space);
        NoNuls(table);
        NoNuls(id);
        NoNuls(s);
        NoNuls(t);
        ComposeInjective(s, t, r, space, table, id);
      }
    } else {
      var s, t, r := NulCollides(space, table, id);
    }
  }

  // ---------- Smallest and greatest key ----------

  method MinKey(keys: seq<Bytes>) returns (k: Bytes)
    ensures keys == [] ==> k == []
    ensures keys != [] ==> k in keys && forall x :: x in keys ==> Cmp(k, x) <= 0
  {
    k := [];
    for i := 0 to |keys|
      invariant i > 0 ==> k in keys[..i] && forall j :: 0 <= j < i ==> Cmp(k, keys[j]) <= 0
      invariant i == 0 ==> k == []
    {
      CmpZero(keys[i], keys[i]);
      if i == 0 {
        k := keys[0];
      } else if Cmp(keys[i], k) < 0 {
        forall j | 0 <= j < i
          ensures Cmp(keys[i], keys[j]) <= 0
        {
          CmpTransitive(keys[i], k, keys[j]);
        }
        k := keys[i];
      } else {
        CmpFlips(k, keys[i]);
      }
    }
  }

  method MaxKey(keys: seq<Bytes>) returns (k: Bytes)
    ensures keys == [] ==> k == []
    ensures keys != [] ==> k in keys && forall x :: x in keys ==> Cmp(x, k) <= 0
  {
    k := [];
    for i := 0 to |keys|
      invariant i > 0 ==> k in keys[..i] && forall j :: 0 <= j < i ==> Cmp(keys[j], k) <= 0
      invariant i == 0 ==> k == []
    {
      CmpZero(keys[i], keys[i]);
      if i == 0 {
        k := keys[0];
      } else if Cmp(keys[i], k) >= 0 {
        CmpFlips(k, keys[i]);
        forall j | 0 <= j < i
          ensures Cmp(keys[j], keys[i]) <= 0
        {
          CmpTransitive(keys[j], k, keys[i]);
        }
        k := keys[i];
      }
    }
  }
}
