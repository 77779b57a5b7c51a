/** One key's version chain: reads at a snapshot, appends and snapshot-anchored pruning. */
module VersionChains {
  import opened Primitives

  datatype VersionEntry = VersionEntry(
    commitVersion: u64,
    txnId: string,
    backendKey: string,
    size: nat,
    deleted: bool)

  type Entries = seq<VersionEntry>

  /** Chains are kept strictly ascending by commit version. */
  predicate Ascending(c: Entries) {
    forall i, j :: 0 <= i < j < |c| ==> c[i].commitVersion < c[j].commitVersion
  }

  /** The newest entry at or below snapshot `s`, found by walking from the newest end. */
  function ReadAt(c: Entries, s: u64): Option<VersionEntry> {
    if c == [] then None
    else if c[|c| - 1].commitVersion <= s then Some(c[|c| - 1])
    else ReadAt(c[..|c| - 1], s)
  }

  function Latest(c: Entries): u64 {
    if c == [] then 0 else c[|c| - 1].commitVersion
  }

  /** Position of the newest entry at or below `m`, 0 when there is none. */
  function Anchor(c: Entries, m: u64): (a: nat)
    ensures c != [] ==> a < |c|
    ensures c == [] ==> a == 0
  {
    if c == [] then 0
    else if c[|c| - 1].commitVersion <= m then |c| - 1
    else Anchor(c[..|c| - 1], m)
  }

  /** How many entries `prune_below` drops; `U64_MAX` stands for "no active reader". */
  function DropCount(c: Entries, m: u64): (n: nat)
    ensures n <= |c|
    ensures c != [] ==> n < |c|
  {
    if |c| <= 1 then 0
    else if m == U64_MAX then |c| - 1
    else Anchor(c, m)
  }

  function Pruned(c: Entries, m: u64): Entries {
    c[DropCount(c, m)..]
  }

  /** The mutable chain object. */
  class VersionChain {
    var entries: Entries

    constructor ()
      ensures entries == []
    {
      entries := [];
    }

    method ReadAtSnapshot(snapshot: u64) returns (r: Option<VersionEntry>)
      ensures r == ReadAt(entries, snapshot)
    {
      var i := |entries|;
      assert entries[..i] == entries;
      while i > 0
        invariant 0 <= i <= |entries|
        invariant ReadAt(entries[..i], snapshot) == ReadAt(entries, snapshot)
      {
        assert entries[..i][..i - 1] == entries[..i - 1];
        if entries[i - 1].commitVersion <= snapshot {
          return Some(entries[i - 1]);
        }
        i := i - 1;
      }
      r := None;
    }

    method Append(e: VersionEntry)
      requires entries != [] ==> Latest(entries) < e.commitVersion
      requires Ascending(entries)
      modifies this
      ensures entries == old(entries) + [e]
      ensures Ascending(entries)
    {
      entries := entries + [e];
    }

    method PruneBelow(minSnapshot: u64) returns (dropped: nat)
      modifies this
      ensures entries == Pruned(old(entries), minSnapshot)
      ensures dropped == |old(entries)| - |entries|
    {
      var n := |entries|;
      if n <= 1 {
        return 0;
      }
      var keepFrom := 0;
      if minSnapshot == U64_MAX {
        keepFrom := n - 1;
      } else {
        var i := n;
        assert entries[..i] == entries;
        while i > 0
          invariant 0 <= i <= n
          invariant Anchor(entries[..i], minSnapshot) == Anchor(entries, minSnapshot)
        {
          assert entries[..i][..i - 1] == entries[..i - 1];
          if entries[i - 1].commitVersion <= minSnapshot {
            keepFrom := i - 1;
            break;
          }
          i := i - 1;
        }
      }
      dropped := keepFrom;
      entries := entries[dropped..];
    }
  }

  // ---------- What a read means ----------

  /** A read returns exactly the entry with the greatest version at or below the snapshot. */
  lemma {:induction false} ReadAtMeaning(c: Entries, s: u64)
    requires Ascending(c)
    ensures ReadAt(c, s).None? <==> forall e :: e in c ==> e.commitVersion > s
    ensures ReadAt(c, s).Some? ==>
              var r := ReadAt(c, s).value;
              && r in c
              && r.commitVersion <= s
              && forall e :: e in c && e.commitVersion <= s ==> e.commitVersion <= r.commitVersion
  {
    if c != [] && c[|c| - 1].commitVersion > s {
      var p := c[..|c| - 1];
      assert c == p + [c[|c| - 1]];
      ReadAtMeaning(p, s);
    }
  }

  lemma {:induction false} AnchorMeaning(c: Entries, m: u64)
    requires Ascending(c) && c != []
    ensures forall i :: Anchor(c, m) < i < |c| ==> c[i].commitVersion > m
    ensures Anchor(c, m) > 0 ==> c[Anchor(c, m)].commitVersion <= m
  {
    if c[|c| - 1].commitVersion > m && |c| > 1 {
      AnchorMeaning(c[..|c| - 1], m);
    }
  }

  /** The two branches of `prune_below` are one rule: the anchor is the newest entry at or below `m`. */
  lemma DropCountMeaning(c: Entries, m: u64)
    requires Ascending(c) && c != []
    ensures forall i :: DropCount(c, m) < i < |c| ==> c[i].commitVersion > m
    ensures DropCount(c, m) > 0 ==> c[DropCount(c, m)].commitVersion <= m
  {
    AnchorMeaning(c, m);
  }

  // ---------- The pruning law ----------

  /** An entry is dropped exactly when the chain holds a newer one at or below the threshold. */
  lemma PruneRule(c: Entries, m: u64, e: VersionEntry)
    requires Ascending(c)
    ensures e in Pruned(c, m) <==>
            e in c && !exists f :: f in c && e.commitVersion < f.commitVersion <= m
  {
    if c != [] {
      DropCountMeaning(c, m);
      var d := DropCount(c, m);
      if e in c {
        var i :| 0 <= i < |c| && c[i] == e;
        if i < d {
          assert c[d] in c && e.commitVersion < c[d].commitVersion <= m;
        } else {
          assert c[d..][i - d] == e;
        }
      }
    }
  }

  /** Every read at or above the threshold is unchanged by pruning. */
  lemma PrunedReads(c: Entries, m: u64, s: u64)
    requires Ascending(c) && m <= s
    ensures ReadAt(Pruned(c, m), s) == ReadAt(c, s)
  {
    if c != [] {
      DropCountMeaning(c, m);
      SuffixReads(c, DropCount(c, m), s);
    }
  }

  /** Dropping a prefix below an entry visible at `s` leaves the read at `s` alone. */
  lemma {:induction false} SuffixReads(c: Entries, d: nat, s: u64)
    requires d < |c|
    requires d > 0 ==> c[d].commitVersion <= s
    ensures ReadAt(c[d..], s) == ReadAt(c, s)
  {
    if d == 0 {
      assert c[d..] == c;
    } else if c[|c| - 1].commitVersion > s {
      assert c[d..][..|c| - d - 1] == c[..|c| - 1][d..];
      SuffixReads(c[..|c| - 1], d, s);
    }
  }

  /** Pruning keeps the newest entry, keeps the order and leaves at most one entry at or below `m`. */
  lemma PrunedShape(c: Entries, m: u64)
    requires Ascending(c) && c != []
    ensures Pruned(c, m) != [] && Ascending(Pruned(c, m))
    ensures Pruned(c, m)[|Pruned(c, m)| - 1] == c[|c| - 1]
    ensures Latest(Pruned(c, m)) == Latest(c)
    ensures forall i :: 0 < i < |Pruned(c, m)| ==> Pruned(c, m)[i].commitVersion > m
  {
    DropCountMeaning(c, m);
  }

  /** Pruning at a threshold and later at a higher one is pruning once at the higher one. */
  lemma PrunedCompose(c: Entries, m1: u64, m2: u64)
    requires Ascending(c) && m1 <= m2
    ensures Pruned(Pruned(c, m1), m2) == Pruned(c, m2)
  {
    if c != [] {
      DropCountMeaning(c, m1);
      DropCountMeaning(c, m2);
      var d1, d2 := DropCount(c, m1), DropCount(c, m2);
      PrunedShape(c, m1);
      DropCountMeaning(c[d1..], m2);
      var d := DropCount(c[d1..], m2);
      assert d1 <= d2;
      assert c[d1..][d] == c[d1 + d] && c[d1..][d2 - d1] == c[d2];
      assert d1 + d == d2;
      assert c[d1..][d..] == c[d1 + d..];
    }
  }

  // ---------- Appending ----------

  /** An append is invisible to every snapshot below its version and decides every snapshot at or above it. */
  lemma AppendReads(c: Entries, e: VersionEntry, s: u64)
    ensures e.commitVersion > s ==> ReadAt(c + [e], s) == ReadAt(c, s)
    ensures e.commitVersion <= s ==> ReadAt(c + [e], s) == Some(e)
  {
    assert (c + [e])[..|c|] == c;
  }
}
