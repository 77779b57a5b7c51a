/** The bulk append to version chains: sort by key and version, then append one by one, all or nothing. */
module ChainBatches {
  import opened Primitives
  import opened VersionChains
  import opened Stores

  datatype BatchItem = BatchItem(key: string, entry: VersionEntry, snapshot: u64)

  // ---------- Order ----------

  function CmpText(a: string, b: string): int {
    if a == [] then (if b == [] then 0 else -1)
    else if b == [] then 1
    else if a[0] != b[0] then (if a[0] < b[0] then -1 else 1)
    else CmpText(a[1..], b[1..])
  }

  lemma {:induction false} CmpTextZero(a: string, b: string)
    ensures CmpText(a, b) == 0 <==> a == b
  {
    if a != [] && b != [] && a[0] == b[0] {
      CmpTextZero(a[1..], b[1..]);
      assert a == [a[0]] + a[1..] && b == [b[0]] + b[1..];
    }
  }

  lemma {:induction false} CmpTextFlips(a: string, b: string)
    ensures CmpText(a, b) == -CmpText(b, a)
  {
    if a != [] && b != [] && a[0] == b[0] {
      CmpTextFlips(a[1..], b[1..]);
    }
  }

  lemma {:induction false} CmpTextTransitive(a: string, b: string, c: string)
    requires CmpText(a, b) <= 0 && CmpText(b, c) <= 0
    ensures CmpText(a, c) <= 0
    ensures CmpText(a, c) == 0 ==> CmpText(a, b) == 0 && CmpText(b, c) == 0
  {
    if a != [] && b != [] && c != [] && a[0] == b[0] == c[0] {
      CmpTextTransitive(a[1..], b[1..], c[1..]);
    }
  }

  predicate ItemLe(a: BatchItem, b: BatchItem) {
    CmpText(a.key, b.key) < 0 || (a.key == b.key && a.entry.commitVersion <= b.entry.commitVersion)
  }

  lemma ItemLeTotal(a: BatchItem, b: BatchItem)
    ensures ItemLe(a, b) || ItemLe(b, a)
  {
    CmpTextFlips(a.key, b.key);
    CmpTextZero(a.key, b.key);
  }

  lemma ItemLeTransitive(a: BatchItem, b: BatchItem, c: BatchItem)
    requires ItemLe(a, b) && ItemLe(b, c)
    ensures ItemLe(a, c)
  {
    CmpTextZero(a.key, b.key);
    CmpTextZero(b.key, c.key);
    CmpTextZero(a.key, c.key);
    CmpTextTransitive(a.key, b.key, c.key);
  }

  predicate InOrder(xs: seq<BatchItem>) {
    forall i, j :: 0 <= i < j < |xs| ==> ItemLe(xs[i], xs[j])
  }

  function InsertItem(xs: seq<BatchItem>, x: BatchItem): seq<BatchItem> {
    if xs == [] then [x]
    else if ItemLe(xs[|xs| - 1], x) then xs + [x]
    else InsertItem(xs[..|xs| - 1], x) + [xs[|xs| - 1]]
  }

  /** The stable sort the source asks its library for. */
  function SortItems(xs: seq<BatchItem>): seq<BatchItem> {
    if xs == [] then [] else InsertItem(SortItems(xs[..|xs| - 1]), xs[|xs| - 1])
  }

  lemma {:induction false} InsertSorts(xs: seq<BatchItem>, x: BatchItem)
    requires InOrder(xs)
    ensures InOrder(InsertItem(xs, x)) && multiset(InsertItem(xs, x)) == multiset(xs) + multiset{x}
  {
    if xs != [] {
      var last, rest := xs[|xs| - 1], xs[..|xs| - 1];
      assert xs == rest + [last];
      ItemLeTotal(last, x);
      if ItemLe(last, x) {
        forall i | 0 <= i < |xs|
          ensures ItemLe(xs[i], x)
        {
          if i < |rest| { ItemLeTransitive(xs[i], last, x); }
        }
      } else {
        InsertSorts(rest, x);
        var done := InsertItem(rest, x);
        forall i | 0 <= i < |done|
          ensures ItemLe(done[i], last)
        {
          assert done[i] in multiset(done);
          assert done[i] == x || done[i] in rest;
        }
      }
    }
  }

  lemma {:induction false} SortSorts(xs: seq<BatchItem>)
    ensures InOrder(SortItems(xs)) && multiset(SortItems(xs)) == multiset(xs)
  {
    if xs != [] {
      hide InOrder, InsertItem;
      SortSorts(xs[..|xs| - 1]);
      InsertSorts(SortItems(xs[..|xs| - 1]), xs[|xs| - 1]);
      assert xs == xs[..|xs| - 1] + [xs[|xs| - 1]];
    }
  }

  // ---------- Appending one by one ----------

  function AppendList(chains: map<string, Entries>, xs: seq<BatchItem>): Option<map<string, Entries>> {
    if xs == [] then Some(chains)
    else
      match AppendList(chains, xs[..|xs| - 1])
      case None => None
      case Some(c) =>
        var x := xs[|xs| - 1];
        match AppendOne(ChainOf(c, x.key), x.entry, x.snapshot)
        case None => None
        case Some(chain) => Some(c[x.key := chain])
  }

  predicate DistinctKeys(xs: seq<BatchItem>) {
    forall i, j :: 0 <= i < j < |xs| ==> xs[i].key != xs[j].key
  }

  /** The list holds exactly one item per key of the batch, all at one snapshot. */
  ghost predicate Lists(xs: seq<BatchItem>, batch: map<string, VersionEntry>, snapshot: u64) {
    && DistinctKeys(xs)
    && (forall x :: x in xs ==> x.key in batch && x.entry == batch[x.key] && x.snapshot == snapshot)
    && (forall k :: k in batch ==> BatchItem(k, batch[k], snapshot) in xs)
  }

  lemma ListsRest(xs: seq<BatchItem>, batch: map<string, VersionEntry>, snapshot: u64)
    requires Lists(xs, batch, snapshot) && xs != []
    ensures xs[|xs| - 1].key in batch
    ensures Lists(xs[..|xs| - 1], batch - {xs[|xs| - 1].key}, snapshot)
  {
    var n := |xs| - 1;
    var x, rest, less := xs[n], xs[..n], batch - {xs[n].key};
    assert x in xs;
    forall y | y in rest
      ensures y.key in less && y == BatchItem(y.key, less[y.key], snapshot)
    {
      var i :| 0 <= i < n && xs[i] == y;
      assert xs[i] in xs && xs[i].key != xs[n].key;
    }
    forall k | k in less
      ensures BatchItem(k, less[k], snapshot) in rest
    {
      var i :| 0 <= i < |xs| && xs[i] == BatchItem(k, batch[k], snapshot);
      assert rest[i] == xs[i];
    }
  }

  /** Adding one key to a batch that can be appended. */
  lemma OneMoreKey(chains: map<string, Entries>, batch: map<string, VersionEntry>, snapshot: u64, k: string)
    requires k in batch
    ensures CanAppend(chains, batch, snapshot) <==>
              CanAppend(chains, batch - {k}, snapshot) && AppendOne(ChainOf(chains, k), batch[k], snapshot).Some?
    ensures CanAppend(chains, batch - {k}, snapshot) ==>
              ChainOf(AppendAll(chains, batch - {k}, snapshot), k) == ChainOf(chains, k)
    ensures CanAppend(chains, batch, snapshot) ==>
              AppendAll(chains, batch - {k}, snapshot)[k := AppendOne(ChainOf(chains, k), batch[k], snapshot).value]
              == AppendAll(chains, batch, snapshot)
  {
    hide AppendOne;
    var less := batch - {k};
    assert forall j :: j in batch ==> j == k || (j in less && less[j] == batch[j]);
    if CanAppend(chains, batch, snapshot) {
      var a, b := AppendAll(chains, less, snapshot)[k := AppendOne(ChainOf(chains, k), batch[k], snapshot).value], AppendAll(chains, batch, snapshot);
      assert a.Keys == b.Keys;
      assert forall j :: j in a ==> a[j] == b[j];
    }
  }

  lemma {:induction false} ListAppends(chains: map<string, Entries>, xs: seq<BatchItem>, batch: map<string, VersionEntry>, snapshot: u64)
    requires Lists(xs, batch, snapshot)
    ensures AppendList(chains, xs) == if CanAppend(chains, batch, snapshot) then Some(AppendAll(chains, batch, snapshot)) else None
  {
    hide AppendOne;
    if xs == [] {
      assert batch == map[];
      assert AppendAll(chains, batch, snapshot) == chains;
    } else {
      var x := xs[|xs| - 1];
      assert x in xs;
      ListsRest(xs, batch, snapshot);
      ListAppends(chains, xs[..|xs| - 1], batch - {x.key}, snapshot);
      OneMoreKey(chains, batch, snapshot, x.key);
      hide CanAppend, AppendAll;
    }
  }

  lemma SortKeepsLists(xs: seq<BatchItem>, batch: map<string, VersionEntry>, snapshot: u64)
    requires Lists(xs, batch, snapshot)
    ensures Lists(SortItems(xs), batch, snapshot)
  {
    SortSorts(xs);
    hide SortItems, Lists;
    PermutedLists(xs, SortItems(xs), batch, snapshot);
  }

  lemma SameMembers(xs: seq<BatchItem>, ys: seq<BatchItem>)
    requires multiset(xs) == multiset(ys)
    ensures forall x :: x in xs <==> x in ys
  {
    forall x
      ensures x in xs <==> x in ys
    {
      assert x in xs <==> x in multiset(xs);
      assert x in ys <==> x in multiset(ys);
    }
  }

  lemma PermutedLists(xs: seq<BatchItem>, ys: seq<BatchItem>, batch: map<string, VersionEntry>, snapshot: u64)
    requires Lists(xs, batch, snapshot) && multiset(xs) == multiset(ys)
    ensures Lists(ys, batch, snapshot)
  {
    DistinctIsOnce(xs);
    SameMembers(xs, ys);
    forall i, j | 0 <= i < j < |ys|
      ensures ys[i].key != ys[j].key
    {
      KeysApart(xs, ys, batch, snapshot, i, j);
    }
  }

  lemma KeysApart(xs: seq<BatchItem>, ys: seq<BatchItem>, batch: map<string, VersionEntry>, snapshot: u64, i: nat, j: nat)
    requires i < j < |ys| && ys[i] in xs && ys[j] in xs && multiset(ys)[ys[i]] <= 1
    requires forall x :: x in xs ==> x.key in batch && x.entry == batch[x.key] && x.snapshot == snapshot
    ensures ys[i].key != ys[j].key
  {
    if ys[i] == ys[j] {
      TwiceCounts(ys, i, j);
    }
  }

  lemma {:induction false} DistinctIsOnce(xs: seq<BatchItem>)
    requires DistinctKeys(xs)
    ensures forall x :: multiset(xs)[x] <= 1
  {
    if xs != [] {
      var x, rest := xs[|xs| - 1], xs[..|xs| - 1];
      DistinctIsOnce(rest);
      assert xs == rest + [x];
      assert x !in rest;
      assert multiset(rest)[x] == 0;
    }
  }

  lemma TwiceCounts(xs: seq<BatchItem>, i: nat, j: nat)
    requires i < j < |xs| && xs[i] == xs[j]
    ensures multiset(xs)[xs[i]] >= 2
  {
    assert xs == xs[..j] + xs[j..];
    assert xs[..j][i] == xs[i] && xs[j..][0] == xs[i];
    assert xs[i] in xs[..j] && xs[i] in xs[j..];
    assert multiset(xs) == multiset(xs[..j]) + multiset(xs[j..]);
  }

  /**
   A commit's batch, listed in any order: the sequential append, after sorting, is the simultaneous one, and it
   is refused as a whole exactly when some key is refused.
   */
  lemma CommitBatch(chains: map<string, Entries>, xs: seq<BatchItem>, batch: map<string, VersionEntry>, snapshot: u64)
    requires Lists(xs, batch, snapshot)
    ensures AppendList(chains, SortItems(xs)) ==
              if CanAppend(chains, batch, snapshot) then Some(AppendAll(chains, batch, snapshot)) else None
  {
    SortKeepsLists(xs, batch, snapshot);
    ListAppends(chains, SortItems(xs), batch, snapshot);
  }

  /** An accepted batch keeps every chain's order and older entries, and sent again it is accepted and changes nothing. */
  lemma ReplayIsIdle(chains: map<string, Entries>, batch: map<string, VersionEntry>, snapshot: u64, later: u64)
    requires CanAppend(chains, batch, snapshot) && forall k :: k in chains ==> Ascending(chains[k])
    requires forall k :: k in batch ==> batch[k].commitVersion <= later
    ensures var now := AppendAll(chains, batch, snapshot);
            && (forall k :: k in now ==> Ascending(now[k]) && ChainOf(chains, k) <= now[k])
            && (forall k :: k in batch ==> Latest(now[k]) == batch[k].commitVersion && SameWrite(now[k][|now[k]| - 1], batch[k]))
            && CanAppend(now, batch, later) && AppendAll(now, batch, later) == now
  {
    hide AppendOne, Ascending, SameWrite, Latest;
    var now := AppendAll(chains, batch, snapshot);
    forall k | k in batch
      ensures Ascending(now[k]) && ChainOf(chains, k) <= now[k]
      ensures now[k] != [] && Latest(now[k]) == batch[k].commitVersion && SameWrite(now[k][|now[k]| - 1], batch[k])
      ensures AppendOne(ChainOf(now, k), batch[k], later) == Some(now[k])
    {
      ReplayKey(chains, batch, snapshot, later, k);
    }
    IdleAll(now, batch, later);
  }

  lemma IdleAll(now: map<string, Entries>, batch: map<string, VersionEntry>, later: u64)
    requires forall k :: k in batch ==> k in now && AppendOne(ChainOf(now, k), batch[k], later) == Some(now[k])
    ensures CanAppend(now, batch, later) && AppendAll(now, batch, later) == now
  {
    hide AppendOne;
    assert AppendAll(now, batch, later).Keys == now.Keys;
  }

  lemma ReplayKey(chains: map<string, Entries>, batch: map<string, VersionEntry>, snapshot: u64, later: u64, k: string)
    requires CanAppend(chains, batch, snapshot) && (k in chains ==> Ascending(chains[k]))
    requires k in batch && batch[k].commitVersion <= later
    ensures var c := AppendAll(chains, batch, snapshot)[k];
            && Ascending(c) && ChainOf(chains, k) <= c && c != [] && Latest(c) == batch[k].commitVersion
            && SameWrite(c[|c| - 1], batch[k]) && AppendOne(c, batch[k], later) == Some(c)
  {
    hide AppendOne, SameWrite, Latest;
    EmptyAscends();
    AppendedTwice(ChainOf(chains, k), batch[k], snapshot, later);
  }

  lemma EmptyAscends()
    ensures Ascending([])
  {
  }

  lemma AppendedTwice(c: Entries, e: VersionEntry, s: u64, later: u64)
    requires Ascending(c) && AppendOne(c, e, s).Some? && e.commitVersion <= later
    ensures var c' := AppendOne(c, e, s).value;
            && c' != [] && Ascending(c') && c <= c' && Latest(c') == e.commitVersion
            && SameWrite(c'[|c'| - 1], e) && AppendOne(c', e, later) == Some(c')
  {
  }

  // ---------- From an empty store ----------

  /** The entries listed for one key, in order. */
  function Listed(xs: seq<BatchItem>, k: string): Entries {
    if xs == [] then []
    else Listed(xs[..|xs| - 1], k) + if xs[|xs| - 1].key == k then [xs[|xs| - 1].entry] else []
  }

  predicate DistinctVersions(xs: seq<BatchItem>) {
    forall i, j :: 0 <= i < j < |xs| && xs[i].key == xs[j].key ==> xs[i].entry.commitVersion != xs[j].entry.commitVersion
  }

  lemma {:induction false} ListedMeans(xs: seq<BatchItem>, k: string, e: VersionEntry)
    ensures e in Listed(xs, k) <==> exists x :: x in xs && x.key == k && x.entry == e
  {
    if xs != [] {
      var x, rest := xs[|xs| - 1], xs[..|xs| - 1];
      ListedMeans(rest, k, e);
      assert xs == rest + [x] && x in xs;
    }
  }

  lemma LastIsNewest(xs: seq<BatchItem>)
    requires InOrder(xs) && DistinctVersions(xs) && xs != []
    ensures forall e :: e in Listed(xs[..|xs| - 1], xs[|xs| - 1].key) ==> e.commitVersion < xs[|xs| - 1].entry.commitVersion
  {
    var x, rest := xs[|xs| - 1], xs[..|xs| - 1];
    CmpTextZero(x.key, x.key);
    forall e | e in Listed(rest, x.key)
      ensures e.commitVersion < x.entry.commitVersion
    {
      ListedMeans(rest, x.key, e);
      var y :| y in rest && y.key == x.key && y.entry == e;
      var j :| 0 <= j < |rest| && rest[j] == y;
      assert ItemLe(xs[j], xs[|xs| - 1]);
    }
  }

  lemma NewerAppends(c: Entries, e: VersionEntry)
    requires Ascending(c) && forall x :: x in c ==> x.commitVersion < e.commitVersion
    ensures AppendOne(c, e, U64_MAX) == Some(c + [e]) && Ascending(c + [e])
  {
    if c != [] {
      assert c[|c| - 1] in c;
    }
  }

  /** In order and with distinct versions per key, nothing is refused and each chain is its key's list. */
  lemma {:induction false} FreshAppends(xs: seq<BatchItem>, k: string)
    requires InOrder(xs) && DistinctVersions(xs) && forall x :: x in xs ==> x.snapshot == U64_MAX
    ensures AppendList(map[], xs).Some? && ChainOf(AppendList(map[], xs).value, k) == Listed(xs, k)
    ensures k in AppendList(map[], xs).value <==> Listed(xs, k) != []
    ensures Ascending(Listed(xs, k))
  {
    if xs != [] {
      var x, rest := xs[|xs| - 1], xs[..|xs| - 1];
      assert xs == rest + [x] && x in xs;
      FreshAppends(rest, k);
      FreshAppends(rest, x.key);
      LastIsNewest(xs);
      hide AppendOne, InOrder, DistinctVersions, Ascending;
      NewerAppends(Listed(rest, x.key), x.entry);
    }
  }

  // ---------- What an accepted list must agree on ----------

  lemma {:induction false} LastListed(xs: seq<BatchItem>, k: string) returns (i: nat)
    requires Listed(xs, k) != []
    ensures i < |xs| && xs[i].key == k && xs[i].entry == Listed(xs, k)[|Listed(xs, k)| - 1]
    ensures forall j :: i < j < |xs| ==> xs[j].key != k
  {
    var n := |xs| - 1;
    if xs[n].key == k {
      i := n;
    } else {
      i := LastListed(xs[..n], k);
    }
  }

  lemma {:induction false} ListedIfThere(xs: seq<BatchItem>, i: nat)
    requires i < |xs|
    ensures Listed(xs, xs[i].key) != []
  {
    if i < |xs| - 1 {
      ListedIfThere(xs[..|xs| - 1], i);
    }
  }

  /** A chain built from an empty store ends in what was listed last for its key. */
  lemma {:induction false} AcceptedEnds(xs: seq<BatchItem>, k: string)
    requires AppendList(map[], xs).Some? && Listed(xs, k) != []
    ensures var c, last := ChainOf(AppendList(map[], xs).value, k), Listed(xs, k)[|Listed(xs, k)| - 1];
            c != [] && Latest(c) == last.commitVersion && SameWrite(c[|c| - 1], last)
  {
    var x, rest := xs[|xs| - 1], xs[..|xs| - 1];
    if x.key != k {
      AcceptedEnds(rest, k);
    }
  }

  lemma SameAtEnd(c: Entries, e: VersionEntry, s: u64)
    ensures AppendOne(c, e, s).Some? && c != [] && Latest(c) == e.commitVersion ==> SameWrite(c[|c| - 1], e)
  {
  }

  /** From an empty store, a list in order is accepted only if entries of one key and version are the same write. */
  lemma {:induction false} AcceptedAgree(xs: seq<BatchItem>, i: nat, j: nat)
    requires InOrder(xs) && AppendList(map[], xs).Some? && i < j < |xs|
    requires xs[i].key == xs[j].key && xs[i].entry.commitVersion == xs[j].entry.commitVersion
    ensures SameWrite(xs[i].entry, xs[j].entry)
    decreases |xs|, j
  {
    var n := |xs| - 1;
    var rest := xs[..n];
    if j < n {
      AcceptedAgree(rest, i, j);
    } else {
      var k := xs[n].key;
      ListedIfThere(rest, i);
      var l := LastListed(rest, k);
      AcceptedEnds(rest, k);
      CmpTextZero(k, k);
      assert i <= l && ItemLe(xs[l], xs[n]) && (i < l ==> ItemLe(xs[i], xs[l]));
      SameAtEnd(ChainOf(AppendList(map[], rest).value, k), xs[n].entry, xs[n].snapshot);
      hide AppendOne;
      if i < l {
        AcceptedAgree(rest, i, l);
      }
    }
  }
}
