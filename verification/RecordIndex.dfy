/** The latest-row index and the history table of structured records. */
module RecordIndex {
  import opened Primitives
  import opened VersionChains

  /** (space, table, record id) */
  type RecordKey = (string, string, string)

  /** An index row; `chunk` is a placeholder until a flush installs a chunk id. */
  datatype Row = Row(version: u64, deleted: bool, chunk: string, txn: string, body: seq<u8>)

  type VersionTable = map<(RecordKey, u64), Row>

  datatype Tables = Tables(latest: map<RecordKey, Row>, versions: VersionTable)

  const NoRows := Tables(map[], map[])

  // ---------- What each write transaction does ----------

  function PutRow(t: Tables, r: RecordKey, row: Row): Tables {
    Tables(if r in t.latest && row.version < t.latest[r].version then t.latest else t.latest[r := row],
           t.versions[(r, row.version) := row])
  }

  /** Points one version at a chunk; the latest row follows only if it is that version. */
  function PointRow(t: Tables, r: RecordKey, v: u64, chunk: string): Tables {
    Tables(if r in t.latest && t.latest[r].version == v then t.latest[r := t.latest[r].(chunk := chunk)] else t.latest,
           if (r, v) in t.versions then t.versions[(r, v) := t.versions[(r, v)].(chunk := chunk)] else t.versions)
  }

  /** A version survives GC at `m` unless the record has a newer one at or below `m`. */
  ghost predicate Kept(versions: VersionTable, r: RecordKey, v: u64, m: u64) {
    forall w: u64 :: (r, w) in versions && v < w ==> m < w
  }

  ghost function GcRows(t: Tables, m: u64): Tables {
    t.(versions := map x | x in t.versions && Kept(t.versions, x.0, x.1, m) :: t.versions[x])
  }

  // ---------- Reading a snapshot ----------

  ghost predicate NewestAt(versions: VersionTable, r: RecordKey, s: u64, v: u64) {
    && (r, v) in versions && v <= s
    && forall w: u64 :: (r, w) in versions && w <= s ==> w <= v
  }

  ghost predicate NothingAt(versions: VersionTable, r: RecordKey, s: u64) {
    forall w: u64 :: (r, w) in versions ==> s < w
  }

  // ---------- The latest row is the newest history row ----------

  ghost predicate RowsAgree(t: Tables) {
    && (forall x :: x in t.versions ==> t.versions[x].version == x.1 && x.0 in t.latest && x.1 <= t.latest[x.0].version)
    && (forall r :: r in t.latest ==> (r, t.latest[r].version) in t.versions && t.versions[(r, t.latest[r].version)] == t.latest[r])
  }

  datatype RowOp = RowPut(r: RecordKey, row: Row) | RowPoint(r: RecordKey, v: u64, chunk: string) | RowGc(m: u64)

  ghost function Do(t: Tables, op: RowOp): Tables {
    match op
    case RowPut(r, row) => PutRow(t, r, row)
    case RowPoint(r, v, chunk) => PointRow(t, r, v, chunk)
    case RowGc(m) => GcRows(t, m)
  }

  ghost function DoAll(t: Tables, ops: seq<RowOp>): Tables {
    if ops == [] then t else Do(DoAll(t, ops[..|ops| - 1]), ops[|ops| - 1])
  }

  lemma DoAgrees(t: Tables, op: RowOp)
    requires RowsAgree(t)
    ensures RowsAgree(Do(t, op))
  {
  }

  /**
   Under any sequence of commits in any version order, chunk-pointer updates of any version and GC, each
   record's latest row is its history row of greatest version, chunk pointer and body included.
   */
  lemma {:induction false} LatestIsNewest(ops: seq<RowOp>, r: RecordKey)
    ensures var t := DoAll(NoRows, ops);
            && RowsAgree(t)
            && (r in t.latest <==> exists v: u64 :: (r, v) in t.versions)
            && (r in t.latest ==> NewestAt(t.versions, r, U64_MAX, t.latest[r].version)
                                  && t.latest[r] == t.versions[(r, t.latest[r].version)])
  {
    if ops != [] {
      LatestIsNewest(ops[..|ops| - 1], r);
      DoAgrees(DoAll(NoRows, ops[..|ops| - 1]), ops[|ops| - 1]);
    }
  }

  /** Pointing an older version never moves the latest row's pointer. */
  lemma OlderFlushSparesLatest(t: Tables, r: RecordKey, v: u64, chunk: string)
    requires r in t.latest && v != t.latest[r].version
    ensures PointRow(t, r, v, chunk).latest == t.latest
  {
  }

  // ---------- GC ----------

  /** GC leaves the newest version at or below every snapshot at or above the threshold. */
  lemma GcKeepsReads(t: Tables, r: RecordKey, m: u64, s: u64, v: u64)
    requires m <= s
    ensures NewestAt(t.versions, r, s, v) <==> NewestAt(GcRows(t, m).versions, r, s, v)
    ensures NothingAt(t.versions, r, s) <==> NothingAt(GcRows(t, m).versions, r, s)
  {
    if !NothingAt(t.versions, r, s) {
      NewestExists(t.versions, r, s);
      var n: u64 :| NewestAt(t.versions, r, s, n);
      assert (r, n) in GcRows(t, m).versions;
    }
  }

  lemma NewestExists(versions: VersionTable, r: RecordKey, s: u64)
    requires !NothingAt(versions, r, s)
    ensures exists v: u64 :: NewestAt(versions, r, s, v)
  {
    var w: u64 :| (r, w) in versions && w <= s;
    NewestAbove(versions, r, s, w);
  }

  lemma {:induction false} NewestAbove(versions: VersionTable, r: RecordKey, s: u64, w: u64)
    requires (r, w) in versions && w <= s
    ensures exists v: u64 :: NewestAt(versions, r, s, v)
    decreases s - w
  {
    if !NewestAt(versions, r, s, w) {
      var x: u64 :| (r, x) in versions && x <= s && w < x;
      NewestAbove(versions, r, s, x);
    }
  }

  ghost predicate HasVersion(c: Entries, v: u64) {
    exists e :: e in c && e.commitVersion == v
  }

  /** A record's history versions are the versions of its chain. */
  ghost predicate Mirrors(versions: VersionTable, r: RecordKey, c: Entries) {
    forall v: u64 :: (r, v) in versions <==> HasVersion(c, v)
  }

  lemma PrunedVersions(c: Entries, m: u64, v: u64)
    requires Ascending(c)
    ensures HasVersion(Pruned(c, m), v) <==> HasVersion(c, v) && forall w: u64 :: HasVersion(c, w) && v < w ==> m < w
  {
    assert forall e :: e in Pruned(c, m) ==> e in c;
    hide Pruned;
    if HasVersion(Pruned(c, m), v) {
      var e :| e in Pruned(c, m) && e.commitVersion == v;
      PruneRule(c, m, e);
      assert e in c && HasVersion(c, v);
      forall w: u64 | HasVersion(c, w) && v < w
        ensures m < w
      {
        var f :| f in c && f.commitVersion == w;
      }
    }
    if HasVersion(c, v) && forall w: u64 :: HasVersion(c, w) && v < w ==> m < w {
      var e :| e in c && e.commitVersion == v;
      PruneRule(c, m, e);
      forall f | f in c && v < f.commitVersion
        ensures m < f.commitVersion
      {
        assert HasVersion(c, f.commitVersion);
      }
    }
  }

  /** One rule for both: pruned in the same step at the same threshold, history and chain still mirror each other. */
  lemma SameRetention(t: Tables, r: RecordKey, c: Entries, m: u64)
    requires Ascending(c) && Mirrors(t.versions, r, c)
    ensures Mirrors(GcRows(t, m).versions, r, Pruned(c, m))
  {
    hide HasVersion, Pruned;
    forall v: u64
      ensures (r, v) in GcRows(t, m).versions <==> HasVersion(Pruned(c, m), v)
    {
      PrunedVersions(c, m, v);
    }
  }

  // ---------- The tables themselves ----------

  function VersionsOf(grouped: map<RecordKey, seq<u64>>, r: RecordKey): seq<u64> {
    if r in grouped then grouped[r] else []
  }

  predicate Up(vs: seq<u64>) {
    forall i, j :: 0 <= i < j < |vs| ==> vs[i] < vs[j]
  }

  predicate Superseded(vs: seq<u64>, i: int, m: u64) {
    exists j :: i < j < |vs| && 0 <= j && vs[j] <= m
  }

  lemma InsertKeeps(vs: seq<u64>, i: nat, v: u64)
    requires Up(vs) && i <= |vs|
    requires forall j :: 0 <= j < i ==> vs[j] < v
    requires forall j :: i <= j < |vs| ==> vs[j] > v
    ensures Up(vs[..i] + [v] + vs[i..])
    ensures forall w :: w in vs[..i] + [v] + vs[i..] <==> w == v || w in vs
  {
    assert vs == vs[..i] + vs[i..];
    forall w
      ensures w in vs[..i] + [v] + vs[i..] <==> w == v || w in vs
    {
      assert w in vs[..i] + [v] + vs[i..] <==> w in vs[..i] || w in [v] || w in vs[i..];
    }
  }

  /** Inserts into an ascending list. */
  method Insert(vs: seq<u64>, v: u64) returns (r: seq<u64>)
    requires Up(vs) && v !in vs
    ensures Up(r) && forall w :: w in r <==> w == v || w in vs
  {
    var i := |vs|;
    while i > 0 && vs[i - 1] > v
      invariant 0 <= i <= |vs|
      invariant forall j :: i <= j < |vs| ==> vs[j] > v
    {
      i := i - 1;
    }
    InsertKeeps(vs, i, v);
    r := vs[..i] + [v] + vs[i..];
  }

  /** How many of the oldest versions to remove. */
  method KeepFrom(vs: seq<u64>, m: u64) returns (n: nat)
    requires Up(vs)
    ensures n <= |vs|
    ensures forall i :: 0 <= i < |vs| ==> (i < n <==> Superseded(vs, i, m))
  {
    if m == U64_MAX {
      n := if |vs| == 0 then 0 else |vs| - 1;
      if n > 0 {
        assert vs[n] <= m;
      }
      return;
    }
    var i := |vs|;
    while i > 0
      invariant 0 <= i <= |vs|
      invariant forall j :: i <= j < |vs| ==> vs[j] > m
    {
      if vs[i - 1] <= m {
        return i - 1;
      }
      i := i - 1;
    }
    n := 0;
  }

  class RecordTables {
    var latest: map<RecordKey, Row>
    var versions: VersionTable

    constructor ()
      ensures Value() == NoRows
    {
      latest, versions := map[], map[];
    }

    function Value(): Tables
      reads this
    {
      Tables(latest, versions)
    }

    method PutWithBody(r: RecordKey, row: Row)
      modifies this
      ensures Value() == PutRow(old(Value()), r, row)
      ensures versions == old(versions)[(r, row.version) := row]
      ensures r in latest && latest[r] == if r in old(latest) && old(latest[r].version) > row.version then old(latest[r]) else row
      ensures forall q :: q != r ==> (q in latest <==> q in old(latest)) && (q in latest ==> latest[q] == old(latest)[q])
      ensures old(RowsAgree(Value())) ==> RowsAgree(Value())
    {
      DoAgreesIf(Value(), RowPut(r, row));
      var replace := r !in latest || row.version >= latest[r].version;
      if replace {
        latest := latest[r := row];
      }
      versions := versions[(r, row.version) := row];
    }

    method Repoint(r: RecordKey, v: u64, chunk: string) returns (changed: bool)
      modifies this
      ensures Value() == PointRow(old(Value()), r, v, chunk)
      ensures versions.Keys == old(versions).Keys && latest.Keys == old(latest).Keys
      ensures forall x :: x in versions ==> versions[x] == if x == (r, v) then old(versions)[x].(chunk := chunk) else old(versions)[x]
      ensures forall q :: q in latest ==>
                latest[q] == if q == r && old(latest)[q].version == v then old(latest)[q].(chunk := chunk) else old(latest)[q]
      ensures old(RowsAgree(Value())) ==> RowsAgree(Value())
      ensures old(RowsAgree(Value())) ==> (changed <==> (r, v) in versions)
    {
      DoAgreesIf(Value(), RowPoint(r, v, chunk));
      changed := false;
      if r in latest && latest[r].version == v {
        latest := latest[r := latest[r].(chunk := chunk)];
        changed := true;
      }
      if (r, v) in versions {
        versions := versions[(r, v) := versions[(r, v)].(chunk := chunk)];
        changed := true;
      }
    }

    /** The newest version at or below the snapshot, by scanning the whole table. */
    method GetAt(r: RecordKey, s: u64) returns (best: Option<Row>)
      requires forall x :: x in versions ==> versions[x].version == x.1
      ensures best.None? <==> NothingAt(versions, r, s)
      ensures best.Some? ==> NewestAt(versions, r, s, best.value.version) && best.value == versions[(r, best.value.version)]
    {
      best := None;
      var todo := versions.Keys;
      while todo != {}
        invariant todo <= versions.Keys
        invariant best.Some? ==> (r, best.value.version) in versions && best.value == versions[(r, best.value.version)]
        invariant best.Some? ==> best.value.version <= s
        invariant forall w: u64 :: (r, w) in versions && (r, w) !in todo && w <= s ==> best.Some? && w <= best.value.version
        decreases |todo|
      {
        var x: (RecordKey, u64) :| x in todo;
        todo := todo - {x};
        if x.0 == r && x.1 <= s && (best.None? || best.value.version < versions[x].version) {
          best := Some(versions[x]);
        }
      }
    }

    /** Each record's versions, in order. */
    method Group() returns (grouped: map<RecordKey, seq<u64>>)
      ensures forall r :: r in grouped ==> Up(grouped[r])
      ensures forall r, v :: v in VersionsOf(grouped, r) <==> (r, v) in versions
    {
      grouped := map[];
      var todo := versions.Keys;
      while todo != {}
        invariant todo <= versions.Keys
        invariant forall r :: r in grouped ==> Up(grouped[r])
        invariant forall r, v :: v in VersionsOf(grouped, r) <==> (r, v) in versions && (r, v) !in todo
        decreases |todo|
      {
        var x: (RecordKey, u64) :| x in todo;
        var more := Insert(VersionsOf(grouped, x.0), x.1);
        grouped := grouped[x.0 := more];
        todo := todo - {x};
      }
    }

    /** The rows GC removes. */
    method Stale(m: u64) returns (gone: set<(RecordKey, u64)>)
      ensures forall r, v: u64 :: (r, v) in gone <==> (r, v) in versions && !Kept(versions, r, v, m)
    {
      var grouped := Group();
      var todo := grouped.Keys;
      gone := {};
      while todo != {}
        invariant todo <= grouped.Keys
        invariant forall r, v: u64 :: (r, v) in gone <==> r !in todo && v in VersionsOf(grouped, r) && !Kept(versions, r, v, m)
        decreases |todo|
      {
        var r :| r in todo;
        todo := todo - {r};
        var vs := grouped[r];
        var n := KeepFrom(vs, m);
        KeptByPosition(versions, r, vs, m, n);
        gone := gone + set v | v in vs[..n] :: (r, v);
      }
    }

    method Gc(m: u64)
      modifies this`versions
      ensures Value() == GcRows(old(Value()), m)
      ensures forall r, v: u64 :: (r, v) in versions <==>
                (r, v) in old(versions) && !exists w: u64 :: (r, w) in old(versions) && v < w <= m
      ensures old(RowsAgree(Value())) ==> RowsAgree(Value())
    {
      DoAgreesIf(Value(), RowGc(m));
      var gone := Stale(m);
      forall x | x in versions
        ensures x in gone <==> !Kept(versions, x.0, x.1, m)
      {
        assert x == (x.0, x.1);
      }
      versions := versions - gone;
    }
  }

  lemma DoAgreesIf(t: Tables, op: RowOp)
    ensures RowsAgree(t) ==> RowsAgree(Do(t, op))
  {
    if RowsAgree(t) {
      DoAgrees(t, op);
    }
  }

  lemma KeptByPosition(versions: VersionTable, r: RecordKey, vs: seq<u64>, m: u64, n: nat)
    requires Up(vs) && n <= |vs|
    requires forall v: u64 :: v in vs <==> (r, v) in versions
    requires forall i :: 0 <= i < |vs| ==> (i < n <==> Superseded(vs, i, m))
    ensures forall v :: v in vs[..n] <==> v in vs && !Kept(versions, r, v, m)
  {
    forall v | v in vs
      ensures v in vs[..n] <==> !Kept(versions, r, v, m)
    {
      var i :| 0 <= i < |vs| && vs[i] == v;
      assert v in vs[..n] <==> i < n;
      assert i < n <==> Superseded(vs, i, m);
      if i < n {
        var j :| i < j < |vs| && vs[j] <= m;
        assert (r, vs[j]) in versions;
      }
      if !Kept(versions, r, v, m) {
        var w: u64 :| (r, w) in versions && v < w && w <= m;
        var j :| 0 <= j < |vs| && vs[j] == w;
      }
    }
  }
}
