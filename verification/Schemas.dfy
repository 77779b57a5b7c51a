/**
 Schema registration: versions handed out from the pending list or the schema index. A commit draws its version,
 appends its entries and runs its hook in separate steps, and the hook may be lost. The committed versions of every
 name are exactly 1 to its latest, each written once, as long as no one registers a name too early; exactly when
 that is.
 */
module Schemas {
  import opened Primitives
  import opened VersionChains
  import opened Stores

  /** (space, schema name) */
  type Name = (string, string)

  datatype Pending = Pending(name: Name, version: u32)

  // ---------- Handing out versions ----------

  /** The version most recently staged for the name in this transaction. */
  function LatestPending(ps: seq<Pending>, n: Name): Option<u32> {
    if ps == [] then None
    else if ps[|ps| - 1].name == n then Some(ps[|ps| - 1].version)
    else LatestPending(ps[..|ps| - 1], n)
  }

  function LatestIn(index: map<Name, u32>, n: Name): u32 {
    if n in index then index[n] else 0
  }

  function BaseVersion(ps: seq<Pending>, index: map<Name, u32>, n: Name): u32 {
    if LatestPending(ps, n).Some? then LatestPending(ps, n).value else LatestIn(index, n)
  }

  /** The pending writes of all transactions, as the engine keeps them. */
  class PendingMap {
    var inner: map<string, seq<Pending>>

    constructor ()
      ensures inner == map[]
    {
      inner := map[];
    }

    function Of(t: string): seq<Pending>
      reads this
    {
      if t in inner then inner[t] else []
    }

    method Schema(t: string, p: Pending)
      modifies this
      ensures inner == old(inner)[t := old(Of(t)) + [p]]
    {
      inner := inner[t := Of(t) + [p]];
    }

    method Take(t: string) returns (ps: seq<Pending>)
      modifies this
      ensures ps == old(Of(t)) && inner == old(inner) - {t}
    {
      ps := Of(t);
      inner := inner - {t};
    }

    method LatestVersionInTxn(t: string, n: Name) returns (v: Option<u32>)
      ensures v == LatestPending(Of(t), n)
      ensures v.None? <==> forall i :: 0 <= i < |Of(t)| ==> Of(t)[i].name != n
      ensures v.Some? ==> exists i :: 0 <= i < |Of(t)| && Of(t)[i] == Pending(n, v.value) && forall j :: i < j < |Of(t)| ==> Of(t)[j].name != n
    {
      var ps := Of(t);
      var i := |ps|;
      assert ps[..i] == ps;
      while i > 0
        invariant 0 <= i <= |ps|
        invariant LatestPending(ps[..i], n) == LatestPending(ps, n)
        invariant forall j :: i <= j < |ps| ==> ps[j].name != n
      {
        assert ps[..i][..i - 1] == ps[..i - 1];
        if ps[i - 1].name == n {
          return Some(ps[i - 1].version);
        }
        i := i - 1;
      }
      v := None;
    }

    /** One more than the latest pending version, else than the latest committed one. */
    method NextVersion(t: string, n: Name, index: map<Name, u32>) returns (v: int)
      ensures v == BaseVersion(Of(t), index, n) + 1
    {
      var p := LatestVersionInTxn(t, n);
      v := if p.Some? then p.value + 1 else LatestIn(index, n) + 1;
    }

    /** Takes the next version and stages it. */
    method Register(t: string, n: Name, index: map<Name, u32>) returns (v: u32)
      requires BaseVersion(Of(t), index, n) < U32_MAX
      modifies this
      ensures v == old(BaseVersion(Of(t), index, n)) + 1
      ensures inner == old(inner)[t := old(Of(t)) + [Pending(n, v)]]
    {
      v := NextVersion(t, n, index);
      Schema(t, Pending(n, v));
    }
  }

  // ---------- The run ----------

  datatype Txn = Txn(snapshot: u64, pending: seq<Pending>)

  /** The commit holding the lock: its version is drawn, its entries may be appended, its hook has not run. */
  datatype Flight = Flight(t: string, at: u64, txn: Txn, appended: bool)

  /** A version key is (name, version); its chain lists the commit versions appended to it. */
  datatype Space = Space(
    globalVersion: u64,
    index: map<Name, u32>,
    chains: map<(Name, u32), Entries>,
    txns: map<string, Txn>,
    flight: Option<Flight>,
    written: map<Name, u32>)   // greatest version ever appended, which the source does not store

  const Empty := Space(0, map[], map[], map[], None, map[])

  datatype Op =
    | Begin(t: string)
    | Register(t: string, n: Name)
    | Allocate(t: string)
    | Append
    | RunHook(lost: set<Name>)   // names whose index row was not written: a failed put, a failed commit step or a crash
    | Abandon                    // the commit fails before its append
    | Drop(t: string)
    | OtherCommit
    | Gc(m: u64)

  function Chain(s: Space, n: Name, v: u32): Entries {
    if (n, v) in s.chains then s.chains[(n, v)] else []
  }

  /** Some staged version key already ends above the snapshot. */
  predicate Conflicted(s: Space, x: Txn) {
    exists i :: 0 <= i < |x.pending| && Conflicts(Chain(s, x.pending[i].name, x.pending[i].version), x.snapshot)
  }

  function Entry(t: string, at: u64): VersionEntry {
    VersionEntry(at, t, "", 0, false)
  }

  /** The append of one entry per staged key. */
  function AppendPending(chains: map<(Name, u32), Entries>, ps: seq<Pending>, e: VersionEntry): map<(Name, u32), Entries> {
    if ps == [] then chains
    else
      var p, done := ps[|ps| - 1], AppendPending(chains, ps[..|ps| - 1], e);
      var k := (p.name, p.version);
      done[k := (if k in done then done[k] else []) + [e]]
  }

  /** The post-commit hook: each pending schema, in order, becomes the name's latest version. */
  function Hook(index: map<Name, u32>, ps: seq<Pending>): map<Name, u32> {
    if ps == [] then index else Hook(index, ps[..|ps| - 1])[ps[|ps| - 1].name := ps[|ps| - 1].version]
  }

  function Kept(ps: seq<Pending>, lost: set<Name>): seq<Pending> {
    if ps == [] then [] else Kept(ps[..|ps| - 1], lost) + if ps[|ps| - 1].name in lost then [] else [ps[|ps| - 1]]
  }

  predicate Can(s: Space, op: Op) {
    match op
    case Begin(t) => t !in s.txns
    case Register(t, n) => t in s.txns && BaseVersion(s.txns[t].pending, s.index, n) < U32_MAX
    case Allocate(t) => t in s.txns && s.txns[t].pending != [] && s.flight.None? && s.globalVersion < U64_MAX
    case Append => s.flight.Some? && !s.flight.value.appended
    case RunHook(_) => s.flight.Some? && s.flight.value.appended
    case Abandon => s.flight.Some? && !s.flight.value.appended
    case Drop(t) => t in s.txns
    case OtherCommit => s.flight.None? && s.globalVersion < U64_MAX
    case Gc(m) => true
  }

  function After(s: Space, op: Op): Space
    requires Can(s, op)
  {
    match op
    case Begin(t) => s.(txns := s.txns[t := Txn(s.globalVersion, [])])
    case Register(t, n) =>
      var x := s.txns[t];
      s.(txns := s.txns[t := x.(pending := x.pending + [Pending(n, BaseVersion(x.pending, s.index, n) + 1)])])
    case Allocate(t) =>
      s.(globalVersion := s.globalVersion + 1, txns := s.txns - {t},
         flight := Some(Flight(t, s.globalVersion + 1, s.txns[t], false)))
    case Append =>
      var f := s.flight.value;
      if Conflicted(s, f.txn) then s.(flight := None)
      else s.(chains := AppendPending(s.chains, f.txn.pending, Entry(f.t, f.at)),
              written := Hook(s.written, f.txn.pending), flight := Some(f.(appended := true)))
    case RunHook(lost) => s.(index := Hook(s.index, Kept(s.flight.value.txn.pending, lost)), flight := None)
    case Abandon => s.(flight := None)
    case Drop(t) => s.(txns := s.txns - {t})
    case OtherCommit => s.(globalVersion := s.globalVersion + 1)
    case Gc(m) => s.(chains := map k | k in s.chains :: Pruned(s.chains[k], m))
  }

  /** The commit in flight will write its versions and has not yet. */
  predicate AboutToAppend(s: Space) {
    s.flight.Some? && !s.flight.value.appended && !Conflicted(s, s.flight.value.txn)
  }

  /** The commit version at which a schema version has been written, or is about to be. */
  function TakenAt(s: Space, n: Name, v: u32): Option<u64> {
    var c := Chain(s, n, v);
    if c != [] then Some(Latest(c))
    else if AboutToAppend(s) && Pending(n, v) in s.flight.value.txn.pending then Some(s.flight.value.at)
    else None
  }

  /** The first registration of a name that is handed a version taken at or below its transaction's snapshot, where
      it will not conflict; the transaction is not bound to be refused anyway. */
  predicate Early(s: Space, op: Op) {
    && op.Register? && Can(s, op)
    && LatestPending(s.txns[op.t].pending, op.n).None?
    && TakenAt(s, op.n, LatestIn(s.index, op.n) + 1).Some?
    && TakenAt(s, op.n, LatestIn(s.index, op.n) + 1).value <= s.txns[op.t].snapshot
    && !Conflicted(s, s.txns[op.t])
  }

  predicate Runs(s: Space, ops: seq<Op>, s': Space)
    decreases |ops|
  {
    if ops == [] then s == s' else Can(s, ops[0]) && !Early(s, ops[0]) && Runs(After(s, ops[0]), ops[1..], s')
  }

  // ---------- What every operation keeps ----------

  function FirstPending(ps: seq<Pending>, n: Name): Option<u32> {
    if ps == [] then None
    else
      var f := FirstPending(ps[..|ps| - 1], n);
      if f.Some? then f else if ps[|ps| - 1].name == n then Some(ps[|ps| - 1].version) else None
  }

  predicate Between(f: Option<u32>, v: u32, l: Option<u32>) {
    f.Some? && l.Some? && f.value <= v <= l.value
  }

  ghost predicate SlotOk(ps: seq<Pending>, n: Name, v: u32) {
    && (FirstPending(ps, n).Some? <==> LatestPending(ps, n).Some?)
    && multiset(ps)[Pending(n, v)] == (if Between(FirstPending(ps, n), v, LatestPending(ps, n)) then 1 else 0)
  }

  /** The versions a transaction staged for a name are consecutive, each staged once. */
  ghost predicate PendingOk(ps: seq<Pending>) {
    forall n, v: u32 :: SlotOk(ps, n, v)
  }

  /** What a transaction staged first for a name is the next free version, or was taken above its snapshot. */
  ghost predicate FirstOk(s: Space, x: Txn, n: Name) {
    FirstPending(x.pending, n).Some? ==>
      var f := FirstPending(x.pending, n).value;
      && 1 <= f <= LatestIn(s.written, n) + 1
      && (f <= LatestIn(s.written, n) ==> Conflicts(Chain(s, n, f), x.snapshot))
  }

  /** If the commit in flight is about to take that version, that too is above the snapshot. */
  ghost predicate ClashOk(s: Space, x: Txn, n: Name) {
    FirstPending(x.pending, n).Some? && AboutToAppend(s) && FirstPending(s.flight.value.txn.pending, n).Some? ==>
      x.snapshot < s.flight.value.at
  }

  /** Such a transaction commits in order, or is bound to be refused. */
  ghost predicate TxnOk(s: Space, x: Txn) {
    x.snapshot <= s.globalVersion && PendingOk(x.pending) && (Conflicted(s, x) || forall n :: FirstOk(s, x, n))
  }

  ghost predicate Clashes(s: Space, x: Txn) {
    Conflicted(s, x) || forall n :: ClashOk(s, x, n)
  }

  ghost predicate ChainOk(s: Space, n: Name, v: u32) {
    && |Chain(s, n, v)| == (if 1 <= v <= LatestIn(s.written, n) then 1 else 0)
    && forall e :: e in Chain(s, n, v) ==> e.commitVersion <= s.globalVersion
  }

  /** While the commit in flight has not appended, every entry is older than it. */
  ghost predicate OlderOk(s: Space, n: Name, v: u32) {
    s.flight.Some? && !s.flight.value.appended ==> forall e :: e in Chain(s, n, v) ==> e.commitVersion < s.flight.value.at
  }

  /** The index never runs ahead of what is written. */
  ghost predicate IndexOk(s: Space, n: Name) {
    && LatestIn(s.index, n) <= LatestIn(s.written, n)
    && (s.flight.Some? && s.flight.value.appended ==>
          BaseVersion(s.flight.value.txn.pending, s.index, n) <= LatestIn(s.written, n))
  }

  ghost predicate FlightOk(s: Space) {
    s.flight.Some? ==>
      && s.flight.value.at == s.globalVersion && PendingOk(s.flight.value.txn.pending)
      && s.flight.value.txn.snapshot < s.flight.value.at
      && (!s.flight.value.appended ==> TxnOk(s, s.flight.value.txn))
  }

  ghost predicate SpaceOk(s: Space) {
    && (forall n, v: u32 :: ChainOk(s, n, v)) && (forall n, v: u32 :: OlderOk(s, n, v))
    && (forall n :: IndexOk(s, n)) && FlightOk(s)
    && (forall t :: t in s.txns ==> TxnOk(s, s.txns[t]) && Clashes(s, s.txns[t]))
  }

  lemma FirstIsLow(ps: seq<Pending>, n: Name)
    requires PendingOk(ps)
    ensures FirstPending(ps, n).Some? ==>
              && LatestPending(ps, n).Some? && FirstPending(ps, n).value <= LatestPending(ps, n).value
              && Pending(n, FirstPending(ps, n).value) in ps
  {
    if FirstPending(ps, n).Some? {
      FirstIsStaged(ps, n);
      var f := FirstPending(ps, n).value;
      assert Pending(n, f) in multiset(ps);
      assert SlotOk(ps, n, f);
    }
  }

  lemma {:induction false} FirstIsStaged(ps: seq<Pending>, n: Name)
    ensures FirstPending(ps, n).Some? ==> Pending(n, FirstPending(ps, n).value) in ps
  {
    if ps != [] {
      FirstIsStaged(ps[..|ps| - 1], n);
      assert ps == ps[..|ps| - 1] + [ps[|ps| - 1]];
    }
  }

  lemma OneMore(ps: seq<Pending>, p: Pending, n: Name)
    ensures LatestPending(ps + [p], n) == if p.name == n then Some(p.version) else LatestPending(ps, n)
    ensures FirstPending(ps + [p], n) ==
              if FirstPending(ps, n).Some? then FirstPending(ps, n) else if p.name == n then Some(p.version) else None
  {
    assert (ps + [p])[..|ps|] == ps;
  }

  lemma RegisterSlot(ps: seq<Pending>, p: Pending, n: Name, v: u32)
    requires PendingOk(ps) && (LatestPending(ps, p.name).Some? ==> p.version == LatestPending(ps, p.name).value + 1)
    ensures SlotOk(ps + [p], n, v)
  {
    OneMore(ps, p, n);
    assert SlotOk(ps, n, v);
    FirstIsLow(ps, n);
  }

  lemma RegisterPending(ps: seq<Pending>, p: Pending)
    requires PendingOk(ps) && (LatestPending(ps, p.name).Some? ==> p.version == LatestPending(ps, p.name).value + 1)
    ensures PendingOk(ps + [p])
  {
    forall n, v: u32
      ensures SlotOk(ps + [p], n, v)
    {
      RegisterSlot(ps, p, n, v);
    }
  }

  lemma NamesMatch(ps: seq<Pending>, n: Name)
    requires PendingOk(ps)
    ensures FirstPending(ps, n).Some? <==> LatestPending(ps, n).Some?
  {
    assert SlotOk(ps, n, 0);
  }

  lemma StillConflicted(s: Space, s': Space, x: Txn, x': Txn)
    requires Conflicted(s, x) && x.pending <= x'.pending && x'.snapshot == x.snapshot
    requires forall n, v: u32 :: Conflicts(Chain(s, n, v), x.snapshot) ==> Conflicts(Chain(s', n, v), x.snapshot)
    ensures Conflicted(s', x')
  {
    var i :| 0 <= i < |x.pending| && Conflicts(Chain(s, x.pending[i].name, x.pending[i].version), x.snapshot);
    assert x'.pending[i] == x.pending[i];
  }

  // ---------- Operations that leave the chains alone ----------

  /** A transaction's standing depends on what is written and on the chains alone. */
  lemma SameTxn(s: Space, s': Space, x: Txn)
    requires TxnOk(s, x) && s'.written == s.written && s.globalVersion <= s'.globalVersion
    requires forall n, v: u32 :: Chain(s', n, v) == Chain(s, n, v)
    ensures TxnOk(s', x)
  {
    hide PendingOk;
    if Conflicted(s, x) {
      StillConflicted(s, s', x, x);
    } else {
      forall n
        ensures FirstOk(s', x, n)
      {
        assert FirstOk(s, x, n);
      }
    }
  }

  lemma SameChains(s: Space, s': Space)
    requires SpaceOk(s) && s'.written == s.written && s.globalVersion <= s'.globalVersion
    requires forall n, v: u32 :: Chain(s', n, v) == Chain(s, n, v)
    requires s'.flight.None? || s'.flight == s.flight
    ensures forall n, v: u32 :: ChainOk(s', n, v) && OlderOk(s', n, v)
  {
    forall n, v: u32
      ensures ChainOk(s', n, v) && OlderOk(s', n, v)
    {
      assert ChainOk(s, n, v) && OlderOk(s, n, v);
    }
  }

  lemma NoClash(s: Space, x: Txn)
    requires s.flight.None? || s.flight.value.appended || x.snapshot < s.flight.value.at
    ensures Clashes(s, x)
  {
    forall n
      ensures ClashOk(s, x, n)
    {
    }
  }

  lemma SameClash(s: Space, s': Space, x: Txn)
    requires Clashes(s, x) && (s'.flight == s.flight || s'.flight.None?)
    requires forall n, v: u32 :: Chain(s', n, v) == Chain(s, n, v)
    ensures Clashes(s', x)
  {
    if s'.flight.None? {
      NoClash(s', x);
    } else if Conflicted(s, x) {
      StillConflicted(s, s', x, x);
    } else {
      if s.flight.Some? && Conflicted(s, s.flight.value.txn) {
        StillConflicted(s, s', s.flight.value.txn, s.flight.value.txn);
      }
      forall n
        ensures ClashOk(s', x, n)
      {
        assert ClashOk(s, x, n);
      }
    }
  }

  lemma SameFlight(s: Space, s': Space)
    requires SpaceOk(s) && s'.written == s.written && s'.globalVersion == s.globalVersion && s'.flight == s.flight
    requires forall n, v: u32 :: Chain(s', n, v) == Chain(s, n, v)
    ensures FlightOk(s')
  {
    if s.flight.Some? && !s.flight.value.appended {
      SameTxn(s, s', s.flight.value.txn);
    }
  }

  /** Forgetting transactions, ending the flight or advancing the version elsewhere changes nothing else. */
  lemma SameTablesOk(s: Space, s': Space)
    requires SpaceOk(s) && s'.written == s.written && s.globalVersion <= s'.globalVersion
    requires forall n, v: u32 :: Chain(s', n, v) == Chain(s, n, v)
    requires s'.flight.None? || (s'.flight == s.flight && s'.globalVersion == s.globalVersion)
    requires forall n :: IndexOk(s', n)
    requires forall t :: t in s'.txns ==> t in s.txns && s'.txns[t] == s.txns[t]
    ensures SpaceOk(s')
  {
    SameChains(s, s');
    if s'.flight.Some? {
      SameFlight(s, s');
    }
    forall t | t in s'.txns
      ensures TxnOk(s', s'.txns[t]) && Clashes(s', s'.txns[t])
    {
      SameTxn(s, s', s.txns[t]);
      SameClash(s, s', s.txns[t]);
    }
  }

  lemma SameIndex(s: Space, s': Space)
    requires SpaceOk(s) && s'.index == s.index && s'.written == s.written && (s'.flight.None? || s'.flight == s.flight)
    ensures forall n :: IndexOk(s', n)
  {
    forall n
      ensures IndexOk(s', n)
    {
      assert IndexOk(s, n);
    }
  }

  lemma GcOk(s: Space, m: u64)
    requires SpaceOk(s)
    ensures SpaceOk(After(s, Gc(m)))
  {
    var s' := After(s, Gc(m));
    forall n, v: u32
      ensures Chain(s', n, v) == Chain(s, n, v)
    {
      assert ChainOk(s, n, v);
    }
    SameIndex(s, s');
    SameTablesOk(s, s');
  }

  lemma NothingStaged(s: Space, x: Txn)
    requires x.snapshot <= s.globalVersion && x.pending == []
    ensures TxnOk(s, x) && Clashes(s, x)
  {
    forall n, v: u32
      ensures SlotOk(x.pending, n, v)
    {
    }
  }

  lemma BeginOk(s: Space, t: string)
    requires SpaceOk(s) && Can(s, Begin(t))
    ensures SpaceOk(After(s, Begin(t)))
  {
    var s' := After(s, Begin(t));
    SameChains(s, s');
    SameIndex(s, s');
    SameFlight(s, s');
    NothingStaged(s', Txn(s.globalVersion, []));
    forall u | u in s'.txns && u != t
      ensures TxnOk(s', s'.txns[u]) && Clashes(s', s'.txns[u])
    {
      SameTxn(s, s', s.txns[u]);
      SameClash(s, s', s.txns[u]);
    }
  }

  // ---------- Registration ----------

  lemma RegisterFirst(s: Space, x: Txn, n: Name, m: Name)
    requires FirstOk(s, x, m) && IndexOk(s, n) && BaseVersion(x.pending, s.index, n) < U32_MAX
    requires FirstPending(x.pending, n).Some? <==> LatestPending(x.pending, n).Some?
    requires LatestPending(x.pending, n).None? && LatestIn(s.index, n) < LatestIn(s.written, n) ==>
               Conflicts(Chain(s, n, LatestIn(s.index, n) + 1), x.snapshot)
    ensures FirstOk(s, x.(pending := x.pending + [Pending(n, BaseVersion(x.pending, s.index, n) + 1)]), m)
  {
    OneMore(x.pending, Pending(n, BaseVersion(x.pending, s.index, n) + 1), m);
    hide FirstPending, LatestPending;
  }

  lemma RegisterClash(s: Space, x: Txn, n: Name, m: Name, p: Pending)
    requires ClashOk(s, x, m) && p.name == n
    requires FirstPending(x.pending, n).None? && AboutToAppend(s) && FirstPending(s.flight.value.txn.pending, n).Some? ==>
               x.snapshot < s.flight.value.at
    ensures ClashOk(s, x.(pending := x.pending + [p]), m)
  {
    OneMore(x.pending, p, m);
    hide FirstPending, LatestPending, AboutToAppend;
  }

  /** A registration that is not early is handed a version taken above its snapshot, if taken at all. */
  lemma NotEarlyMeans(s: Space, t: string, n: Name)
    requires SpaceOk(s) && Can(s, Register(t, n)) && !Early(s, Register(t, n)) && !Conflicted(s, s.txns[t])
    requires LatestPending(s.txns[t].pending, n).None?
    ensures LatestIn(s.index, n) < LatestIn(s.written, n) ==>
              Conflicts(Chain(s, n, LatestIn(s.index, n) + 1), s.txns[t].snapshot)
    ensures AboutToAppend(s) && FirstPending(s.flight.value.txn.pending, n).Some? ==> s.txns[t].snapshot < s.flight.value.at
  {
    var x, v := s.txns[t], LatestIn(s.index, n) + 1;
    assert ChainOk(s, n, v) && IndexOk(s, n) && OlderOk(s, n, v);
    if AboutToAppend(s) && FirstPending(s.flight.value.txn.pending, n).Some? {
      StagedIsNext(s, s.flight.value.txn, n);
      FirstIsStaged(s.flight.value.txn.pending, n);
      var c := Chain(s, n, v);
      if c != [] {
        assert c[|c| - 1] in c;
      }
    }
  }

  lemma RegisterTxn(s: Space, t: string, n: Name)
    requires SpaceOk(s) && Can(s, Register(t, n)) && !Early(s, Register(t, n))
    ensures var x' := After(s, Register(t, n)).txns[t]; TxnOk(s, x') && Clashes(s, x')
  {
    var x := s.txns[t];
    var p := Pending(n, BaseVersion(x.pending, s.index, n) + 1);
    var x' := x.(pending := x.pending + [p]);
    assert TxnOk(s, x) && Clashes(s, x) && IndexOk(s, n);
    RegisterPending(x.pending, p);
    NamesMatch(x.pending, n);
    if Conflicted(s, x) {
      StillConflicted(s, s, x, x');
    } else {
      if LatestPending(x.pending, n).None? {
        NotEarlyMeans(s, t, n);
      }
      hide SpaceOk, Conflicted, PendingOk, Early, AboutToAppend;
      forall m
        ensures FirstOk(s, x', m) && ClashOk(s, x', m)
      {
        assert FirstOk(s, x, m) && ClashOk(s, x, m);
        RegisterFirst(s, x, n, m);
        RegisterClash(s, x, n, m, p);
      }
    }
  }

  lemma RegisterOk(s: Space, t: string, n: Name)
    requires SpaceOk(s) && Can(s, Register(t, n)) && !Early(s, Register(t, n))
    ensures SpaceOk(After(s, Register(t, n)))
  {
    hide PendingOk, Early, Conflicted;
    var s' := After(s, Register(t, n));
    RegisterTxn(s, t, n);
    SameChains(s, s');
    SameIndex(s, s');
    SameFlight(s, s');
    forall u | u in s'.txns
      ensures TxnOk(s', s'.txns[u]) && Clashes(s', s'.txns[u])
    {
      SameTxn(s, s', s'.txns[u]);
      SameClash(s, s', s'.txns[u]);
    }
  }

  // ---------- Commit ----------

  function PairChain(chains: map<(Name, u32), Entries>, n: Name, v: u32): Entries {
    if (n, v) in chains then chains[(n, v)] else []
  }

  lemma {:induction false} AppendCounts(chains: map<(Name, u32), Entries>, ps: seq<Pending>, e: VersionEntry, n: Name, v: u32)
    ensures |PairChain(AppendPending(chains, ps, e), n, v)| == |PairChain(chains, n, v)| + multiset(ps)[Pending(n, v)]
    ensures multiset(ps)[Pending(n, v)] == 0 ==> PairChain(AppendPending(chains, ps, e), n, v) == PairChain(chains, n, v)
    ensures forall x :: x in PairChain(AppendPending(chains, ps, e), n, v) ==> x in PairChain(chains, n, v) || x == e
    ensures multiset(ps)[Pending(n, v)] > 0 ==>
              var c := PairChain(AppendPending(chains, ps, e), n, v); c != [] && c[|c| - 1] == e
  {
    if ps != [] {
      var p, before := ps[|ps| - 1], ps[..|ps| - 1];
      AppendCounts(chains, before, e, n, v);
      assert ps == before + [p];
      AppendOneMore(AppendPending(chains, before, e), p, e, n, v);
    }
  }

  lemma AppendOneMore(done: map<(Name, u32), Entries>, p: Pending, e: VersionEntry, n: Name, v: u32)
    ensures var k := (p.name, p.version);
            PairChain(done[k := PairChain(done, p.name, p.version) + [e]], n, v)
            == PairChain(done, n, v) + if p == Pending(n, v) then [e] else []
  {
  }

  lemma {:induction false} HookLatest(index: map<Name, u32>, ps: seq<Pending>, n: Name)
    ensures LatestIn(Hook(index, ps), n) == BaseVersion(ps, index, n)
  {
    if ps != [] {
      HookLatest(index, ps[..|ps| - 1], n);
    }
  }

  lemma {:induction false} KeptLatest(ps: seq<Pending>, lost: set<Name>, n: Name)
    ensures LatestPending(Kept(ps, lost), n) == if n in lost then None else LatestPending(ps, n)
  {
    if ps != [] {
      var p, before := ps[|ps| - 1], ps[..|ps| - 1];
      KeptLatest(before, lost, n);
      if p.name in lost {
        assert Kept(ps, lost) == Kept(before, lost);
      } else {
        OneMore(Kept(before, lost), p, n);
      }
    }
  }

  /** Without a conflict, whatever the transaction staged starts right after the latest version. */
  lemma StagedIsNext(s: Space, x: Txn, n: Name)
    requires TxnOk(s, x) && !Conflicted(s, x) && FirstPending(x.pending, n).Some?
    ensures FirstPending(x.pending, n).value == LatestIn(s.written, n) + 1
  {
    var f := FirstPending(x.pending, n).value;
    FirstIsLow(x.pending, n);
    assert FirstOk(s, x, n);
    var i :| 0 <= i < |x.pending| && x.pending[i] == Pending(n, f);
    assert !Conflicts(Chain(s, x.pending[i].name, x.pending[i].version), x.snapshot);
  }

  lemma AllocateOk(s: Space, t: string)
    requires SpaceOk(s) && Can(s, Allocate(t))
    ensures SpaceOk(After(s, Allocate(t)))
  {
    var s' := After(s, Allocate(t));
    assert TxnOk(s, s.txns[t]);
    forall n, v: u32
      ensures ChainOk(s', n, v) && OlderOk(s', n, v)
    {
      assert ChainOk(s, n, v);
    }
    forall n
      ensures IndexOk(s', n)
    {
      assert IndexOk(s, n);
    }
    SameTxn(s, s', s.txns[t]);
    forall u | u in s'.txns
      ensures TxnOk(s', s'.txns[u]) && Clashes(s', s'.txns[u])
    {
      assert TxnOk(s, s.txns[u]);
      SameTxn(s, s', s.txns[u]);
      NoClash(s', s.txns[u]);
    }
  }

  /** The commit in flight goes through. */
  ghost predicate Appends(s: Space) {
    SpaceOk(s) && Can(s, Append) && !Conflicted(s, s.flight.value.txn)
  }

  lemma AppendChain(s: Space, n: Name, v: u32)
    requires Appends(s)
    ensures ChainOk(After(s, Append), n, v)
  {
    var f := s.flight.value;
    var ps := f.txn.pending;
    assert TxnOk(s, f.txn) && ChainOk(s, n, v);
    AppendCounts(s.chains, ps, Entry(f.t, f.at), n, v);
    HookLatest(s.written, ps, n);
    assert SlotOk(ps, n, v);
    FirstIsLow(ps, n);
    if FirstPending(ps, n).Some? {
      StagedIsNext(s, f.txn, n);
    }
  }

  lemma AppendIndex(s: Space, n: Name)
    requires Appends(s)
    ensures IndexOk(After(s, Append), n)
  {
    hide Conflicted;
    var f := s.flight.value;
    assert TxnOk(s, f.txn) && IndexOk(s, n);
    HookLatest(s.written, f.txn.pending, n);
    NamesMatch(f.txn.pending, n);
    FirstIsLow(f.txn.pending, n);
    if FirstPending(f.txn.pending, n).Some? {
      StagedIsNext(s, f.txn, n);
    }
  }

  lemma AppendFirst(s: Space, y: Txn, n: Name)
    requires Appends(s) && TxnOk(s, y) && Clashes(s, y) && !Conflicted(s, y)
    ensures FirstOk(After(s, Append), y, n)
  {
    hide Conflicted;
    var f := s.flight.value;
    var ps := f.txn.pending;
    assert TxnOk(s, f.txn) && FirstOk(s, y, n) && ClashOk(s, y, n);
    if FirstPending(y.pending, n).Some? {
      var v := FirstPending(y.pending, n).value;
      HookLatest(s.written, ps, n);
      AppendCounts(s.chains, ps, Entry(f.t, f.at), n, v);
      assert SlotOk(ps, n, v);
      FirstIsLow(ps, n);
      if FirstPending(ps, n).Some? {
        StagedIsNext(s, f.txn, n);
      }
    }
  }

  lemma AppendConflicts(s: Space, y: Txn)
    requires Appends(s) && y.snapshot <= s.globalVersion && Conflicted(s, y)
    ensures Conflicted(After(s, Append), y)
  {
    var f, s' := s.flight.value, After(s, Append);
    forall n, v: u32 | Conflicts(Chain(s, n, v), y.snapshot)
      ensures Conflicts(Chain(s', n, v), y.snapshot)
    {
      assert OlderOk(s, n, v);
      AppendCounts(s.chains, f.txn.pending, Entry(f.t, f.at), n, v);
    }
    StillConflicted(s, s', y, y);
  }

  lemma AppendOther(s: Space, y: Txn)
    requires Appends(s) && TxnOk(s, y) && Clashes(s, y)
    ensures TxnOk(After(s, Append), y) && Clashes(After(s, Append), y)
  {
    hide PendingOk, Conflicted;
    var s' := After(s, Append);
    NoClash(s', y);
    if Conflicted(s, y) {
      AppendConflicts(s, y);
    } else {
      forall n
        ensures FirstOk(s', y, n)
      {
        AppendFirst(s, y, n);
      }
    }
  }

  lemma AppendOk(s: Space)
    requires SpaceOk(s) && Can(s, Append)
    ensures SpaceOk(After(s, Append))
  {
    var s' := After(s, Append);
    if Conflicted(s, s.flight.value.txn) {
      SameIndex(s, s');
      SameTablesOk(s, s');
    } else {
      forall n, v: u32
        ensures ChainOk(s', n, v)
      {
        AppendChain(s, n, v);
      }
      forall n
        ensures IndexOk(s', n)
      {
        AppendIndex(s, n);
      }
      forall u | u in s'.txns
        ensures TxnOk(s', s'.txns[u]) && Clashes(s', s'.txns[u])
      {
        AppendOther(s, s.txns[u]);
      }
    }
  }

  lemma HookOk(s: Space, lost: set<Name>)
    requires SpaceOk(s) && Can(s, RunHook(lost))
    ensures SpaceOk(After(s, RunHook(lost)))
  {
    var s', ps := After(s, RunHook(lost)), s.flight.value.txn.pending;
    forall n
      ensures IndexOk(s', n)
    {
      assert IndexOk(s, n);
      HookLatest(s.index, Kept(ps, lost), n);
      KeptLatest(ps, lost, n);
    }
    SameTablesOk(s, s');
  }

  lemma StepOk(s: Space, op: Op)
    requires SpaceOk(s) && Can(s, op) && !Early(s, op)
    ensures SpaceOk(After(s, op))
  {
    match op
    case Begin(t) => BeginOk(s, t);
    case Register(t, n) => RegisterOk(s, t, n);
    case Allocate(t) => AllocateOk(s, t);
    case Append => AppendOk(s);
    case RunHook(lost) => HookOk(s, lost);
    case Gc(m) => GcOk(s, m);
    case _ =>
      SameIndex(s, After(s, op));
      SameTablesOk(s, After(s, op));
  }

  lemma {:induction false} RunOk(s: Space, ops: seq<Op>, s': Space)
    requires SpaceOk(s) && Runs(s, ops, s')
    ensures SpaceOk(s')
    decreases |ops|
  {
    if ops != [] {
      hide SpaceOk, After, Can, Early;
      StepOk(s, ops[0]);
      RunOk(After(s, ops[0]), ops[1..], s');
    }
  }

  /**
   In every run without an early registration, lost hooks and failed commits included, a version of a name is
   written exactly when it lies between 1 and the latest one, and then once; the index never runs ahead.
   */
  lemma VersionsAreGapFree(ops: seq<Op>, s: Space, n: Name, v: u32)
    requires Runs(Empty, ops, s)
    ensures Chain(s, n, v) != [] <==> 1 <= v <= LatestIn(s.written, n)
    ensures |Chain(s, n, v)| <= 1
    ensures LatestIn(s.index, n) <= LatestIn(s.written, n)
  {
    hide Runs;
    RunOk(Empty, ops, s);
    assert ChainOk(s, n, v) && IndexOk(s, n);
  }

  /** Two registrations of the same version never both commit: once it is taken, every other holder conflicts. */
  lemma TakenVersionConflicts(ops: seq<Op>, s: Space, t: string, n: Name, v: u32)
    requires Runs(Empty, ops, s) && t in s.txns && Pending(n, v) in s.txns[t].pending && Chain(s, n, v) != []
    ensures Conflicted(s, s.txns[t])
  {
    hide Runs;
    RunOk(Empty, ops, s);
    var ps := s.txns[t].pending;
    assert ChainOk(s, n, v) && TxnOk(s, s.txns[t]);
    if !Conflicted(s, s.txns[t]) {
      assert Pending(n, v) in multiset(ps) && SlotOk(ps, n, v) && FirstOk(s, s.txns[t], n);
      FirstIsLow(ps, n);
    }
  }

  // ---------- The index, as long as no hook is lost ----------

  ghost predicate Current(s: Space, n: Name) {
    LatestIn(s.written, n) ==
      if s.flight.Some? && s.flight.value.appended then BaseVersion(s.flight.value.txn.pending, s.index, n)
      else LatestIn(s.index, n)
  }

  lemma StepCurrent(s: Space, op: Op, n: Name)
    requires Can(s, op) && Current(s, n) && (op.RunHook? ==> op.lost == {})
    ensures Current(After(s, op), n)
  {
    match op
    case Append => HookLatest(s.written, s.flight.value.txn.pending, n);
    case RunHook(lost) =>
      HookLatest(s.index, Kept(s.flight.value.txn.pending, lost), n);
      KeptLatest(s.flight.value.txn.pending, lost, n);
    case _ =>
  }

  /** Without lost hooks the index names the latest written version whenever no hook is outstanding. */
  lemma {:induction false} IndexIsCurrent(s: Space, ops: seq<Op>, s': Space, n: Name)
    requires Current(s, n) && Runs(s, ops, s') && forall i :: 0 <= i < |ops| && ops[i].RunHook? ==> ops[i].lost == {}
    ensures Current(s', n)
    decreases |ops|
  {
    if ops != [] {
      StepCurrent(s, ops[0], n);
      hide Can, After, Early, Current;
      IndexIsCurrent(After(s, ops[0]), ops[1..], s', n);
    }
  }

  // ---------- An early registration writes a version twice ----------

  lemma OneRun(s: Space, op: Op)
    requires Can(s, op) && !Early(s, op)
    ensures Runs(s, [op], After(s, op))
  {
    assert [op][1..] == [];
  }

  lemma {:induction false} RunsThen(s: Space, ops: seq<Op>, mid: Space, more: seq<Op>, s': Space)
    requires Runs(s, ops, mid) && Runs(mid, more, s')
    ensures Runs(s, ops + more, s')
    decreases |ops|
  {
    hide Can, Early, After;
    if ops == [] {
      assert ops + more == more;
    } else {
      assert (ops + more)[1..] == ops[1..] + more;
      RunsThen(After(s, ops[0]), ops[1..], mid, more, s');
    }
  }

  lemma NotEarly(s: Space, op: Op)
    requires !op.Register?
    ensures !Early(s, op)
  {
  }

  lemma NotConflicted(s: Space, s': Space, x: Txn, x': Txn, p: Pending)
    requires !Conflicted(s, x) && x'.pending == x.pending + [p] && x'.snapshot == x.snapshot && s'.chains == s.chains
    requires !Conflicts(Chain(s, p.name, p.version), x.snapshot)
    ensures !Conflicted(s', x')
  {
    forall i | 0 <= i < |x'.pending|
      ensures !Conflicts(Chain(s', x'.pending[i].name, x'.pending[i].version), x'.snapshot)
    {
      assert i < |x.pending| ==> !Conflicts(Chain(s, x.pending[i].name, x.pending[i].version), x.snapshot);
    }
  }

  /** A live transaction holding a version already written at or below its snapshot, with nothing in its way. */
  predicate Poised(s: Space, t: string, n: Name, v: u32) {
    && s.flight.None? && t in s.txns && Pending(n, v) in s.txns[t].pending
    && Chain(s, n, v) != [] && !Conflicted(s, s.txns[t]) && s.globalVersion < U64_MAX
  }

  /** It commits, and the version is written again. */
  lemma PoisedWritesTwice(s: Space, t: string, n: Name, v: u32) returns (s': Space)
    requires Poised(s, t, n, v)
    ensures Runs(s, [Allocate(t)] + [Append], s') && |Chain(s', n, v)| >= 2
  {
    var x, mid := s.txns[t], After(s, Allocate(t));
    assert !Conflicted(mid, x) by { SameNotConflicted(s, mid, x); }
    s' := After(mid, Append);
    AppendCounts(mid.chains, x.pending, Entry(t, mid.globalVersion), n, v);
    assert Pending(n, v) in multiset(x.pending);
    NotEarly(s, Allocate(t));
    NotEarly(mid, Append);
    hide Early, Conflicted, AppendPending, Hook;
    OneRun(s, Allocate(t));
    OneRun(mid, Append);
    RunsThen(s, [Allocate(t)], mid, [Append], s');
  }

  lemma SameNotConflicted(s: Space, s': Space, x: Txn)
    requires !Conflicted(s, x) && s'.chains == s.chains
    ensures !Conflicted(s', x)
  {
    forall i | 0 <= i < |x.pending|
      ensures !Conflicts(Chain(s', x.pending[i].name, x.pending[i].version), x.snapshot)
    {
      assert !Conflicts(Chain(s, x.pending[i].name, x.pending[i].version), x.snapshot);
    }
  }

  /** What an early registration leaves behind. */
  lemma EarlyHolds(s: Space, t: string, n: Name)
    requires SpaceOk(s) && Early(s, Register(t, n))
    ensures var s1, v := After(s, Register(t, n)), LatestIn(s.index, n) + 1;
            && t in s1.txns && Pending(n, v) in s1.txns[t].pending && !Conflicted(s1, s1.txns[t])
            && s1.chains == s.chains && s1.flight == s.flight && s1.globalVersion == s.globalVersion
  {
    var s1, x, v := After(s, Register(t, n)), s.txns[t], LatestIn(s.index, n) + 1;
    NotConflicted(s, s1, x, s1.txns[t], Pending(n, v));
  }

  /** The commit in flight ends in a way that leaves the version written and the transaction unharmed. */
  lemma EarlySettles(s: Space, t: string, n: Name) returns (ops: seq<Op>, s': Space)
    requires SpaceOk(s) && Early(s, Register(t, n)) && s.globalVersion < U64_MAX
    ensures Runs(After(s, Register(t, n)), ops, s') && Poised(s', t, n, LatestIn(s.index, n) + 1)
  {
    var s1, v := After(s, Register(t, n)), LatestIn(s.index, n) + 1;
    EarlyHolds(s, t, n);
    if s.flight.None? {
      ops, s' := [], s1;
    } else if s.flight.value.appended {
      s' := After(s1, RunHook({}));
      ops := [RunHook({})];
      NotEarly(s1, RunHook({}));
      OneRun(s1, RunHook({}));
      SameNotConflicted(s1, s', s1.txns[t]);
    } else if Chain(s, n, v) != [] {
      s' := After(s1, Abandon);
      ops := [Abandon];
      NotEarly(s1, Abandon);
      OneRun(s1, Abandon);
      SameNotConflicted(s1, s', s1.txns[t]);
    } else {
      ops, s' := EarlyAppends(s, t, n);
    }
  }

  lemma EarlyAppends(s: Space, t: string, n: Name) returns (ops: seq<Op>, s': Space)
    requires SpaceOk(s) && Early(s, Register(t, n)) && s.globalVersion < U64_MAX
    requires s.flight.Some? && !s.flight.value.appended && Chain(s, n, LatestIn(s.index, n) + 1) == []
    ensures Runs(After(s, Register(t, n)), ops, s') && Poised(s', t, n, LatestIn(s.index, n) + 1)
  {
    var s1, v, f := After(s, Register(t, n)), LatestIn(s.index, n) + 1, s.flight.value;
    EarlyHolds(s, t, n);
    SameNotConflicted(s, s1, f.txn);
    var s2 := After(s1, Append);
    AppendHarmless(s1, s1.txns[t]);
    AppendCounts(s1.chains, f.txn.pending, Entry(f.t, f.at), n, v);
    assert Pending(n, v) in multiset(f.txn.pending);
    s' := After(s2, RunHook({}));
    NotEarly(s1, Append);
    NotEarly(s2, RunHook({}));
    hide Early, Conflicted, AppendPending, Hook, SpaceOk;
    OneRun(s1, Append);
    OneRun(s2, RunHook({}));
    RunsThen(s1, [Append], s2, [RunHook({})], s');
    ops := [Append] + [RunHook({})];
    SameNotConflicted(s2, s', s2.txns[t]);
  }

  /** An append at or below the snapshot puts nothing in the transaction's way. */
  lemma AppendHarmless(s: Space, x: Txn)
    requires Can(s, Append) && !Conflicted(s, s.flight.value.txn) && !Conflicted(s, x) && s.flight.value.at <= x.snapshot
    ensures !Conflicted(After(s, Append), x)
  {
    var s', f := After(s, Append), s.flight.value;
    forall i | 0 <= i < |x.pending|
      ensures !Conflicts(Chain(s', x.pending[i].name, x.pending[i].version), x.snapshot)
    {
      var n, v := x.pending[i].name, x.pending[i].version;
      assert !Conflicts(Chain(s, n, v), x.snapshot);
      AppendCounts(s.chains, f.txn.pending, Entry(f.t, f.at), n, v);
    }
  }

  /** Whatever follows without an early registration, no version is written twice. */
  ghost predicate StaysOnce(s: Space) {
    forall ops, s', n, v: u32 :: Runs(s, ops, s') ==> |Chain(s', n, v)| <= 1
  }

  /** A registration leaves every version written at most once for good if and only if it is not early. */
  lemma EarlyIsExact(s: Space, t: string, n: Name)
    requires SpaceOk(s) && Can(s, Register(t, n)) && s.globalVersion < U64_MAX
    ensures Early(s, Register(t, n)) <==> !StaysOnce(After(s, Register(t, n)))
  {
    hide Runs, After;
    var s1 := After(s, Register(t, n));
    if Early(s, Register(t, n)) {
      var some, mid := EarlySettles(s, t, n);
      var s' := PoisedWritesTwice(mid, t, n, LatestIn(s.index, n) + 1);
      RunsThen(s1, some, mid, [Allocate(t)] + [Append], s');
      assert Runs(s1, some + ([Allocate(t)] + [Append]), s') && |Chain(s', n, LatestIn(s.index, n) + 1)| > 1;
    } else {
      StepOk(s, Register(t, n));
      hide SpaceOk;
      forall ops, s', m, v: u32 | Runs(s1, ops, s')
        ensures |Chain(s', m, v)| <= 1
      {
        RunOk(s1, ops, s');
        AtMostOnce(s', m, v);
      }
    }
  }

  lemma AtMostOnce(s: Space, n: Name, v: u32)
    requires SpaceOk(s)
    ensures |Chain(s, n, v)| <= 1
  {
    assert ChainOk(s, n, v);
  }

  // ---------- Three runs to an early registration ----------

  function First(n: Name): Txn {
    Txn(0, [Pending(n, 1)])
  }

  /** "t" has registered the name and drawn version 1; */
  function Drawn(n: Name): Space {
    Space(1, map[], map[], map[], Some(Flight("t", 1, First(n), false)), map[])
  }

  /** then appended; */
  function Appended(n: Name): Space {
    Space(1, map[], map[(n, 1) := [Entry("t", 1)]], map[], Some(Flight("t", 1, First(n), true)), map[n := 1])
  }

  /** then lost its hook. */
  function Unhooked(n: Name): Space {
    Appended(n).(flight := None)
  }

  lemma OneMoreRun(ops: seq<Op>, s: Space, op: Op, s': Space)
    requires Runs(Empty, ops, s) && Can(s, op) && !op.Register? && After(s, op) == s'
    ensures Runs(Empty, ops + [op], s')
  {
    NotEarly(s, op);
    hide Can, After, Early;
    OneRun(s, op);
    RunsThen(Empty, ops, s, [op], s');
  }

  lemma RegistersFirst(n: Name) returns (ops: seq<Op>)
    ensures Runs(Empty, ops, Space(0, map[], map[], map["t" := First(n)], None, map[]))
  {
    var s1 := After(Empty, Begin("t"));
    NotEarly(Empty, Begin("t"));
    OneRun(Empty, Begin("t"));
    assert !Early(s1, Register("t", n));
    OneRun(s1, Register("t", n));
    RunsThen(Empty, [Begin("t")], s1, [Register("t", n)], After(s1, Register("t", n)));
    ops := [Begin("t")] + [Register("t", n)];
    assert [] + [Pending(n, 1)] == First(n).pending;
    assert After(s1, Register("t", n)).txns["t"] == First(n);
  }

  lemma RunsToDrawn(n: Name) returns (ops: seq<Op>)
    ensures Runs(Empty, ops, Drawn(n))
  {
    var some := RegistersFirst(n);
    var s := Space(0, map[], map[], map["t" := First(n)], None, map[]);
    assert After(s, Allocate("t")).txns == map[];
    OneMoreRun(some, s, Allocate("t"), Drawn(n));
    ops := some + [Allocate("t")];
  }

  lemma RunsToAppended(n: Name) returns (ops: seq<Op>)
    ensures Runs(Empty, ops, Appended(n))
  {
    var some := RunsToDrawn(n);
    AppendsFirst(n);
    hide Runs, After;
    OneMoreRun(some, Drawn(n), Append, Appended(n));
    ops := some + [Append];
  }

  lemma AppendsFirst(n: Name)
    ensures After(Drawn(n), Append) == Appended(n)
  {
    var ps, s := First(n).pending, Drawn(n);
    assert !Conflicted(s, First(n));
    assert ps[..0] == [];
    assert AppendPending(map[], [], Entry("t", 1)) == map[] && Hook(map[], []) == map[];
    assert [] + [Entry("t", 1)] == [Entry("t", 1)];
    assert AppendPending(s.chains, ps, Entry("t", 1)) == Appended(n).chains;
    assert Hook(s.written, ps) == Appended(n).written;
  }

  lemma RunsToUnhooked(n: Name) returns (ops: seq<Op>)
    ensures Runs(Empty, ops, Unhooked(n))
  {
    var some := RunsToAppended(n);
    var ps := First(n).pending;
    assert ps[..0] == [];
    assert Kept(ps, {n}) == [];
    OneMoreRun(some, Appended(n), RunHook({n}), Unhooked(n));
    ops := some + [RunHook({n})];
  }

  /**
   For every name: a transaction that begins after the first commit of the name has drawn its version and registers
   the name before the append, or before the hook, or after the hook was lost, does so early.
   */
  lemma EarlyHappens(n: Name, s: Space) returns (ops: seq<Op>)
    requires s == Drawn(n) || s == Appended(n) || s == Unhooked(n)
    ensures Can(s, Begin("u")) && Runs(Empty, ops, After(s, Begin("u")))
    ensures Early(After(s, Begin("u")), Register("u", n))
  {
    var some;
    if s == Drawn(n) {
      some := RunsToDrawn(n);
    } else if s == Appended(n) {
      some := RunsToAppended(n);
    } else {
      some := RunsToUnhooked(n);
    }
    OneMoreRun(some, s, Begin("u"), After(s, Begin("u")));
    ops := some + [Begin("u")];
    assert First(n).pending[0] == Pending(n, 1);
    EarlyHere(n, s);
  }

  lemma EarlyHere(n: Name, s: Space)
    requires s == Drawn(n) || s == Appended(n) || s == Unhooked(n)
    ensures Can(s, Begin("u")) && Early(After(s, Begin("u")), Register("u", n))
  {
    var s' := After(s, Begin("u"));
    assert First(n).pending[0] == Pending(n, 1);
    assert s == Drawn(n) ==> !Conflicted(s', First(n));
    assert TakenAt(s', n, 1) == Some(1);
  }
}
