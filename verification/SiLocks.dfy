/** The SI lock manager: per-transaction locks and rw-antidependency edges, with key indexes. */
module SiLocks {
  import opened Primitives

  datatype PeerAction = PeerRead | PeerWrote

  datatype Edge = Edge(peer: string, key: string, action: PeerAction, version: u64)

  datatype ReadLock = ReadLock(key: string, observed: u64)
  datatype WriteLock = WriteLock(key: string, version: u64)

  datatype Phase = Running | Done

  datatype Locks = Locks(
    readLocks: seq<ReadLock>,
    writeLocks: seq<WriteLock>,
    ins: seq<Edge>,
    outs: seq<Edge>,
    snapshot: u64,
    phase: Phase)

  /** A writer of a key, active or committed. */
  datatype Writer = Writer(txn: string, version: u64, committed: bool)

  datatype Recent = Recent(txn: string, keys: seq<string>, version: u64)

  datatype LockState = LockState(
    byTxn: map<string, Locks>,
    readersOf: map<string, seq<string>>,
    writersOf: map<string, seq<Writer>>,
    recent: seq<Recent>,
    floor: u64)

  const NoLocks := LockState(map[], map[], map[], [], 0)

  function Lookup<T>(m: map<string, seq<T>>, k: string): seq<T> {
    if k in m then m[k] else []
  }

  // ---------- What each call does ----------

  function Begin(m: LockState, t: string, snapshot: u64): LockState {
    if t in m.byTxn then m else m.(byTxn := m.byTxn[t := Locks([], [], [], [], snapshot, Running)])
  }

  /** One in-edge per committed writer above the version observed. */
  function MissedEdges(ws: seq<Writer>, k: string, observed: u64): seq<Edge> {
    if ws == [] then []
    else
      var w := ws[|ws| - 1];
      MissedEdges(ws[..|ws| - 1], k, observed)
      + if w.committed && w.version > observed then [Edge(w.txn, k, PeerWrote, w.version)] else []
  }

  function ReadMark(l: Locks, k: string, observed: u64, edges: seq<Edge>): Locks {
    l.(readLocks := l.readLocks + [ReadLock(k, observed)], ins := l.ins + edges)
  }

  function AddRead(m: LockState, t: string, k: string, observed: u64): LockState {
    var edges := MissedEdges(Lookup(m.writersOf, k), k, observed);
    m.(byTxn := if t in m.byTxn then m.byTxn[t := ReadMark(m.byTxn[t], k, observed, edges)] else m.byTxn,
       readersOf := m.readersOf[k := Lookup(m.readersOf, k) + [t]])
  }

  /** One out-edge per registered read of the key by somebody else. */
  function ReaderEdges(readers: seq<string>, t: string, k: string, v: u64): seq<Edge> {
    if readers == [] then []
    else
      var r := readers[|readers| - 1];
      ReaderEdges(readers[..|readers| - 1], t, k, v) + if r == t then [] else [Edge(r, k, PeerRead, v)]
  }

  function WriteMark(l: Locks, k: string, v: u64, edges: seq<Edge>): Locks {
    l.(writeLocks := l.writeLocks + [WriteLock(k, v)], outs := l.outs + edges)
  }

  function AddIn(locks: map<string, Locks>, u: string, e: Edge): map<string, Locks> {
    if u in locks then locks[u := locks[u].(ins := locks[u].ins + [e])] else locks
  }

  /** The same edges seen from the readers' side. */
  function Mirror(locks: map<string, Locks>, readers: seq<string>, t: string, e: Edge): map<string, Locks> {
    if readers == [] then locks
    else
      var r, done := readers[|readers| - 1], Mirror(locks, readers[..|readers| - 1], t, e);
      if r == t then done else AddIn(done, r, e)
  }

  function AddWrite(m: LockState, t: string, k: string, v: u64): LockState {
    var readers := Lookup(m.readersOf, k);
    var mine := if t in m.byTxn then m.byTxn[t := WriteMark(m.byTxn[t], k, v, ReaderEdges(readers, t, k, v))] else m.byTxn;
    m.(byTxn := Mirror(mine, readers, t, Edge(t, k, PeerWrote, v)),
       writersOf := m.writersOf[k := Lookup(m.writersOf, k) + [Writer(t, 0, false)]])
  }

  predicate HasPeer(es: seq<Edge>, u: string, k: string) {
    exists e :: e in es && e.peer == u && e.key == k
  }

  /** The (peer, key) pairs of the out-edges towards readers. */
  function ReadPairs(outs: seq<Edge>): seq<(string, string)> {
    if outs == [] then []
    else
      var e := outs[|outs| - 1];
      ReadPairs(outs[..|outs| - 1]) + if e.action == PeerRead then [(e.peer, e.key)] else []
  }

  /** The commit-time mirror pass over the committer's own out-edges, skipping pairs already there. */
  function MirrorCommit(locks: map<string, Locks>, pairs: seq<(string, string)>, t: string, v: u64): map<string, Locks> {
    if pairs == [] then locks
    else
      var (u, k) := pairs[|pairs| - 1];
      var done := MirrorCommit(locks, pairs[..|pairs| - 1], t, v);
      if u in done && !HasPeer(done[u].ins, t, k) then AddIn(done, u, Edge(t, k, PeerWrote, v)) else done
  }

  function Stamp(ws: seq<Writer>, t: string, v: u64): (r: seq<Writer>)
    ensures |r| == |ws|
  {
    seq(|ws|, i requires 0 <= i < |ws| => if ws[i].txn == t then Writer(t, v, true) else ws[i])
  }

  function StampAll(wo: map<string, seq<Writer>>, keys: seq<string>, t: string, v: u64): map<string, seq<Writer>> {
    if keys == [] then wo
    else
      var k, done := keys[|keys| - 1], StampAll(wo, keys[..|keys| - 1], t, v);
      if k in done then done[k := Stamp(done[k], t, v)] else done
  }

  function KeysOf(ws: seq<WriteLock>): (r: seq<string>)
    ensures |r| == |ws|
  {
    seq(|ws|, i requires 0 <= i < |ws| => ws[i].key)
  }

  function Commit(m: LockState, t: string, v: u64): LockState {
    var pairs := if t in m.byTxn then ReadPairs(m.byTxn[t].outs) else [];
    var keys := if t in m.byTxn then KeysOf(m.byTxn[t].writeLocks) else [];
    var marked := if t in m.byTxn then m.byTxn[t := m.byTxn[t].(phase := Done)] else m.byTxn;
    LockState(MirrorCommit(marked, pairs, t, v), m.readersOf, StampAll(m.writersOf, keys, t, v),
              m.recent + [Recent(t, keys, v)], if v > m.floor then v else m.floor)
  }

  function WithoutPeer(es: seq<Edge>, t: string): seq<Edge> {
    if es == [] then []
    else WithoutPeer(es[..|es| - 1], t) + if es[|es| - 1].peer == t then [] else [es[|es| - 1]]
  }

  function WithoutReader(rs: seq<string>, t: string): seq<string> {
    if rs == [] then []
    else WithoutReader(rs[..|rs| - 1], t) + if rs[|rs| - 1] == t then [] else [rs[|rs| - 1]]
  }

  function WithoutWriter(ws: seq<Writer>, t: string): seq<Writer> {
    if ws == [] then []
    else WithoutWriter(ws[..|ws| - 1], t) + if ws[|ws| - 1].txn == t then [] else [ws[|ws| - 1]]
  }

  function Forget(l: Locks, t: string): Locks {
    l.(ins := WithoutPeer(l.ins, t), outs := WithoutPeer(l.outs, t))
  }

  function Abort(m: LockState, t: string): LockState {
    m.(byTxn := map u | u in m.byTxn && u != t :: Forget(m.byTxn[u], t),
       readersOf := map k | k in m.readersOf :: WithoutReader(m.readersOf[k], t),
       writersOf := map k | k in m.writersOf :: WithoutWriter(m.writersOf[k], t))
  }

  /** Some other transaction is both an in-peer and an out-peer. */
  ghost predicate Dangerous(m: LockState, t: string) {
    t in m.byTxn && exists u :: u != t && Shared(m.byTxn[t], u)
  }

  predicate Shared(l: Locks, u: string) {
    (exists e :: e in l.ins && e.peer == u) && (exists e :: e in l.outs && e.peer == u)
  }

  // ---------- The manager itself ----------

  method RetainPeers(es: seq<Edge>, t: string) returns (r: seq<Edge>)
    ensures r == WithoutPeer(es, t)
  {
    r := [];
    for i := 0 to |es|
      invariant r == WithoutPeer(es[..i], t)
    {
      assert es[..i + 1][..i] == es[..i];
      if es[i].peer != t {
        r := r + [es[i]];
      }
    }
    assert es[..|es|] == es;
  }

  method RetainReaders(rs: seq<string>, t: string) returns (r: seq<string>)
    ensures r == WithoutReader(rs, t)
  {
    r := [];
    for i := 0 to |rs|
      invariant r == WithoutReader(rs[..i], t)
    {
      assert rs[..i + 1][..i] == rs[..i];
      if rs[i] != t {
        r := r + [rs[i]];
      }
    }
    assert rs[..|rs|] == rs;
  }

  method RetainWriters(ws: seq<Writer>, t: string) returns (r: seq<Writer>)
    ensures r == WithoutWriter(ws, t)
  {
    r := [];
    for i := 0 to |ws|
      invariant r == WithoutWriter(ws[..i], t)
    {
      assert ws[..i + 1][..i] == ws[..i];
      if ws[i].txn != t {
        r := r + [ws[i]];
      }
    }
    assert ws[..|ws|] == ws;
  }

  /** Membership test by scanning the edge list. */
  method ScanFor(es: seq<Edge>, u: string, k: string) returns (found: bool)
    ensures found <==> HasPeer(es, u, k)
  {
    for i := 0 to |es|
      invariant forall j :: 0 <= j < i ==> !(es[j].peer == u && es[j].key == k)
    {
      if es[i].peer == u && es[i].key == k {
        assert es[i] in es;
        return true;
      }
    }
    found := false;
  }

  class SiLockManager {
    var byTxn: map<string, Locks>
    var readersOf: map<string, seq<string>>
    var writersOf: map<string, seq<Writer>>
    var recent: seq<Recent>
    var floor: u64

    constructor ()
      ensures State() == NoLocks
    {
      byTxn, readersOf, writersOf, recent, floor := map[], map[], map[], [], 0;
    }

    function State(): LockState
      reads this
    {
      LockState(byTxn, readersOf, writersOf, recent, floor)
    }

    method BeginTxn(t: string, snapshot: u64) returns (ok: bool)
      modifies this
      ensures ok <==> t !in old(byTxn)
      ensures State() == Begin(old(State()), t, snapshot)
    {
      if t in byTxn {
        return false;
      }
      byTxn := byTxn[t := Locks([], [], [], [], snapshot, Running)];
      ok := true;
    }

    method RegisterRead(t: string, k: string, observed: u64)
      modifies this
      ensures State() == AddRead(old(State()), t, k, observed)
    {
      var writers := Lookup(writersOf, k);
      var edges := [];
      for i := 0 to |writers|
        invariant edges == MissedEdges(writers[..i], k, observed)
      {
        assert writers[..i + 1][..i] == writers[..i];
        if writers[i].committed && writers[i].version > observed {
          edges := edges + [Edge(writers[i].txn, k, PeerWrote, writers[i].version)];
        }
      }
      assert writers[..|writers|] == writers;
      if t in byTxn {
        byTxn := byTxn[t := ReadMark(byTxn[t], k, observed, edges)];
      }
      readersOf := readersOf[k := Lookup(readersOf, k) + [t]];
    }

    method RegisterWrite(t: string, k: string, v: u64)
      modifies this
      ensures State() == AddWrite(old(State()), t, k, v)
    {
      var readers := Lookup(readersOf, k);
      if t in byTxn {
        var edges := [];
        for i := 0 to |readers|
          invariant edges == ReaderEdges(readers[..i], t, k, v)
        {
          assert readers[..i + 1][..i] == readers[..i];
          if readers[i] != t {
            edges := edges + [Edge(readers[i], k, PeerRead, v)];
          }
        }
        assert readers[..|readers|] == readers;
        byTxn := byTxn[t := WriteMark(byTxn[t], k, v, edges)];
      }
      ghost var mine := byTxn;
      var mirror := Edge(t, k, PeerWrote, v);
      for i := 0 to |readers|
        invariant byTxn == Mirror(mine, readers[..i], t, mirror)
        invariant readersOf == old(readersOf) && writersOf == old(writersOf) && recent == old(recent) && floor == old(floor)
      {
        assert readers[..i + 1][..i] == readers[..i];
        if readers[i] != t && readers[i] in byTxn {
          byTxn := byTxn[readers[i] := byTxn[readers[i]].(ins := byTxn[readers[i]].ins + [mirror])];
        }
      }
      assert readers[..|readers|] == readers;
      writersOf := writersOf[k := Lookup(writersOf, k) + [Writer(t, 0, false)]];
    }

    method FindDangerousStructure(t: string) returns (r: Option<string>)
      ensures r.Some? ==> t in byTxn && r.value != t && Shared(byTxn[t], r.value)
      ensures r.None? ==> !Dangerous(State(), t)
    {
      if t !in byTxn {
        return None;
      }
      var me := byTxn[t];
      var inPeers: set<string> := {};
      for i := 0 to |me.ins|
        invariant forall u :: u in inPeers <==> u != t && exists j :: 0 <= j < i && me.ins[j].peer == u
      {
        if me.ins[i].peer != t {
          inPeers := inPeers + {me.ins[i].peer};
        }
      }
      for i := 0 to |me.outs|
        invariant forall j :: 0 <= j < i ==> me.outs[j].peer !in inPeers
      {
        if me.outs[i].peer in inPeers {
          var u := me.outs[i].peer;
          assert me.outs[i] in me.outs;
          return Some(u);
        }
      }
      r := None;
    }

    method MarkCommitted(t: string, v: u64)
      modifies this
      ensures State() == Commit(old(State()), t, v)
    {
      var pairs, keys := [], [];
      if t in byTxn {
        var outs := byTxn[t].outs;
        for i := 0 to |outs|
          invariant pairs == ReadPairs(outs[..i])
        {
          assert outs[..i + 1][..i] == outs[..i];
          if outs[i].action == PeerRead {
            pairs := pairs + [(outs[i].peer, outs[i].key)];
          }
        }
        assert outs[..|outs|] == outs;
        keys := KeysOf(byTxn[t].writeLocks);
        byTxn := byTxn[t := byTxn[t].(phase := Done)];
      }
      MirrorPairs(pairs, t, v);
      StampWriters(keys, t, v);
      recent := recent + [Recent(t, keys, v)];
      if v > floor {
        floor := v;
      }
    }

    method MirrorPairs(pairs: seq<(string, string)>, t: string, v: u64)
      modifies this
      ensures State() == old(State()).(byTxn := MirrorCommit(old(byTxn), pairs, t, v))
    {
      for i := 0 to |pairs|
        invariant State() == old(State()).(byTxn := MirrorCommit(old(byTxn), pairs[..i], t, v))
      {
        assert pairs[..i + 1][..i] == pairs[..i];
        var (u, k) := pairs[i];
        if u in byTxn {
          var present := ScanFor(byTxn[u].ins, t, k);
          if !present {
            byTxn := byTxn[u := byTxn[u].(ins := byTxn[u].ins + [Edge(t, k, PeerWrote, v)])];
          }
        }
      }
      assert pairs[..|pairs|] == pairs;
    }

    method StampWriters(keys: seq<string>, t: string, v: u64)
      modifies this
      ensures State() == old(State()).(writersOf := StampAll(old(writersOf), keys, t, v))
    {
      for i := 0 to |keys|
        invariant State() == old(State()).(writersOf := StampAll(old(writersOf), keys[..i], t, v))
      {
        assert keys[..i + 1][..i] == keys[..i];
        var k := keys[i];
        if k in writersOf {
          var list := writersOf[k];
          for j := 0 to |list|
            invariant |list| == |writersOf[k]|
            invariant forall n :: 0 <= n < j ==> list[n] == Stamp(writersOf[k], t, v)[n]
            invariant forall n :: j <= n < |list| ==> list[n] == writersOf[k][n]
          {
            if list[j].txn == t {
              list := list[j := Writer(t, v, true)];
            }
          }
          assert list == Stamp(writersOf[k], t, v);
          writersOf := writersOf[k := list];
        }
      }
      assert keys[..|keys|] == keys;
    }

    method MarkAborted(t: string)
      modifies this
      ensures State() == Abort(old(State()), t)
    {
      hide Forget, WithoutReader, WithoutWriter;
      byTxn := byTxn - {t};
      ForgetPeer(t);
      assert byTxn == Abort(old(State()), t).byTxn;
      ForgetReader(t);
      ForgetWriter(t);
    }

    method ForgetPeer(t: string)
      modifies this`byTxn
      ensures byTxn == map u | u in old(byTxn) :: Forget(old(byTxn)[u], t)
    {
      var todo := byTxn.Keys;
      while todo != {}
        invariant todo <= byTxn.Keys == old(byTxn).Keys
        invariant forall u :: u in byTxn ==>
                    byTxn[u] == if u in todo then old(byTxn)[u] else Forget(old(byTxn)[u], t)
        decreases |todo|
      {
        var u :| u in todo;
        todo := todo - {u};
        var ins := RetainPeers(byTxn[u].ins, t);
        var outs := RetainPeers(byTxn[u].outs, t);
        byTxn := byTxn[u := byTxn[u].(ins := ins, outs := outs)];
      }
    }

    method ForgetReader(t: string)
      modifies this`readersOf
      ensures readersOf == map k | k in old(readersOf) :: WithoutReader(old(readersOf)[k], t)
    {
      var todo := readersOf.Keys;
      while todo != {}
        invariant todo <= readersOf.Keys == old(readersOf).Keys
        invariant forall k :: k in readersOf ==>
                    readersOf[k] == if k in todo then old(readersOf)[k] else WithoutReader(old(readersOf)[k], t)
        decreases |todo|
      {
        var k :| k in todo;
        todo := todo - {k};
        var list := RetainReaders(readersOf[k], t);
        readersOf := readersOf[k := list];
      }
    }

    method ForgetWriter(t: string)
      modifies this`writersOf
      ensures writersOf == map k | k in old(writersOf) :: WithoutWriter(old(writersOf)[k], t)
    {
      var todo := writersOf.Keys;
      while todo != {}
        invariant todo <= writersOf.Keys == old(writersOf).Keys
        invariant forall k :: k in writersOf ==>
                    writersOf[k] == if k in todo then old(writersOf)[k] else WithoutWriter(old(writersOf)[k], t)
        decreases |todo|
      {
        var k :| k in todo;
        todo := todo - {k};
        var list := RetainWriters(writersOf[k], t);
        writersOf := writersOf[k := list];
      }
    }
  }
}
