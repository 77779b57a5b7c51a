/**
 The lock manager's records against its event history: every field of every lock list, edge, writer entry and
 commit record is what the calls said.
 */
module SiRecords {
  import opened Primitives
  import opened SiLocks
  import opened SiHistory

  /** The reads of a transaction, in order. */
  function ReadsOf(h: History, t: string): seq<ReadLock> {
    if h == [] then []
    else
      var e := h[|h| - 1];
      ReadsOf(h[..|h| - 1], t) + if e.DidRead? && e.t == t then [ReadLock(e.k, e.observed)] else []
  }

  /** Its writes, in order. */
  function WritesOf(h: History, t: string): seq<WriteLock> {
    if h == [] then []
    else
      var e := h[|h| - 1];
      WritesOf(h[..|h| - 1], t) + if e.DidWrite? && e.t == t then [WriteLock(e.k, e.v)] else []
  }

  /** The commits, in order, each with the keys it wrote. */
  function CommitsOf(h: History): seq<Recent> {
    if h == [] then []
    else
      var e, before := h[|h| - 1], h[..|h| - 1];
      CommitsOf(before) + if e.DidCommit? then [Recent(e.t, KeysOf(WritesOf(before, e.t)), e.v)] else []
  }

  /** An edge towards a reader carries the version of the write that met it. */
  ghost predicate OutLabel(h: History, t: string, e: Edge) {
    e.action == PeerRead && DidWrite(t, e.key, e.version) in h
  }

  /** An edge towards a writer carries the version it announced, or the one it committed at. */
  ghost predicate InLabel(h: History, e: Edge) {
    e.action == PeerWrote && (DidWrite(e.peer, e.key, e.version) in h || DidCommit(e.peer, e.version) in h)
  }

  ghost predicate LocksOk(h: History, t: string, l: Locks) {
    && Began(t, l.snapshot) in h && (l.phase == Done <==> CommittedIn(h, t))
    && l.readLocks == ReadsOf(h, t) && l.writeLocks == WritesOf(h, t)
    && (forall e :: e in l.outs ==> OutLabel(h, t, e))
    && (forall e :: e in l.ins ==> InLabel(h, e))
  }

  ghost predicate WriterLabel(h: History, w: Writer) {
    if w.committed then DidCommit(w.txn, w.version) in h else w.version == 0
  }

  ghost predicate WritersOk(h: History, wo: map<string, seq<Writer>>) {
    forall k, w :: k in wo && w in wo[k] ==> WriterLabel(h, w)
  }

  /** The greatest commit version, 0 before the first commit. */
  ghost predicate IsFloor(h: History, v: u64) {
    && (forall e :: e in h && e.DidCommit? ==> e.v <= v)
    && (v == 0 || exists e :: e in h && e.DidCommit? && e.v == v)
  }

  ghost predicate RecordsOk(h: History, m: LockState) {
    && (forall t :: t in m.byTxn ==> LocksOk(h, t, m.byTxn[t]))
    && WritersOk(h, m.writersOf) && m.recent == CommitsOf(h) && IsFloor(h, m.floor)
  }

  // ---------- One more event ----------

  lemma ListsGrow(h: History, e: Event, t: string)
    ensures ReadsOf(h + [e], t) == ReadsOf(h, t) + if e.DidRead? && e.t == t then [ReadLock(e.k, e.observed)] else []
    ensures WritesOf(h + [e], t) == WritesOf(h, t) + if e.DidWrite? && e.t == t then [WriteLock(e.k, e.v)] else []
    ensures CommitsOf(h + [e]) == CommitsOf(h) + if e.DidCommit? then [Recent(e.t, KeysOf(WritesOf(h, e.t)), e.v)] else []
  {
    assert (h + [e])[..|h|] == h;
  }

  /** The record moved in nothing but its edges, and each edge is an old one or has a good label. */
  ghost predicate Relinked(h: History, t: string, l: Locks, l': Locks) {
    && l'.snapshot == l.snapshot && l'.phase == l.phase && l'.readLocks == l.readLocks && l'.writeLocks == l.writeLocks
    && (forall x :: x in l'.outs ==> x in l.outs || OutLabel(h, t, x))
    && (forall x :: x in l'.ins ==> x in l.ins || InLabel(h, x))
  }

  lemma LabelsStay(h: History, e: Event, t: string, l: Locks)
    requires LocksOk(h, t, l)
    ensures Began(t, l.snapshot) in h + [e]
    ensures forall x :: x in l.outs ==> OutLabel(h + [e], t, x)
    ensures forall x :: x in l.ins ==> InLabel(h + [e], x)
  {
    hide ReadsOf, WritesOf, CommittedIn;
    forall x | x in l.outs
      ensures OutLabel(h + [e], t, x)
    {
      assert OutLabel(h, t, x);
    }
    forall x | x in l.ins
      ensures InLabel(h + [e], x)
    {
      assert InLabel(h, x);
    }
  }

  /** An event of somebody else, or one that adds no read, write or commit. */
  lemma RelinkedOk(h: History, e: Event, t: string, l: Locks, l': Locks)
    requires LocksOk(h, t, l) && Relinked(h + [e], t, l, l') && (e.t != t || e.Began? || e.DidAbort?)
    ensures LocksOk(h + [e], t, l')
  {
    ListsGrow(h, e, t);
    Unfold(h, e);
    LabelsStay(h, e, t, l);
    hide ReadsOf, WritesOf, CommittedIn, OutLabel, InLabel;
  }

  lemma WritersStay(h: History, e: Event, wo: map<string, seq<Writer>>)
    requires WritersOk(h, wo)
    ensures WritersOk(h + [e], wo)
  {
    forall k, w | k in wo && w in wo[k]
      ensures WriterLabel(h + [e], w)
    {
      assert WriterLabel(h, w);
    }
  }

  lemma FloorStays(h: History, e: Event, v: u64)
    requires IsFloor(h, v)
    ensures IsFloor(h + [e], if e.DidCommit? && e.v > v then e.v else v)
  {
    var h' := h + [e];
    assert forall x :: x in h' <==> x in h || x == e;
    if v != 0 {
      var x :| x in h && x.DidCommit? && x.v == v;
      assert x in h';
    }
  }

  // ---------- Beginning ----------

  lemma {:induction false} NothingYet(h: History, t: string)
    requires Valid(h) && !BeganIn(h, t)
    ensures ReadsOf(h, t) == [] && WritesOf(h, t) == [] && !CommittedIn(h, t)
  {
    if h != [] {
      NothingYet(h[..|h| - 1], t);
    }
  }

  lemma BeginRecords(h: History, m: LockState, t: string, s: u64)
    requires Valid(h) && RecordsOk(h, m) && !BeganIn(h, t) && t !in m.byTxn
    ensures RecordsOk(h + [Began(t, s)], Begin(m, t, s))
  {
    var e := Began(t, s);
    var h', m' := h + [e], Begin(m, t, s);
    NothingYet(h, t);
    Unfold(h, e);
    ListsGrow(h, e, t);
    WritersStay(h, e, m.writersOf);
    FloorStays(h, e, m.floor);
    assert e in h';
    hide ReadsOf, WritesOf, CommitsOf, CommittedIn, BeganIn, IsFloor, WritersOk, OutLabel, InLabel;
    forall u | u in m'.byTxn
      ensures LocksOk(h', u, m'.byTxn[u])
    {
      if u != t {
        RelinkedOk(h, e, u, m.byTxn[u], m.byTxn[u]);
      }
    }
  }

  // ---------- Reading ----------

  lemma {:induction false} MissedLabels(h: History, ws: seq<Writer>, k: string, x: u64)
    requires forall w :: w in ws ==> WriterLabel(h, w)
    ensures forall e :: e in MissedEdges(ws, k, x) ==> InLabel(h, e)
  {
    if ws != [] {
      assert ws[|ws| - 1] in ws;
      MissedLabels(h, ws[..|ws| - 1], k, x);
    }
  }

  lemma ReadRecords(h: History, m: LockState, t: string, k: string, x: u64)
    requires RecordsOk(h, m)
    ensures RecordsOk(h + [DidRead(t, k, x)], AddRead(m, t, k, x))
  {
    var e := DidRead(t, k, x);
    var h', m' := h + [e], AddRead(m, t, k, x);
    ListsGrow(h, e, t);
    WritersStay(h, e, m.writersOf);
    FloorStays(h, e, m.floor);
    MissedLabels(h', Lookup(m.writersOf, k), k, x);
    Unfold(h, e);
    hide ReadsOf, WritesOf, CommitsOf, CommittedIn, IsFloor, WritersOk, MissedEdges, OutLabel, InLabel;
    forall u | u in m'.byTxn
      ensures LocksOk(h', u, m'.byTxn[u])
    {
      if u != t {
        RelinkedOk(h, e, u, m.byTxn[u], m.byTxn[u]);
      } else {
        LabelsStay(h, e, t, m.byTxn[t]);
      }
    }
  }

  // ---------- Writing ----------

  lemma {:induction false} ReaderLabels(h: History, readers: seq<string>, t: string, k: string, v: u64)
    requires DidWrite(t, k, v) in h
    ensures forall e :: e in ReaderEdges(readers, t, k, v) ==> OutLabel(h, t, e)
  {
    if readers != [] {
      ReaderLabels(h, readers[..|readers| - 1], t, k, v);
    }
  }

  /** The mirror adds copies of one edge. */
  lemma {:induction false} MirrorRelinks(h: History, locks: map<string, Locks>, readers: seq<string>, t: string, e: Edge, u: string)
    requires u in locks && InLabel(h, e)
    ensures Mirror(locks, readers, t, e).Keys == locks.Keys && Relinked(h, u, locks[u], Mirror(locks, readers, t, e)[u])
  {
    hide InLabel, OutLabel;
    if readers != [] {
      MirrorRelinks(h, locks, readers[..|readers| - 1], t, e, u);
    }
  }

  lemma {:induction false} MirrorDomain(locks: map<string, Locks>, readers: seq<string>, t: string, e: Edge)
    ensures Mirror(locks, readers, t, e).Keys == locks.Keys
  {
    if readers != [] {
      MirrorDomain(locks, readers[..|readers| - 1], t, e);
    }
  }

  lemma WriteWritersOk(h: History, wo: map<string, seq<Writer>>, t: string, k: string)
    requires WritersOk(h, wo)
    ensures WritersOk(h, wo[k := Lookup(wo, k) + [Writer(t, 0, false)]])
  {
  }

  lemma OwnWriteOk(h: History, l: Locks, t: string, k: string, v: u64, edges: seq<Edge>)
    requires LocksOk(h, t, l) && forall x :: x in edges ==> OutLabel(h + [DidWrite(t, k, v)], t, x)
    ensures LocksOk(h + [DidWrite(t, k, v)], t, WriteMark(l, k, v, edges))
  {
    ListsGrow(h, DidWrite(t, k, v), t);
    Unfold(h, DidWrite(t, k, v));
    LabelsStay(h, DidWrite(t, k, v), t, l);
    hide ReadsOf, WritesOf, CommittedIn, OutLabel, InLabel;
  }

  lemma RelinkedStays(h: History, t: string, l: Locks, l': Locks)
    requires LocksOk(h, t, l) && Relinked(h, t, l, l')
    ensures LocksOk(h, t, l')
  {
    hide ReadsOf, WritesOf, CommittedIn, OutLabel, InLabel;
  }

  lemma WriteRecords(h: History, m: LockState, t: string, k: string, v: u64)
    requires RecordsOk(h, m)
    ensures RecordsOk(h + [DidWrite(t, k, v)], AddWrite(m, t, k, v))
  {
    var e, edge := DidWrite(t, k, v), Edge(t, k, PeerWrote, v);
    var h', m', readers := h + [e], AddWrite(m, t, k, v), Lookup(m.readersOf, k);
    var mine := if t in m.byTxn then m.byTxn[t := WriteMark(m.byTxn[t], k, v, ReaderEdges(readers, t, k, v))] else m.byTxn;
    assert e in h' && InLabel(h', edge);
    ListsGrow(h, e, t);
    WritersStay(h, e, m.writersOf);
    WriteWritersOk(h', m.writersOf, t, k);
    FloorStays(h, e, m.floor);
    ReaderLabels(h', readers, t, k, v);
    MirrorDomain(mine, readers, t, edge);
    hide ReadsOf, WritesOf, CommitsOf, CommittedIn, IsFloor, WritersOk, OutLabel, InLabel, ReaderEdges, Mirror, LocksOk, WriteMark;
    forall u | u in m'.byTxn
      ensures LocksOk(h', u, m'.byTxn[u])
    {
      if u == t {
        OwnWriteOk(h, m.byTxn[t], t, k, v, ReaderEdges(readers, t, k, v));
      } else {
        RelinkedSelf(h', u, m.byTxn[u]);
        RelinkedOk(h, e, u, m.byTxn[u], m.byTxn[u]);
      }
      MirrorRelinks(h', mine, readers, t, edge, u);
      RelinkedStays(h', u, mine[u], m'.byTxn[u]);
    }
  }

  lemma RelinkedSelf(h: History, t: string, l: Locks)
    ensures Relinked(h, t, l, l)
  {
  }

  // ---------- Committing ----------

  lemma {:induction false} CommitRelinks(h: History, locks: map<string, Locks>, pairs: seq<(string, string)>, t: string, v: u64, u: string)
    requires DidCommit(t, v) in h
    ensures MirrorCommit(locks, pairs, t, v).Keys == locks.Keys
    ensures u in locks ==> Relinked(h, u, locks[u], MirrorCommit(locks, pairs, t, v)[u])
  {
    if pairs != [] {
      CommitRelinks(h, locks, pairs[..|pairs| - 1], t, v, u);
      hide OutLabel, HasPeer;
    }
  }

  lemma StampedOk(h: History, wo: map<string, seq<Writer>>, keys: seq<string>, t: string, v: u64)
    requires WritersOk(h, wo) && DidCommit(t, v) in h
    ensures WritersOk(h, StampAll(wo, keys, t, v))
  {
    hide StampAll;
    var now := StampAll(wo, keys, t, v);
    forall k, w | k in now && w in now[k]
      ensures WriterLabel(h, w)
    {
      StampAllAt(wo, keys, t, v, k);
      var i :| 0 <= i < |now[k]| && now[k][i] == w;
      assert wo[k][i] in wo[k] && WriterLabel(h, wo[k][i]);
    }
  }

  lemma OwnCommitOk(h: History, l: Locks, t: string, v: u64)
    requires LocksOk(h, t, l)
    ensures LocksOk(h + [DidCommit(t, v)], t, l.(phase := Done))
  {
    ListsGrow(h, DidCommit(t, v), t);
    Unfold(h, DidCommit(t, v));
    LabelsStay(h, DidCommit(t, v), t, l);
    hide ReadsOf, WritesOf, CommittedIn, OutLabel, InLabel;
  }

  lemma CommitRecords(h: History, m: LockState, t: string, v: u64)
    requires RecordsOk(h, m) && t in m.byTxn
    ensures RecordsOk(h + [DidCommit(t, v)], Commit(m, t, v))
  {
    var e := DidCommit(t, v);
    var h', m', l := h + [e], Commit(m, t, v), m.byTxn[t];
    var marked, pairs := m.byTxn[t := l.(phase := Done)], ReadPairs(l.outs);
    assert e in h';
    ListsGrow(h, e, t);
    assert l.writeLocks == WritesOf(h, t);
    WritersStay(h, e, m.writersOf);
    StampedOk(h', m.writersOf, KeysOf(l.writeLocks), t, v);
    FloorStays(h, e, m.floor);
    CommitRelinks(h', marked, pairs, t, v, t);
    hide ReadsOf, WritesOf, CommitsOf, CommittedIn, IsFloor, WritersOk, OutLabel, InLabel, ReadPairs, MirrorCommit, StampAll, LocksOk;
    forall u | u in m'.byTxn
      ensures LocksOk(h', u, m'.byTxn[u])
    {
      if u == t {
        OwnCommitOk(h, l, t, v);
      } else {
        RelinkedSelf(h', u, m.byTxn[u]);
        RelinkedOk(h, e, u, m.byTxn[u], m.byTxn[u]);
      }
      CommitRelinks(h', marked, pairs, t, v, u);
      RelinkedStays(h', u, marked[u], m'.byTxn[u]);
    }
  }

  // ---------- Aborting ----------

  lemma {:induction false} WithoutPeerHas(es: seq<Edge>, t: string, e: Edge)
    ensures e in WithoutPeer(es, t) <==> e.peer != t && e in es
  {
    if es != [] {
      WithoutPeerHas(es[..|es| - 1], t, e);
      assert es == es[..|es| - 1] + [es[|es| - 1]];
    }
  }

  lemma ForgetRelinks(h: History, u: string, l: Locks, t: string)
    ensures Relinked(h, u, l, Forget(l, t))
  {
    hide OutLabel, InLabel;
    forall x
      ensures x in WithoutPeer(l.outs, t) ==> x in l.outs
      ensures x in WithoutPeer(l.ins, t) ==> x in l.ins
    {
      WithoutPeerHas(l.outs, t, x);
      WithoutPeerHas(l.ins, t, x);
    }
  }

  lemma AbortRecords(h: History, m: LockState, t: string)
    requires RecordsOk(h, m)
    ensures RecordsOk(h + [DidAbort(t)], Abort(m, t))
  {
    var e := DidAbort(t);
    var h', m' := h + [e], Abort(m, t);
    ListsGrow(h, e, t);
    WritersStay(h, e, m.writersOf);
    FloorStays(h, e, m.floor);
    forall k, w | k in m'.writersOf && w in m'.writersOf[k]
      ensures WriterLabel(h', w)
    {
      WithoutWriterHas(m.writersOf[k], t, w);
    }
    hide ReadsOf, WritesOf, CommitsOf, CommittedIn, IsFloor, OutLabel, InLabel, Forget, WithoutWriter, LocksOk, WriterLabel;
    forall u | u in m'.byTxn
      ensures LocksOk(h', u, m'.byTxn[u])
    {
      ForgetRelinks(h', u, m.byTxn[u], t);
      RelinkedOk(h, e, u, m.byTxn[u], m'.byTxn[u]);
    }
  }

  // ---------- Every history ----------

  /** In every valid history the manager's records are exactly what its calls said. */
  lemma {:induction false} RecordsFollowHistory(h: History)
    requires Valid(h)
    ensures RecordsOk(h, Play(h))
  {
    if h != [] {
      var before, e := h[..|h| - 1], h[|h| - 1];
      assert h == before + [e];
      PlayAgrees(before);
      RecordsFollowHistory(before);
      var m := Play(before);
      hide RecordsOk, AddRead, AddWrite, Commit, Abort, Begin, EdgesAgree, ReadersAgree, WritersAgree;
      match e
      case Began(t, s) => BeginRecords(before, m, t, s);
      case DidRead(t, k, x) => ReadRecords(before, m, t, k, x);
      case DidWrite(t, k, v) => WriteRecords(before, m, t, k, v);
      case DidCommit(t, v) => CommitRecords(before, m, t, v);
      case DidAbort(t) => AbortRecords(before, m, t);
    }
  }
}
