/**
 The lock manager against its event history: which edges exist is a function of who read and wrote what
 before whom, the commit-time mirror pass adds nothing, detection is symmetric, and no two transactions
 in a write-skew both commit.
 */
module SiHistory {
  import opened Primitives
  import opened SiLocks

  datatype Event =
    | Began(t: string, snapshot: u64)
    | DidRead(t: string, k: string, observed: u64)
    | DidWrite(t: string, k: string, v: u64)
    | DidCommit(t: string, v: u64)
    | DidAbort(t: string)

  type History = seq<Event>

  // ---------- What happened, by recursion on the last event ----------

  predicate BeganIn(h: History, t: string) {
    h != [] && (BeganIn(h[..|h| - 1], t) || (h[|h| - 1].Began? && h[|h| - 1].t == t))
  }

  predicate AbortedIn(h: History, t: string) {
    h != [] && (AbortedIn(h[..|h| - 1], t) || h[|h| - 1] == DidAbort(t))
  }

  predicate CommittedIn(h: History, t: string) {
    h != [] && (CommittedIn(h[..|h| - 1], t) || (h[|h| - 1].DidCommit? && h[|h| - 1].t == t))
  }

  predicate Known(h: History, t: string) {
    BeganIn(h, t) && !AbortedIn(h, t)
  }

  predicate Reads(e: Event, t: string, k: string) {
    e.DidRead? && e.t == t && e.k == k
  }

  predicate Writes(e: Event, t: string, k: string) {
    e.DidWrite? && e.t == t && e.k == k
  }

  predicate HasRead(h: History, t: string, k: string) {
    h != [] && (HasRead(h[..|h| - 1], t, k) || Reads(h[|h| - 1], t, k))
  }

  predicate HasWritten(h: History, t: string, k: string) {
    h != [] && (HasWritten(h[..|h| - 1], t, k) || Writes(h[|h| - 1], t, k))
  }

  /** `t` committed above version `x`. */
  predicate CommittedAbove(h: History, t: string, x: u64) {
    h != [] && (CommittedAbove(h[..|h| - 1], t, x) || (h[|h| - 1].DidCommit? && h[|h| - 1].t == t && h[|h| - 1].v > x))
  }

  /** `r` read `k` before `w` wrote it. */
  predicate ReadThenWrite(h: History, r: string, w: string, k: string) {
    h != [] &&
    (ReadThenWrite(h[..|h| - 1], r, w, k) || (Writes(h[|h| - 1], w, k) && HasRead(h[..|h| - 1], r, k)))
  }

  /** `r` read `k` after `w` had written it and committed it above the version `r` observed. */
  predicate ReadBehindCommit(h: History, r: string, w: string, k: string) {
    h != [] &&
    (ReadBehindCommit(h[..|h| - 1], r, w, k) ||
     (Reads(h[|h| - 1], r, k) && HasWritten(h[..|h| - 1], w, k) && CommittedAbove(h[..|h| - 1], w, h[|h| - 1].observed)))
  }

  /** Every call is about a known, uncommitted transaction; ids are not reused. */
  predicate Valid(h: History) {
    h == [] ||
    (&& Valid(h[..|h| - 1])
     && var e, before := h[|h| - 1], h[..|h| - 1];
        if e.Began? then !BeganIn(before, e.t) else Known(before, e.t) && !CommittedIn(before, e.t))
  }

  function Apply(m: LockState, e: Event): LockState {
    match e
    case Began(t, s) => Begin(m, t, s)
    case DidRead(t, k, x) => AddRead(m, t, k, x)
    case DidWrite(t, k, v) => AddWrite(m, t, k, v)
    case DidCommit(t, v) => Commit(m, t, v)
    case DidAbort(t) => Abort(m, t)
  }

  function Play(h: History): LockState {
    if h == [] then NoLocks else Apply(Play(h[..|h| - 1]), h[|h| - 1])
  }

  // ---------- What the edges must be ----------

  predicate OutPeer(h: History, t: string, u: string, k: string) {
    u != t && !AbortedIn(h, u) && ReadThenWrite(h, u, t, k)
  }

  predicate InPeer(h: History, t: string, u: string, k: string) {
    u != t && !AbortedIn(h, u) && (ReadThenWrite(h, t, u, k) || ReadBehindCommit(h, t, u, k))
  }

  predicate Wrote(l: Locks, k: string) {
    exists w :: w in l.writeLocks && w.key == k
  }

  ghost predicate EdgesAgree(h: History, t: string, l: Locks) {
    && (forall u, k :: HasPeer(l.outs, u, k) <==> OutPeer(h, t, u, k))
    && (forall u, k :: HasPeer(l.ins, u, k) <==> InPeer(h, t, u, k))
    && (forall k :: Wrote(l, k) <==> HasWritten(h, t, k))
  }

  ghost predicate ReadersAgree(h: History, readersOf: map<string, seq<string>>) {
    forall k, u :: u in Lookup(readersOf, k) <==> HasRead(h, u, k) && !AbortedIn(h, u)
  }

  ghost predicate WriterOk(h: History, w: Writer, k: string) {
    && HasWritten(h, w.txn, k) && !AbortedIn(h, w.txn)
    && (w.committed <==> CommittedIn(h, w.txn))
    && (w.committed ==> forall x: u64 :: w.version > x <==> CommittedAbove(h, w.txn, x))
  }

  ghost predicate ListsWriter(ws: seq<Writer>, t: string) {
    exists w :: w in ws && w.txn == t
  }

  ghost predicate WritersAgree(h: History, writersOf: map<string, seq<Writer>>) {
    && (forall k, w :: w in Lookup(writersOf, k) ==> WriterOk(h, w, k))
    && (forall k, t :: HasWritten(h, t, k) && !AbortedIn(h, t) ==> ListsWriter(Lookup(writersOf, k), t))
  }

  ghost predicate Agrees(h: History, m: LockState) {
    && (forall t :: t in m.byTxn <==> Known(h, t))
    && (forall t :: t in m.byTxn ==> EdgesAgree(h, t, m.byTxn[t]))
    && ReadersAgree(h, m.readersOf)
    && WritersAgree(h, m.writersOf)
  }

  /** What one more event adds to each of these. */
  lemma Unfold(h: History, e: Event)
    ensures forall t :: BeganIn(h + [e], t) <==> BeganIn(h, t) || (e.Began? && e.t == t)
    ensures forall t :: AbortedIn(h + [e], t) <==> AbortedIn(h, t) || e == DidAbort(t)
    ensures forall t :: CommittedIn(h + [e], t) <==> CommittedIn(h, t) || (e.DidCommit? && e.t == t)
    ensures forall t, k :: HasRead(h + [e], t, k) <==> HasRead(h, t, k) || Reads(e, t, k)
    ensures forall t, k :: HasWritten(h + [e], t, k) <==> HasWritten(h, t, k) || Writes(e, t, k)
    ensures forall t, x :: CommittedAbove(h + [e], t, x) <==> CommittedAbove(h, t, x) || (e.DidCommit? && e.t == t && e.v > x)
    ensures forall r, w, k :: ReadThenWrite(h + [e], r, w, k) <==>
              ReadThenWrite(h, r, w, k) || (Writes(e, w, k) && HasRead(h, r, k))
    ensures forall r, w, k :: ReadBehindCommit(h + [e], r, w, k) <==>
              ReadBehindCommit(h, r, w, k) || (Reads(e, r, k) && HasWritten(h, w, k) && CommittedAbove(h, w, e.observed))
  {
    assert (h + [e])[..|h|] == h;
  }

  // ---------- Events presuppose a beginning ----------

  lemma {:induction false} ActsAreBegun(h: History, t: string, k: string)
    requires Valid(h)
    ensures HasRead(h, t, k) ==> BeganIn(h, t)
    ensures HasWritten(h, t, k) ==> BeganIn(h, t)
    ensures CommittedIn(h, t) ==> BeganIn(h, t)
    ensures AbortedIn(h, t) ==> BeganIn(h, t)
  {
    if h != [] {
      ActsAreBegun(h[..|h| - 1], t, k);
    }
  }

  lemma {:induction false} PairsAreActs(h: History, r: string, w: string, k: string)
    ensures ReadThenWrite(h, r, w, k) ==> HasRead(h, r, k) && HasWritten(h, w, k)
    ensures ReadBehindCommit(h, r, w, k) ==> HasRead(h, r, k) && HasWritten(h, w, k) && CommittedIn(h, w)
  {
    if h != [] {
      PairsAreActs(h[..|h| - 1], r, w, k);
      if Reads(h[|h| - 1], r, k) {
        AboveIsCommitted(h[..|h| - 1], w, h[|h| - 1].observed);
      }
    }
  }

  lemma {:induction false} AboveIsCommitted(h: History, t: string, x: u64)
    ensures CommittedAbove(h, t, x) ==> CommittedIn(h, t)
  {
    if h != [] {
      AboveIsCommitted(h[..|h| - 1], t, x);
    }
  }

  // ---------- What the list functions do to peers ----------

  predicate Overtaken(ws: seq<Writer>, u: string, x: u64) {
    exists w :: w in ws && w.txn == u && w.committed && w.version > x
  }

  lemma PeerAppend(a: seq<Edge>, b: seq<Edge>, u: string, k: string)
    ensures HasPeer(a + b, u, k) <==> HasPeer(a, u, k) || HasPeer(b, u, k)
  {
    assert forall e :: e in a + b <==> e in a || e in b;
  }

  lemma {:induction false} MissedPeers(ws: seq<Writer>, k: string, x: u64, u: string, j: string)
    ensures HasPeer(MissedEdges(ws, k, x), u, j) <==> j == k && Overtaken(ws, u, x)
  {
    if ws != [] {
      var w, before := ws[|ws| - 1], ws[..|ws| - 1];
      MissedPeers(before, k, x, u, j);
      var more := if w.committed && w.version > x then [Edge(w.txn, k, PeerWrote, w.version)] else [];
      PeerAppend(MissedEdges(before, k, x), more, u, j);
      assert ws == before + [w];
      assert more != [] ==> more[0] in more;
    }
  }

  lemma {:induction false} ReaderPeers(readers: seq<string>, t: string, k: string, v: u64, u: string, j: string)
    ensures HasPeer(ReaderEdges(readers, t, k, v), u, j) <==> j == k && u != t && u in readers
  {
    if readers != [] {
      var r, before := readers[|readers| - 1], readers[..|readers| - 1];
      ReaderPeers(before, t, k, v, u, j);
      var more := if r == t then [] else [Edge(r, k, PeerRead, v)];
      PeerAppend(ReaderEdges(before, t, k, v), more, u, j);
      assert readers == before + [r];
      assert more != [] ==> more[0] in more;
    }
  }

  /** The mirror gives each listed reader the edge and touches nothing else. */
  lemma {:induction false} MirrorPeers(locks: map<string, Locks>, readers: seq<string>, t: string, e: Edge, r: string)
    requires r in locks
    ensures Mirror(locks, readers, t, e).Keys == locks.Keys
    ensures var l := Mirror(locks, readers, t, e)[r];
            && l.outs == locks[r].outs && l.writeLocks == locks[r].writeLocks
            && forall u, k :: HasPeer(l.ins, u, k) <==>
                 HasPeer(locks[r].ins, u, k) || (r != t && r in readers && u == e.peer && k == e.key)
  {
    if readers != [] {
      var last, before := readers[|readers| - 1], readers[..|readers| - 1];
      MirrorPeers(locks, before, t, e, r);
      var done := Mirror(locks, before, t, e);
      assert readers == before + [last];
      if last != t && last == r {
        forall u, k
          ensures HasPeer(done[r].ins + [e], u, k) <==> HasPeer(done[r].ins, u, k) || (u == e.peer && k == e.key)
        {
          PeerAppend(done[r].ins, [e], u, k);
          assert e in [e];
        }
      }
    }
  }

  lemma {:induction false} WithoutPeerPeers(es: seq<Edge>, t: string, u: string, k: string)
    ensures HasPeer(WithoutPeer(es, t), u, k) <==> u != t && HasPeer(es, u, k)
  {
    if es != [] {
      var e, before := es[|es| - 1], es[..|es| - 1];
      WithoutPeerPeers(before, t, u, k);
      var more := if e.peer == t then [] else [e];
      PeerAppend(WithoutPeer(before, t), more, u, k);
      assert es == before + [e];
      assert e in [e];
    }
  }

  lemma {:induction false} WithoutReaderHas(rs: seq<string>, t: string, u: string)
    ensures u in WithoutReader(rs, t) <==> u != t && u in rs
  {
    if rs != [] {
      WithoutReaderHas(rs[..|rs| - 1], t, u);
      assert rs == rs[..|rs| - 1] + [rs[|rs| - 1]];
    }
  }

  lemma {:induction false} WithoutWriterHas(ws: seq<Writer>, t: string, w: Writer)
    ensures w in WithoutWriter(ws, t) <==> w.txn != t && w in ws
  {
    if ws != [] {
      WithoutWriterHas(ws[..|ws| - 1], t, w);
      assert ws == ws[..|ws| - 1] + [ws[|ws| - 1]];
    }
  }

  // ---------- Each call keeps the agreement ----------

  /** Beginning and committing add no read or write. */
  lemma QuietEdges(h: History, e: Event, u: string, l: Locks, l': Locks)
    requires (e.Began? || e.DidCommit?) && EdgesAgree(h, u, l)
    requires l'.ins == l.ins && l'.outs == l.outs && l'.writeLocks == l.writeLocks
    ensures EdgesAgree(h + [e], u, l')
  {
    Unfold(h, e);
    hide BeganIn, AbortedIn, CommittedIn, HasRead, HasWritten, CommittedAbove, ReadThenWrite, ReadBehindCommit;
  }

  lemma NewEdges(h: History, t: string, s: u64)
    requires Valid(h) && !BeganIn(h, t)
    ensures EdgesAgree(h, t, Locks([], [], [], [], s, Running))
  {
    forall v, k
      ensures !OutPeer(h, t, v, k) && !InPeer(h, t, v, k) && !HasWritten(h, t, k)
    {
      ActsAreBegun(h, t, k);
      PairsAreActs(h, v, t, k);
      PairsAreActs(h, t, v, k);
    }
  }

  lemma BeginAgrees(h: History, m: LockState, t: string, s: u64)
    requires Valid(h) && Agrees(h, m) && !BeganIn(h, t)
    ensures Agrees(h + [Began(t, s)], Begin(m, t, s))
  {
    var h', m' := h + [Began(t, s)], Begin(m, t, s);
    Unfold(h, Began(t, s));
    ActsAreBegun(h, t, "");
    NewEdges(h, t, s);
    hide BeganIn, AbortedIn, CommittedIn, HasRead, HasWritten, CommittedAbove, ReadThenWrite, ReadBehindCommit;
    forall u | u in m'.byTxn
      ensures EdgesAgree(h', u, m'.byTxn[u])
    {
      QuietEdges(h, Began(t, s), u, m'.byTxn[u], m'.byTxn[u]);
    }
    forall k, w | w in Lookup(m.writersOf, k)
      ensures WriterOk(h', w, k)
    {
      assert WriterOk(h, w, k);
    }
  }

  lemma ReadEdges(h: History, m: LockState, t: string, k: string, x: u64, u: string)
    requires Valid(h) && Agrees(h, m) && Known(h, t) && !CommittedIn(h, t) && u in m.byTxn
    ensures u in AddRead(m, t, k, x).byTxn && EdgesAgree(h + [DidRead(t, k, x)], u, AddRead(m, t, k, x).byTxn[u])
  {
    var h', m' := h + [DidRead(t, k, x)], AddRead(m, t, k, x);
    Unfold(h, DidRead(t, k, x));
    hide BeganIn, AbortedIn, CommittedIn, HasRead, HasWritten, CommittedAbove, ReadThenWrite, ReadBehindCommit;
    var ws := Lookup(m.writersOf, k);
    assert EdgesAgree(h, u, m.byTxn[u]);
    if u == t {
      forall v, j
        ensures HasPeer(m'.byTxn[t].ins, v, j) <==> InPeer(h', t, v, j)
      {
        MissedPeers(ws, k, x, v, j);
        PeerAppend(m.byTxn[t].ins, MissedEdges(ws, k, x), v, j);
        OvertakenMeans(h, m, k, v, x);
      }
    }
  }

  lemma ReadAgrees(h: History, m: LockState, t: string, k: string, x: u64)
    requires Valid(h) && Agrees(h, m) && Known(h, t) && !CommittedIn(h, t)
    ensures Agrees(h + [DidRead(t, k, x)], AddRead(m, t, k, x))
  {
    var h', m' := h + [DidRead(t, k, x)], AddRead(m, t, k, x);
    Unfold(h, DidRead(t, k, x));
    hide BeganIn, AbortedIn, CommittedIn, HasRead, HasWritten, CommittedAbove, ReadThenWrite, ReadBehindCommit;
    forall u | u in m'.byTxn
      ensures EdgesAgree(h', u, m'.byTxn[u])
    {
      ReadEdges(h, m, t, k, x, u);
    }
    forall j, w | w in Lookup(m.writersOf, j)
      ensures WriterOk(h', w, j)
    {
      assert WriterOk(h, w, j);
    }
  }

  lemma OvertakenMeans(h: History, m: LockState, k: string, u: string, x: u64)
    requires WritersAgree(h, m.writersOf)
    ensures Overtaken(Lookup(m.writersOf, k), u, x) <==> HasWritten(h, u, k) && !AbortedIn(h, u) && CommittedAbove(h, u, x)
  {
    var ws := Lookup(m.writersOf, k);
    AboveIsCommitted(h, u, x);
    if Overtaken(ws, u, x) {
      var w :| w in ws && w.txn == u && w.committed && w.version > x;
      assert WriterOk(h, w, k);
    } else if HasWritten(h, u, k) && !AbortedIn(h, u) {
      assert ListsWriter(ws, u);
      var w :| w in ws && w.txn == u;
      assert WriterOk(h, w, k);
    }
  }

  lemma WriteAgrees(h: History, m: LockState, t: string, k: string, v: u64)
    requires Valid(h) && Agrees(h, m) && Known(h, t) && !CommittedIn(h, t)
    ensures Agrees(h + [DidWrite(t, k, v)], AddWrite(m, t, k, v))
  {
    var h', m' := h + [DidWrite(t, k, v)], AddWrite(m, t, k, v);
    Unfold(h, DidWrite(t, k, v));
    hide BeganIn, AbortedIn, CommittedIn, HasRead, HasWritten, CommittedAbove, ReadThenWrite, ReadBehindCommit;
    forall u | u in m.byTxn
      ensures u in m'.byTxn && EdgesAgree(h', u, m'.byTxn[u])
    {
      WriteEdges(h, m, t, k, v, u);
    }
    var readers := Lookup(m.readersOf, k);
    var mine := m.byTxn[t := WriteMark(m.byTxn[t], k, v, ReaderEdges(readers, t, k, v))];
    MirrorPeers(mine, readers, t, Edge(t, k, PeerWrote, v), t);
    assert m'.byTxn.Keys == m.byTxn.Keys;
    WriteWriters(h, m, t, k, v);
  }

  lemma WriteEdges(h: History, m: LockState, t: string, k: string, v: u64, u: string)
    requires Valid(h) && Agrees(h, m) && Known(h, t) && u in m.byTxn
    ensures u in AddWrite(m, t, k, v).byTxn
    ensures EdgesAgree(h + [DidWrite(t, k, v)], u, AddWrite(m, t, k, v).byTxn[u])
  {
    var h' := h + [DidWrite(t, k, v)];
    Unfold(h, DidWrite(t, k, v));
    hide BeganIn, AbortedIn, CommittedIn, HasRead, HasWritten, CommittedAbove, ReadThenWrite, ReadBehindCommit;
    assert EdgesAgree(h, u, m.byTxn[u]);
    var readers := Lookup(m.readersOf, k);
    var outs := ReaderEdges(readers, t, k, v);
    var mine := m.byTxn[t := WriteMark(m.byTxn[t], k, v, outs)];
    MirrorPeers(mine, readers, t, Edge(t, k, PeerWrote, v), u);
    if u == t {
      OwnWrite(h, m, t, k, v);
    }
  }

  /** The writer's own out-edges and write locks. */
  lemma OwnWrite(h: History, m: LockState, t: string, k: string, v: u64)
    requires Valid(h) && Agrees(h, m) && t in m.byTxn
    ensures var l, h' := WriteMark(m.byTxn[t], k, v, ReaderEdges(Lookup(m.readersOf, k), t, k, v)), h + [DidWrite(t, k, v)];
            && (forall p, j :: HasPeer(l.outs, p, j) <==> OutPeer(h', t, p, j))
            && (forall j :: Wrote(l, j) <==> HasWritten(h', t, j))
  {
    var readers, h' := Lookup(m.readersOf, k), h + [DidWrite(t, k, v)];
    var outs := ReaderEdges(readers, t, k, v);
    var l := WriteMark(m.byTxn[t], k, v, outs);
    Unfold(h, DidWrite(t, k, v));
    hide BeganIn, AbortedIn, CommittedIn, HasRead, HasWritten, CommittedAbove, ReadThenWrite, ReadBehindCommit;
    assert EdgesAgree(h, t, m.byTxn[t]);
    forall p, j
      ensures HasPeer(l.outs, p, j) <==> OutPeer(h', t, p, j)
    {
      ReaderPeers(readers, t, k, v, p, j);
      PeerAppend(m.byTxn[t].outs, outs, p, j);
    }
    forall j
      ensures Wrote(l, j) <==> HasWritten(h', t, j)
    {
      WroteMore(m.byTxn[t], k, v, outs, j);
    }
  }

  lemma WroteMore(l: Locks, k: string, v: u64, outs: seq<Edge>, j: string)
    ensures Wrote(WriteMark(l, k, v, outs), j) <==> Wrote(l, j) || j == k
  {
    var w := WriteLock(k, v);
    assert w in l.writeLocks + [w];
    assert forall x :: x in l.writeLocks + [w] <==> x in l.writeLocks || x == w;
  }

  lemma WriteWriters(h: History, m: LockState, t: string, k: string, v: u64)
    requires Agrees(h, m) && Known(h, t) && !CommittedIn(h, t)
    ensures WritersAgree(h + [DidWrite(t, k, v)], AddWrite(m, t, k, v).writersOf)
  {
    var h', wo := h + [DidWrite(t, k, v)], AddWrite(m, t, k, v).writersOf;
    Unfold(h, DidWrite(t, k, v));
    hide BeganIn, AbortedIn, CommittedIn, HasRead, HasWritten, CommittedAbove, ReadThenWrite, ReadBehindCommit;
    var mine := Writer(t, 0, false);
    assert forall w :: w in Lookup(m.writersOf, k) + [mine] <==> w in Lookup(m.writersOf, k) || w == mine;
    forall j, w | w in Lookup(wo, j)
      ensures WriterOk(h', w, j)
    {
      if j == k && w == mine {
      } else {
        assert WriterOk(h, w, j);
      }
    }
    forall j, u | HasWritten(h', u, j) && !AbortedIn(h', u)
      ensures ListsWriter(Lookup(wo, j), u)
    {
      if j == k && u == t {
        assert mine in Lookup(wo, k);
      } else {
        assert ListsWriter(Lookup(m.writersOf, j), u);
      }
    }
  }

  // ---------- Commit ----------

  /** The mirror pass finds every in-edge it would add already there. */
  lemma {:induction false} MirrorIsIdle(locks: map<string, Locks>, outs: seq<Edge>, t: string, v: u64)
    requires forall e :: e in outs && e.peer in locks ==> HasPeer(locks[e.peer].ins, t, e.key)
    ensures MirrorCommit(locks, ReadPairs(outs), t, v) == locks
  {
    if outs != [] {
      var e, before := outs[|outs| - 1], outs[..|outs| - 1];
      MirrorIsIdle(locks, before, t, v);
      if e.action == PeerRead {
        assert ReadPairs(outs)[..|ReadPairs(before)|] == ReadPairs(before);
      } else {
        assert ReadPairs(outs) == ReadPairs(before);
      }
    }
  }

  lemma OutsAreMirrored(h: History, m: LockState, t: string, e: Edge)
    requires Valid(h) && Agrees(h, m) && t in m.byTxn && e in m.byTxn[t].outs && e.peer in m.byTxn
    ensures HasPeer(m.byTxn[e.peer].ins, t, e.key)
  {
    assert EdgesAgree(h, t, m.byTxn[t]) && EdgesAgree(h, e.peer, m.byTxn[e.peer]);
    assert HasPeer(m.byTxn[t].outs, e.peer, e.key);
    assert OutPeer(h, t, e.peer, e.key);
  }

  lemma {:induction false} StampAllAt(wo: map<string, seq<Writer>>, keys: seq<string>, t: string, v: u64, k: string)
    ensures StampAll(wo, keys, t, v).Keys == wo.Keys
    ensures Lookup(StampAll(wo, keys, t, v), k) == if k in keys then Stamp(Lookup(wo, k), t, v) else Lookup(wo, k)
  {
    if keys != [] {
      var last, before := keys[|keys| - 1], keys[..|keys| - 1];
      StampAllAt(wo, before, t, v, k);
      assert keys == before + [last];
      assert Stamp(Stamp(Lookup(wo, k), t, v), t, v) == Stamp(Lookup(wo, k), t, v);
    }
  }

  lemma CommitWriters(h: History, m: LockState, t: string, v: u64)
    requires Valid(h) && Agrees(h, m) && Known(h, t) && !CommittedIn(h, t)
    ensures WritersAgree(h + [DidCommit(t, v)], Commit(m, t, v).writersOf)
  {
    var h', wo := h + [DidCommit(t, v)], Commit(m, t, v).writersOf;
    Unfold(h, DidCommit(t, v));
    hide BeganIn, AbortedIn, CommittedIn, HasRead, HasWritten, CommittedAbove, ReadThenWrite, ReadBehindCommit;
    var keys := KeysOf(m.byTxn[t].writeLocks);
    forall k
      ensures forall w :: w in Lookup(wo, k) ==> WriterOk(h', w, k)
      ensures forall u :: HasWritten(h', u, k) && !AbortedIn(h', u) ==> ListsWriter(Lookup(wo, k), u)
    {
      CommitWritersAt(h, m, t, v, k);
    }
  }

  lemma CommitWritersAt(h: History, m: LockState, t: string, v: u64, k: string)
    requires Valid(h) && Agrees(h, m) && Known(h, t) && !CommittedIn(h, t)
    ensures forall w :: w in Lookup(Commit(m, t, v).writersOf, k) ==> WriterOk(h + [DidCommit(t, v)], w, k)
    ensures forall u :: HasWritten(h, u, k) && !AbortedIn(h, u) ==> ListsWriter(Lookup(Commit(m, t, v).writersOf, k), u)
  {
    var h', keys := h + [DidCommit(t, v)], KeysOf(m.byTxn[t].writeLocks);
    Unfold(h, DidCommit(t, v));
    hide BeganIn, AbortedIn, CommittedIn, HasRead, HasWritten, CommittedAbove, ReadThenWrite, ReadBehindCommit;
    var was, now := Lookup(m.writersOf, k), Lookup(Commit(m, t, v).writersOf, k);
    StampAllAt(m.writersOf, keys, t, v, k);
    KeysAreWritten(h, m, t, k);
    forall w | w in now
      ensures WriterOk(h', w, k)
    {
      var i :| 0 <= i < |now| && now[i] == w;
      assert was[i] in was && WriterOk(h, was[i], k);
      forall x: u64
        ensures w.txn == t ==> (CommittedAbove(h', t, x) <==> v > x)
      {
        AboveIsCommitted(h, t, x);
      }
    }
    forall u | HasWritten(h, u, k) && !AbortedIn(h, u)
      ensures ListsWriter(now, u)
    {
      assert ListsWriter(was, u);
      var w :| w in was && w.txn == u;
      var i :| 0 <= i < |was| && was[i] == w;
      assert now[i] in now && now[i].txn == u;
    }
  }

  lemma KeysAreWritten(h: History, m: LockState, t: string, k: string)
    requires Agrees(h, m) && t in m.byTxn
    ensures k in KeysOf(m.byTxn[t].writeLocks) <==> HasWritten(h, t, k)
  {
    var ws := m.byTxn[t].writeLocks;
    assert EdgesAgree(h, t, m.byTxn[t]);
    assert Wrote(m.byTxn[t], k) <==> HasWritten(h, t, k);
    if k in KeysOf(ws) {
      var i :| 0 <= i < |ws| && KeysOf(ws)[i] == k;
      assert ws[i] in ws;
    }
    if Wrote(m.byTxn[t], k) {
      var w :| w in ws && w.key == k;
      var i :| 0 <= i < |ws| && ws[i] == w;
      assert KeysOf(ws)[i] == k;
    }
  }

  lemma CommitAgrees(h: History, m: LockState, t: string, v: u64)
    requires Valid(h) && Agrees(h, m) && Known(h, t) && !CommittedIn(h, t)
    ensures Agrees(h + [DidCommit(t, v)], Commit(m, t, v))
    ensures Commit(m, t, v).byTxn == m.byTxn[t := m.byTxn[t].(phase := Done)]
  {
    var h', m' := h + [DidCommit(t, v)], Commit(m, t, v);
    Unfold(h, DidCommit(t, v));
    hide BeganIn, AbortedIn, CommittedIn, HasRead, HasWritten, CommittedAbove, ReadThenWrite, ReadBehindCommit, EdgesAgree, WritersAgree;
    var marked := m.byTxn[t := m.byTxn[t].(phase := Done)];
    forall e | e in m.byTxn[t].outs && e.peer in marked
      ensures HasPeer(marked[e.peer].ins, t, e.key)
    {
      OutsAreMirrored(h, m, t, e);
    }
    MirrorIsIdle(marked, m.byTxn[t].outs, t, v);
    CommitWriters(h, m, t, v);
    forall u | u in m'.byTxn
      ensures EdgesAgree(h', u, m'.byTxn[u])
    {
      QuietEdges(h, DidCommit(t, v), u, m.byTxn[u], m'.byTxn[u]);
    }
  }

  // ---------- Abort ----------

  lemma AbortAgrees(h: History, m: LockState, t: string)
    requires Valid(h) && Agrees(h, m) && Known(h, t) && !CommittedIn(h, t)
    ensures Agrees(h + [DidAbort(t)], Abort(m, t))
  {
    var h', m' := h + [DidAbort(t)], Abort(m, t);
    Unfold(h, DidAbort(t));
    hide BeganIn, AbortedIn, CommittedIn, HasRead, HasWritten, CommittedAbove, ReadThenWrite, ReadBehindCommit;
    forall u | u in m'.byTxn
      ensures EdgesAgree(h', u, m'.byTxn[u])
    {
      assert EdgesAgree(h, u, m.byTxn[u]);
      forall p, k
        ensures HasPeer(m'.byTxn[u].outs, p, k) <==> OutPeer(h', u, p, k)
        ensures HasPeer(m'.byTxn[u].ins, p, k) <==> InPeer(h', u, p, k)
      {
        WithoutPeerPeers(m.byTxn[u].outs, t, p, k);
        WithoutPeerPeers(m.byTxn[u].ins, t, p, k);
      }
    }
    forall k, u
      ensures u in Lookup(m'.readersOf, k) <==> HasRead(h', u, k) && !AbortedIn(h', u)
    {
      WithoutReaderHas(Lookup(m.readersOf, k), t, u);
    }
    AbortWriters(h, m, t);
  }

  lemma AbortWriters(h: History, m: LockState, t: string)
    requires Agrees(h, m)
    ensures WritersAgree(h + [DidAbort(t)], Abort(m, t).writersOf)
  {
    var h', wo := h + [DidAbort(t)], Abort(m, t).writersOf;
    Unfold(h, DidAbort(t));
    hide BeganIn, AbortedIn, CommittedIn, HasRead, HasWritten, CommittedAbove, ReadThenWrite, ReadBehindCommit;
    forall k, w | w in Lookup(wo, k)
      ensures WriterOk(h', w, k)
    {
      WithoutWriterHas(Lookup(m.writersOf, k), t, w);
      assert WriterOk(h, w, k);
    }
    forall k, u | HasWritten(h', u, k) && !AbortedIn(h', u)
      ensures ListsWriter(Lookup(wo, k), u)
    {
      assert ListsWriter(Lookup(m.writersOf, k), u);
      var w :| w in Lookup(m.writersOf, k) && w.txn == u;
      WithoutWriterHas(Lookup(m.writersOf, k), t, w);
    }
  }

  // ---------- The edges are the history ----------

  lemma {:induction false} PlayAgrees(h: History)
    requires Valid(h)
    ensures Agrees(h, Play(h))
  {
    if h != [] {
      var before, e := h[..|h| - 1], h[|h| - 1];
      PlayAgrees(before);
      assert h == before + [e];
      var m := Play(before);
      match e
      case Began(t, s) => BeginAgrees(before, m, t, s);
      case DidRead(t, k, x) => ReadAgrees(before, m, t, k, x);
      case DidWrite(t, k, v) => WriteAgrees(before, m, t, k, v);
      case DidCommit(t, v) => CommitAgrees(before, m, t, v);
      case DidAbort(t) => AbortAgrees(before, m, t);
    }
  }

  lemma {:induction false} AbortedMeans(h: History, t: string)
    ensures AbortedIn(h, t) <==> DidAbort(t) in h
  {
    if h != [] {
      AbortedMeans(h[..|h| - 1], t);
      assert h == h[..|h| - 1] + [h[|h| - 1]];
    }
  }

  ghost predicate ReadAt(h: History, i: int, t: string, k: string) {
    0 <= i < |h| && Reads(h[i], t, k)
  }

  ghost predicate WriteAt(h: History, i: int, t: string, k: string) {
    0 <= i < |h| && Writes(h[i], t, k)
  }

  ghost predicate CommitAt(h: History, i: int, t: string, x: u64) {
    0 <= i < |h| && h[i].DidCommit? && h[i].t == t && h[i].v > x
  }

  lemma {:induction false} HasReadMeans(h: History, t: string, k: string)
    ensures HasRead(h, t, k) <==> exists i :: ReadAt(h, i, t, k)
  {
    if h != [] {
      var before := h[..|h| - 1];
      HasReadMeans(before, t, k);
      assert forall i :: ReadAt(before, i, t, k) ==> ReadAt(h, i, t, k);
      assert forall i :: ReadAt(h, i, t, k) && i < |before| ==> ReadAt(before, i, t, k);
      assert ReadAt(h, |h| - 1, t, k) <==> Reads(h[|h| - 1], t, k);
    }
  }

  lemma {:induction false} HasWrittenMeans(h: History, t: string, k: string)
    ensures HasWritten(h, t, k) <==> exists i :: WriteAt(h, i, t, k)
  {
    if h != [] {
      var before := h[..|h| - 1];
      HasWrittenMeans(before, t, k);
      assert forall i :: WriteAt(before, i, t, k) ==> WriteAt(h, i, t, k);
      assert forall i :: WriteAt(h, i, t, k) && i < |before| ==> WriteAt(before, i, t, k);
      assert WriteAt(h, |h| - 1, t, k) <==> Writes(h[|h| - 1], t, k);
    }
  }

  lemma {:induction false} CommittedAboveMeans(h: History, t: string, x: u64)
    ensures CommittedAbove(h, t, x) <==> exists i :: CommitAt(h, i, t, x)
  {
    if h != [] {
      var before := h[..|h| - 1];
      CommittedAboveMeans(before, t, x);
      assert forall i :: CommitAt(before, i, t, x) ==> CommitAt(h, i, t, x);
      assert forall i :: CommitAt(h, i, t, x) && i < |before| ==> CommitAt(before, i, t, x);
      assert CommitAt(h, |h| - 1, t, x) <==> h[|h| - 1].DidCommit? && h[|h| - 1].t == t && h[|h| - 1].v > x;
    }
  }

  /** A read of `k` by `r`, and later a write of `k` by `w`. */
  ghost predicate Antidependency(h: History, r: string, w: string, k: string) {
    exists i, j :: ReadAt(h, i, r, k) && WriteAt(h, j, w, k) && i < j
  }

  /** A write of `k` by `w` and a commit of `w`, and later a read of `k` by `r` that observed an older version. */
  ghost predicate StaleRead(h: History, r: string, w: string, k: string) {
    exists i, c, j :: ReadAt(h, j, r, k) && WriteAt(h, i, w, k) && CommitAt(h, c, w, h[j].observed) && i < j && c < j
  }

  lemma {:induction false} ReadThenWriteMeans(h: History, r: string, w: string, k: string)
    ensures ReadThenWrite(h, r, w, k) <==> Antidependency(h, r, w, k)
  {
    if h != [] {
      var before, n := h[..|h| - 1], |h| - 1;
      ReadThenWriteMeans(before, r, w, k);
      HasReadMeans(before, r, k);
      assert forall i :: i < n ==> (ReadAt(h, i, r, k) <==> ReadAt(before, i, r, k));
      assert forall j :: j < n ==> (WriteAt(h, j, w, k) <==> WriteAt(before, j, w, k));
      if Antidependency(before, r, w, k) {
        var i, j :| ReadAt(before, i, r, k) && WriteAt(before, j, w, k) && i < j;
        assert ReadAt(h, i, r, k) && WriteAt(h, j, w, k);
      }
      if Writes(h[n], w, k) && HasRead(before, r, k) {
        var i :| ReadAt(before, i, r, k);
        assert ReadAt(h, i, r, k) && WriteAt(h, n, w, k);
      }
      if Antidependency(h, r, w, k) {
        var i, j :| ReadAt(h, i, r, k) && WriteAt(h, j, w, k) && i < j;
        assert ReadAt(before, i, r, k);
        assert j < n ==> WriteAt(before, j, w, k);
      }
    }
  }

  lemma {:induction false} StaleReadMeans(h: History, r: string, w: string, k: string)
    ensures ReadBehindCommit(h, r, w, k) <==> StaleRead(h, r, w, k)
  {
    if h != [] {
      var before, n := h[..|h| - 1], |h| - 1;
      StaleReadMeans(before, r, w, k);
      HasWrittenMeans(before, w, k);
      if StaleRead(before, r, w, k) {
        var i, c, j :| ReadAt(before, j, r, k) && WriteAt(before, i, w, k) && CommitAt(before, c, w, before[j].observed) && i < j && c < j;
        assert ReadAt(h, j, r, k) && WriteAt(h, i, w, k) && CommitAt(h, c, w, h[j].observed);
      }
      if Reads(h[n], r, k) {
        CommittedAboveMeans(before, w, h[n].observed);
        if HasWritten(before, w, k) && CommittedAbove(before, w, h[n].observed) {
          var i :| WriteAt(before, i, w, k);
          var c :| CommitAt(before, c, w, h[n].observed);
          assert ReadAt(h, n, r, k) && WriteAt(h, i, w, k) && CommitAt(h, c, w, h[n].observed);
        }
      }
      if StaleRead(h, r, w, k) {
        var i, c, j :| ReadAt(h, j, r, k) && WriteAt(h, i, w, k) && CommitAt(h, c, w, h[j].observed) && i < j && c < j;
        assert WriteAt(before, i, w, k) && CommitAt(before, c, w, h[j].observed);
        assert j < n ==> ReadAt(before, j, r, k);
      }
    }
  }

  /**
   After any valid history, the edges of a transaction still known to the manager: its out-peers on a key are
   the non-aborted others whose read came before a write of its own, and its in-peers the non-aborted others
   that wrote the key after it read, or had committed the key above the version it observed.
   */
  lemma EdgesAreHistory(h: History, t: string, u: string, k: string)
    requires Valid(h) && t in Play(h).byTxn
    ensures HasPeer(Play(h).byTxn[t].outs, u, k) <==> u != t && DidAbort(u) !in h && Antidependency(h, u, t, k)
    ensures HasPeer(Play(h).byTxn[t].ins, u, k) <==>
              u != t && DidAbort(u) !in h && (Antidependency(h, t, u, k) || StaleRead(h, t, u, k))
  {
    PlayAgrees(h);
    assert EdgesAgree(h, t, Play(h).byTxn[t]);
    AbortedMeans(h, u);
    ReadThenWriteMeans(h, u, t, k);
    ReadThenWriteMeans(h, t, u, k);
    StaleReadMeans(h, t, u, k);
  }

  /** Committing changes no edge: whatever the mirror pass would add is already there. */
  lemma MirrorPassAddsNothing(h: History, t: string, v: u64)
    requires Valid(h + [DidCommit(t, v)])
    ensures t in Play(h).byTxn
    ensures Commit(Play(h), t, v).byTxn == Play(h).byTxn[t := Play(h).byTxn[t].(phase := Done)]
  {
    assert (h + [DidCommit(t, v)])[..|h|] == h;
    PlayAgrees(h);
    CommitAgrees(h, Play(h), t, v);
  }

  lemma SharedMeans(h: History, l: Locks, t: string, u: string)
    requires EdgesAgree(h, t, l)
    ensures Shared(l, u) <==> (exists k :: OutPeer(h, t, u, k)) && (exists j :: InPeer(h, t, u, j))
  {
    if exists e :: e in l.outs && e.peer == u {
      var e :| e in l.outs && e.peer == u;
      assert HasPeer(l.outs, u, e.key);
    }
    if exists e :: e in l.ins && e.peer == u {
      var e :| e in l.ins && e.peer == u;
      assert HasPeer(l.ins, u, e.key);
    }
    if k :| OutPeer(h, t, u, k) {
      assert HasPeer(l.outs, u, k);
    }
    if k :| InPeer(h, t, u, k) {
      assert HasPeer(l.ins, u, k);
    }
  }

  /** Two active transactions are dangerous to each other or neither is to the other. */
  lemma DetectionIsSymmetric(h: History, t: string, u: string)
    requires Valid(h) && t != u && t in Play(h).byTxn && u in Play(h).byTxn
    requires !CommittedIn(h, t) && !CommittedIn(h, u)
    ensures Shared(Play(h).byTxn[t], u) <==> Shared(Play(h).byTxn[u], t)
  {
    PlayAgrees(h);
    SharedMeans(h, Play(h).byTxn[t], t, u);
    SharedMeans(h, Play(h).byTxn[u], u, t);
    forall k
      ensures OutPeer(h, t, u, k) <==> InPeer(h, u, t, k)
      ensures OutPeer(h, u, t, k) <==> InPeer(h, t, u, k)
    {
      PairsAreActs(h, t, u, k);
      PairsAreActs(h, u, t, k);
    }
  }

  // ---------- Write skew ----------

  /** The coordinator's calls to the manager and its cycle checks that passed. */
  datatype Act = Call(e: Event) | CheckPassed(t: string)

  function Calls(run: seq<Act>): History {
    if run == [] then []
    else Calls(run[..|run| - 1]) + if run[|run| - 1].Call? then [run[|run| - 1].e] else []
  }

  predicate CheckedIn(run: seq<Act>, t: string) {
    run != [] && (CheckedIn(run[..|run| - 1], t) || run[|run| - 1] == CheckPassed(t))
  }

  /**
   Reads and stages come before the transaction is claimed for commit, a commit comes after its check, and a
   check passes only when no dangerous structure is found. Everything else may interleave in any way.
   */
  ghost predicate Protocol(run: seq<Act>)
  {
    run == [] ||
    (&& Protocol(run[..|run| - 1])
     && var before := run[..|run| - 1];
        match run[|run| - 1]
        case Call(e) =>
          && Valid(Calls(before) + [e])
          && (e.DidRead? || e.DidWrite? ==> !CheckedIn(before, e.t))
          && (e.DidCommit? ==> CheckedIn(before, e.t))
        case CheckPassed(t) => t in Play(Calls(before)).byTxn && !Dangerous(Play(Calls(before)), t))
  }

  /** The manager has an edge for what `r` missed of `w`: the read came before the write, or after the commit. */
  predicate SeenBy(h: History, r: string, w: string, k: string) {
    ReadThenWrite(h, r, w, k) || ReadBehindCommit(h, r, w, k)
  }

  lemma {:induction false} CallsAreValid(run: seq<Act>)
    requires Protocol(run)
    ensures Valid(Calls(run))
  {
    if run != [] {
      CallsAreValid(run[..|run| - 1]);
      if run[|run| - 1].CheckPassed? {
        assert Calls(run) == Calls(run[..|run| - 1]);
      }
    }
  }

  /** Some other transaction read before this one's write, and this one missed a write of it in a way the manager sees. */
  ghost predicate InDanger(h: History, t: string) {
    exists u, k, j :: u != t && !AbortedIn(h, u) && ReadThenWrite(h, u, t, k) && SeenBy(h, t, u, j)
  }

  lemma DangerMeans(h: History, t: string)
    requires Valid(h)
    ensures t in Play(h).byTxn <==> Known(h, t)
    ensures Known(h, t) ==> (Dangerous(Play(h), t) <==> InDanger(h, t))
  {
    PlayAgrees(h);
    if Known(h, t) {
      var l := Play(h).byTxn[t];
      assert EdgesAgree(h, t, l);
      if Dangerous(Play(h), t) {
        var u :| u != t && Shared(l, u);
        SharedMeans(h, l, t, u);
        var k :| OutPeer(h, t, u, k);
        var j :| InPeer(h, t, u, j);
        assert ReadThenWrite(h, u, t, k) && SeenBy(h, t, u, j);
      }
      if InDanger(h, t) {
        var u, k, j :| u != t && !AbortedIn(h, u) && ReadThenWrite(h, u, t, k) && SeenBy(h, t, u, j);
        assert OutPeer(h, t, u, k) && InPeer(h, t, u, j);
        SharedMeans(h, l, t, u);
      }
    }
  }

  /** Somebody not aborted read a key before this one wrote it, and this one did so to them or read behind their commit. */
  ghost predicate BothSides(h: History, t: string, u: string, k: string, j: string) {
    && u != t && DidAbort(u) !in h && Antidependency(h, u, t, k)
    && (Antidependency(h, t, u, j) || StaleRead(h, t, u, j))
  }

  /** The check refuses a transaction if and only if the order of the events says so. */
  lemma DangerIsHistory(h: History, t: string)
    requires Valid(h) && t in Play(h).byTxn
    ensures Dangerous(Play(h), t) <==> exists u, k, j :: BothSides(h, t, u, k, j)
  {
    DangerMeans(h, t);
    hide Dangerous, Play, Valid, ReadThenWrite, ReadBehindCommit, AbortedIn, Antidependency, StaleRead;
    if InDanger(h, t) {
      var u, k, j :| u != t && !AbortedIn(h, u) && ReadThenWrite(h, u, t, k) && SeenBy(h, t, u, j);
      SidesMean(h, t, u, k, j);
      assert BothSides(h, t, u, k, j);
    }
    if u, k, j :| BothSides(h, t, u, k, j) {
      SidesMean(h, t, u, k, j);
      assert ReadThenWrite(h, u, t, k) && SeenBy(h, t, u, j);
    }
  }

  lemma SidesMean(h: History, t: string, u: string, k: string, j: string)
    ensures AbortedIn(h, u) <==> DidAbort(u) in h
    ensures ReadThenWrite(h, u, t, k) <==> Antidependency(h, u, t, k)
    ensures SeenBy(h, t, u, j) <==> Antidependency(h, t, u, j) || StaleRead(h, t, u, j)
  {
    AbortedMeans(h, u);
    ReadThenWriteMeans(h, u, t, k);
    ReadThenWriteMeans(h, t, u, j);
    StaleReadMeans(h, t, u, j);
  }

  /** Once both have passed their checks, neither reads nor writes any more, and the second check saw the pair. */
  lemma {:induction false} CheckedPairIsSafe(run: seq<Act>, t: string, u: string, x: string, y: string)
    requires Protocol(run) && t != u && CheckedIn(run, t) && CheckedIn(run, u)
    requires !AbortedIn(Calls(run), t) && !AbortedIn(Calls(run), u)
    ensures !(SeenBy(Calls(run), t, u, x) && SeenBy(Calls(run), u, t, y))
  {
    var before, a := run[..|run| - 1], run[|run| - 1];
    CallsAreValid(before);
    match a
    case Call(e) =>
      Unfold(Calls(before), e);
      CheckedPairIsSafe(before, t, u, x, y);
    case CheckPassed(v) =>
      assert Calls(run) == Calls(before);
      if CheckedIn(before, t) && CheckedIn(before, u) {
        CheckedPairIsSafe(before, t, u, x, y);
      } else if v == t {
        SecondCheckSees(before, t, u, x, y);
      } else {
        SecondCheckSees(before, u, t, y, x);
      }
  }

  lemma SecondCheckSees(run: seq<Act>, t: string, u: string, x: string, y: string)
    requires Protocol(run) && t != u && !CheckedIn(run, t) && t in Play(Calls(run)).byTxn && !Dangerous(Play(Calls(run)), t)
    requires !AbortedIn(Calls(run), u)
    ensures !(SeenBy(Calls(run), t, u, x) && SeenBy(Calls(run), u, t, y))
  {
    var h := Calls(run);
    CallsAreValid(run);
    DangerMeans(h, t);
    if ReadBehindCommit(h, u, t, y) {
      BehindIsCommitted(h, u, t, y);
      CommittedIsChecked(run, t);
    }
  }

  lemma {:induction false} BehindIsCommitted(h: History, r: string, w: string, k: string)
    requires ReadBehindCommit(h, r, w, k)
    ensures CommittedIn(h, w)
  {
    var before := h[..|h| - 1];
    if ReadBehindCommit(before, r, w, k) {
      BehindIsCommitted(before, r, w, k);
    } else {
      AboveIsCommitted(before, w, h[|h| - 1].observed);
    }
  }

  lemma {:induction false} CommittedIsChecked(run: seq<Act>, t: string)
    requires Protocol(run) && CommittedIn(Calls(run), t)
    ensures CheckedIn(run, t) && !AbortedIn(Calls(run), t)
  {
    var before, a := run[..|run| - 1], run[|run| - 1];
    CallsAreValid(before);
    match a
    case Call(e) =>
      Unfold(Calls(before), e);
      assert (Calls(before) + [e])[..|Calls(before)|] == Calls(before);
      if CommittedIn(Calls(before), t) {
        CommittedIsChecked(before, t);
      }
    case CheckPassed(_) =>
      assert Calls(run) == Calls(before);
      CommittedIsChecked(before, t);
  }

  /** `r` read `k` at a version below the one at which `w` committed its write of it. */
  ghost predicate Missed(h: History, r: string, w: string, k: string) {
    exists i, j, c :: ReadAt(h, i, r, k) && WriteAt(h, j, w, k) && CommitAt(h, c, w, h[i].observed)
  }

  /** Such a read between the write and the commit, of which the manager keeps no trace. */
  ghost predicate MissedBetween(h: History, r: string, w: string, k: string) {
    exists i, j, c :: ReadAt(h, i, r, k) && WriteAt(h, j, w, k) && CommitAt(h, c, w, h[i].observed) && j < i < c
  }

  lemma MissedSplits(h: History, r: string, w: string, k: string)
    requires Missed(h, r, w, k)
    ensures SeenBy(h, r, w, k) || MissedBetween(h, r, w, k)
  {
    ReadThenWriteMeans(h, r, w, k);
    StaleReadMeans(h, r, w, k);
    var i, j, c :| ReadAt(h, i, r, k) && WriteAt(h, j, w, k) && CommitAt(h, c, w, h[i].observed);
    assert i != j && i != c;
  }

  /**
   Of two committed transactions that each missed a write of the other, at least one read the key while the other
   had it staged and uncommitted. With the reads anywhere else they never both commit, in any interleaving.
   */
  lemma WriteSkewExcluded(run: seq<Act>, t: string, u: string, x: string, y: string)
    requires Protocol(run) && t != u && CommittedIn(Calls(run), t) && CommittedIn(Calls(run), u)
    ensures !(SeenBy(Calls(run), t, u, x) && SeenBy(Calls(run), u, t, y))
    ensures Missed(Calls(run), t, u, x) && Missed(Calls(run), u, t, y) ==>
              MissedBetween(Calls(run), t, u, x) || MissedBetween(Calls(run), u, t, y)
  {
    CommittedIsChecked(run, t);
    CommittedIsChecked(run, u);
    CheckedPairIsSafe(run, t, u, x, y);
    var h := Calls(run);
    if Missed(h, t, u, x) && Missed(h, u, t, y) {
      MissedSplits(h, t, u, x);
      MissedSplits(h, u, t, y);
    }
  }

  // ---------- Which pairs commit ----------

  /** Both checks and commits, one after the other. */
  function Commits(t: string, u: string, v: u64, w: u64): seq<Act> {
    [CheckPassed(t)] + [Call(DidCommit(t, v))] + [CheckPassed(u)] + [Call(DidCommit(u, w))]
  }

  lemma CheckStep(run: seq<Act>, t: string)
    requires Protocol(run)
    ensures var more := run + [CheckPassed(t)];
            && Calls(more) == Calls(run) && (forall u :: CheckedIn(more, u) <==> CheckedIn(run, u) || u == t)
            && (Protocol(more) <==> Known(Calls(run), t) && !InDanger(Calls(run), t))
  {
    CallsAreValid(run);
    DangerMeans(Calls(run), t);
    hide Play, Dangerous, InDanger, Valid, Known;
    var more := run + [CheckPassed(t)];
    assert more[..|run|] == run;
  }

  lemma CommitStep(run: seq<Act>, t: string, v: u64)
    requires Protocol(run) && Known(Calls(run), t) && !CommittedIn(Calls(run), t) && CheckedIn(run, t)
    ensures var more := run + [Call(DidCommit(t, v))];
            && Protocol(more) && Calls(more) == Calls(run) + [DidCommit(t, v)]
            && (forall u :: CheckedIn(more, u) <==> CheckedIn(run, u))
  {
    CallsAreValid(run);
    var more, h := run + [Call(DidCommit(t, v))], Calls(run);
    assert more[..|run|] == run;
    assert (h + [DidCommit(t, v)])[..|h|] == h;
    hide Play, Dangerous;
  }

  lemma CommitEndangersNobody(h: History, t: string, v: u64, u: string)
    ensures InDanger(h + [DidCommit(t, v)], u) <==> InDanger(h, u)
  {
    Unfold(h, DidCommit(t, v));
    hide ReadThenWrite, ReadBehindCommit, AbortedIn;
    var h' := h + [DidCommit(t, v)];
    if InDanger(h, u) {
      var z, k, j :| z != u && !AbortedIn(h, z) && ReadThenWrite(h, z, u, k) && SeenBy(h, u, z, j);
      assert !AbortedIn(h', z) && ReadThenWrite(h', z, u, k) && SeenBy(h', u, z, j);
    }
    if InDanger(h', u) {
      var z, k, j :| z != u && !AbortedIn(h', z) && ReadThenWrite(h', z, u, k) && SeenBy(h', u, z, j);
      assert !AbortedIn(h, z) && ReadThenWrite(h, z, u, k) && SeenBy(h, u, z, j);
    }
  }

  lemma {:induction false} ProtocolBefore(run: seq<Act>, more: seq<Act>)
    requires Protocol(run + more)
    ensures Protocol(run)
    decreases |more|
  {
    if more == [] {
      assert run + more == run;
    } else {
      assert (run + more)[..|run + more| - 1] == run + more[..|more| - 1];
      ProtocolBefore(run, more[..|more| - 1]);
    }
  }

  /** From any run, two known transactions can both go on to commit if and only if neither is in danger. */
  lemma PairCommits(run: seq<Act>, t: string, u: string, v: u64, w: u64)
    requires Protocol(run) && t != u && Known(Calls(run), t) && Known(Calls(run), u)
    requires !CommittedIn(Calls(run), t) && !CommittedIn(Calls(run), u)
    ensures Protocol(run + Commits(t, u, v, w)) <==> !InDanger(Calls(run), t) && !InDanger(Calls(run), u)
    ensures Calls(run + Commits(t, u, v, w)) == Calls(run) + [DidCommit(t, v)] + [DidCommit(u, w)]
  {
    var h, r1 := Calls(run), run + [CheckPassed(t)];
    var r2 := r1 + [Call(DidCommit(t, v))];
    var r3 := r2 + [CheckPassed(u)];
    var r4 := r3 + [Call(DidCommit(u, w))];
    assert run + Commits(t, u, v, w) == r4;
    assert r1 + ([Call(DidCommit(t, v))] + [CheckPassed(u)] + [Call(DidCommit(u, w))]) == r4;
    PairCalls(run, t, u, v, w);
    Unfold(h, DidCommit(t, v));
    CommitEndangersNobody(h, t, v, u);
    hide Protocol, InDanger, Calls, CheckedIn, BeganIn, AbortedIn, CommittedIn, ReadThenWrite, ReadBehindCommit;
    CheckStep(run, t);
    if Protocol(r4) {
      ProtocolBefore(r1, [Call(DidCommit(t, v))] + [CheckPassed(u)] + [Call(DidCommit(u, w))]);
      ProtocolBefore(r3, [Call(DidCommit(u, w))]);
    }
    if !InDanger(h, t) {
      CommitStep(r1, t, v);
      CheckStep(r2, u);
      if !InDanger(h, u) {
        CommitStep(r3, u, w);
      }
    }
  }

  lemma PairCalls(run: seq<Act>, t: string, u: string, v: u64, w: u64)
    ensures Calls(run + Commits(t, u, v, w)) == Calls(run) + [DidCommit(t, v)] + [DidCommit(u, w)]
  {
    var r1 := run + [CheckPassed(t)];
    var r2 := r1 + [Call(DidCommit(t, v))];
    var r3 := r2 + [CheckPassed(u)];
    var r4 := r3 + [Call(DidCommit(u, w))];
    assert run + Commits(t, u, v, w) == r4;
    assert r1[..|run|] == run && r2[..|r1|] == r1 && r3[..|r2|] == r2 && r4[..|r3|] == r3;
    assert Calls(r1) == Calls(run) && Calls(r3) == Calls(r2);
  }

  // ---------- Transactions never reported ----------

  /** The history without one transaction's events. */
  function Without(h: History, z: string): History {
    if h == [] then [] else Without(h[..|h| - 1], z) + if h[|h| - 1].t == z then [] else [h[|h| - 1]]
  }

  lemma {:induction false} WithoutMeans(h: History, z: string, t: string, k: string, x: u64)
    ensures BeganIn(Without(h, z), t) <==> t != z && BeganIn(h, t)
    ensures AbortedIn(Without(h, z), t) <==> t != z && AbortedIn(h, t)
    ensures CommittedIn(Without(h, z), t) <==> t != z && CommittedIn(h, t)
    ensures HasRead(Without(h, z), t, k) <==> t != z && HasRead(h, t, k)
    ensures HasWritten(Without(h, z), t, k) <==> t != z && HasWritten(h, t, k)
    ensures CommittedAbove(Without(h, z), t, x) <==> t != z && CommittedAbove(h, t, x)
  {
    if h != [] {
      var e, before := h[|h| - 1], h[..|h| - 1];
      WithoutMeans(before, z, t, k, x);
      Unfold(before, e);
      Unfold(Without(before, z), e);
      assert h == before + [e];
      assert Without(h, z) == if e.t == z then Without(before, z) else Without(before, z) + [e];
    }
  }

  lemma {:induction false} WithoutPairs(h: History, z: string, r: string, w: string, k: string)
    ensures ReadThenWrite(Without(h, z), r, w, k) <==> r != z && w != z && ReadThenWrite(h, r, w, k)
    ensures ReadBehindCommit(Without(h, z), r, w, k) <==> r != z && w != z && ReadBehindCommit(h, r, w, k)
  {
    if h != [] {
      var e, before := h[|h| - 1], h[..|h| - 1];
      WithoutPairs(before, z, r, w, k);
      WithoutMeans(before, z, r, k, 0);
      WithoutMeans(before, z, w, k, if e.DidRead? then e.observed else 0);
      Unfold(before, e);
      Unfold(Without(before, z), e);
      assert h == before + [e];
      assert Without(h, z) == if e.t == z then Without(before, z) else Without(before, z) + [e];
    }
  }

  lemma {:induction false} WithoutValid(h: History, z: string)
    requires Valid(h)
    ensures Valid(Without(h, z))
  {
    if h != [] {
      var e, before := h[|h| - 1], h[..|h| - 1];
      WithoutValid(before, z);
      WithoutMeans(before, z, e.t, "", 0);
      if e.t == z {
        assert Without(h, z) == Without(before, z);
      } else {
        assert Without(h, z)[..|Without(before, z)|] == Without(before, z);
      }
    }
  }

  /** A transaction whose end was never reported can only endanger others: without its events nobody new is refused. */
  lemma LeftoversOnlyRefuse(h: History, z: string, t: string)
    requires Valid(h) && t != z
    ensures Valid(Without(h, z)) && (t in Play(Without(h, z)).byTxn <==> t in Play(h).byTxn)
    ensures Dangerous(Play(Without(h, z)), t) ==> Dangerous(Play(h), t)
  {
    var h' := Without(h, z);
    WithoutValid(h, z);
    WithoutMeans(h, z, t, "", 0);
    DangerMeans(h, t);
    DangerMeans(h', t);
    if InDanger(h', t) {
      var u, k, j :| u != t && !AbortedIn(h', u) && ReadThenWrite(h', u, t, k) && SeenBy(h', t, u, j);
      WithoutPairs(h, z, u, t, k);
      WithoutPairs(h, z, t, u, j);
      WithoutMeans(h, z, u, "", 0);
      assert !AbortedIn(h, u) && ReadThenWrite(h, u, t, k) && SeenBy(h, t, u, j);
    }
  }
}
