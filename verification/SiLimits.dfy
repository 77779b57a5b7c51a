/**
 How far the check reaches: of two transactions that each read what the other writes, the order of reads and stages
 decides whether both commit, and a cycle of antidependencies through three transactions passes.
 */
module SiLimits {
  import opened Primitives
  import opened SiHistory

  /** All that matters of a history without aborts whose reads come before its commits. */
  datatype Summary = Summary(
    began: set<string>,
    done: set<string>,
    readBy: set<(string, string)>,
    antis: set<(string, string, string)>)

  ghost predicate Sums(h: History, s: Summary) {
    && Valid(h)
    && (forall t :: BeganIn(h, t) <==> t in s.began)
    && (forall t :: !AbortedIn(h, t))
    && (forall t :: CommittedIn(h, t) <==> t in s.done)
    && (forall t, k :: HasRead(h, t, k) <==> (t, k) in s.readBy)
    && (forall r, w, k :: ReadThenWrite(h, r, w, k) <==> (r, w, k) in s.antis)
    && (forall r, w, k :: !ReadBehindCommit(h, r, w, k))
    && (s.done == {} ==> forall t, x :: !CommittedAbove(h, t, x))
  }

  lemma SumsEmpty()
    ensures Sums([], Summary({}, {}, {}, {}))
  {
  }

  lemma SumsBegin(h: History, s: Summary, t: string)
    requires Sums(h, s) && t !in s.began
    ensures Sums(h + [Began(t, 0)], s.(began := s.began + {t}))
  {
    Unfold(h, Began(t, 0));
    assert (h + [Began(t, 0)])[..|h|] == h;
    hide BeganIn, AbortedIn, CommittedIn, HasRead, HasWritten, CommittedAbove, ReadThenWrite, ReadBehindCommit;
  }

  lemma SumsRead(h: History, s: Summary, t: string, k: string)
    requires Sums(h, s) && t in s.began && s.done == {}
    ensures Sums(h + [DidRead(t, k, 0)], s.(readBy := s.readBy + {(t, k)}))
  {
    Unfold(h, DidRead(t, k, 0));
    assert (h + [DidRead(t, k, 0)])[..|h|] == h;
    hide BeganIn, AbortedIn, CommittedIn, HasRead, HasWritten, CommittedAbove, ReadThenWrite, ReadBehindCommit;
  }

  lemma SumsWrite(h: History, s: Summary, t: string, k: string)
    requires Sums(h, s) && t in s.began && s.done == {}
    ensures Sums(h + [DidWrite(t, k, 1)], s.(antis := s.antis + set p | p in s.readBy && p.1 == k :: (p.0, t, k)))
  {
    Unfold(h, DidWrite(t, k, 1));
    assert (h + [DidWrite(t, k, 1)])[..|h|] == h;
    hide BeganIn, AbortedIn, CommittedIn, HasRead, HasWritten, CommittedAbove, ReadThenWrite, ReadBehindCommit;
    var more := set p | p in s.readBy && p.1 == k :: (p.0, t, k);
    forall r, w, j
      ensures (r, w, j) in more <==> w == t && j == k && (r, k) in s.readBy
    {
      if w == t && j == k && (r, k) in s.readBy {
        assert (r, k).1 == k;
      }
    }
  }

  lemma SumsCommit(h: History, s: Summary, t: string, v: u64)
    requires Sums(h, s) && t in s.began && t !in s.done
    ensures Sums(h + [DidCommit(t, v)], s.(done := s.done + {t}))
  {
    Unfold(h, DidCommit(t, v));
    assert (h + [DidCommit(t, v)])[..|h|] == h;
    hide BeganIn, AbortedIn, CommittedIn, HasRead, HasWritten, CommittedAbove, ReadThenWrite, ReadBehindCommit;
  }

  /** Nobody on both sides of the transaction. */
  lemma PassesCheck(h: History, s: Summary, t: string)
    requires Sums(h, s) && t in s.began
    requires forall u, k, j :: (u, t, k) in s.antis && (t, u, j) in s.antis ==> u == t
    ensures Known(h, t) && !InDanger(h, t)
  {
    hide BeganIn, AbortedIn, CommittedIn, ReadThenWrite, ReadBehindCommit;
    forall u, k, j | u != t && ReadThenWrite(h, u, t, k)
      ensures !SeenBy(h, t, u, j)
    {
      assert (u, t, k) in s.antis;
    }
  }

  // ---------- Three transactions in a ring ----------

  /** Each of three transactions read a key before its neighbour staged it. */
  const RING := Summary({"a", "b", "c"}, {}, {("a", "x"), ("b", "y"), ("c", "z")},
                        {("a", "b", "x"), ("b", "c", "y"), ("c", "a", "z")})

  const RING_CALLS: History := [
    Began("a", 0), Began("b", 0), Began("c", 0),
    DidRead("a", "x", 0), DidRead("b", "y", 0), DidRead("c", "z", 0),
    DidWrite("b", "x", 1), DidWrite("c", "y", 1), DidWrite("a", "z", 1)]

  lemma RingSums()
    ensures Sums(RING_CALLS, RING)
  {
    hide Sums;
    SumsEmpty();
    SumsBegin([], Summary({}, {}, {}, {}), "a");
    var h1: History := [] + [Began("a", 0)];
    var s1 := Summary({} + {"a"}, {}, {}, {});
    SumsBegin(h1, s1, "b");
    var h2, s2 := h1 + [Began("b", 0)], s1.(began := s1.began + {"b"});
    SumsBegin(h2, s2, "c");
    var h3, s3 := h2 + [Began("c", 0)], s2.(began := s2.began + {"c"});
    SumsRead(h3, s3, "a", "x");
    var h4, s4 := h3 + [DidRead("a", "x", 0)], s3.(readBy := s3.readBy + {("a", "x")});
    SumsRead(h4, s4, "b", "y");
    var h5, s5 := h4 + [DidRead("b", "y", 0)], s4.(readBy := s4.readBy + {("b", "y")});
    SumsRead(h5, s5, "c", "z");
    var h6, s6 := h5 + [DidRead("c", "z", 0)], s5.(readBy := s5.readBy + {("c", "z")});
    assert s6.readBy == RING.readBy && s6.began == RING.began && s6.antis == {};
    RingWrites(h6);
    assert h6 + [DidWrite("b", "x", 1)] + [DidWrite("c", "y", 1)] + [DidWrite("a", "z", 1)] == RING_CALLS;
  }

  lemma RingWrites(h: History)
    requires Sums(h, RING.(antis := {}))
    ensures Sums(h + [DidWrite("b", "x", 1)] + [DidWrite("c", "y", 1)] + [DidWrite("a", "z", 1)], RING)
  {
    hide Sums;
    var s0 := RING.(antis := {});
    SumsWrite(h, s0, "b", "x");
    assert (set p | p in s0.readBy && p.1 == "x" :: (p.0, "b", "x")) == {("a", "b", "x")} by {
      assert ("a", "x") in s0.readBy && ("a", "x").1 == "x";
    }
    var h1, s1 := h + [DidWrite("b", "x", 1)], RING.(antis := {("a", "b", "x")});
    assert {} + {("a", "b", "x")} == {("a", "b", "x")};
    SumsWrite(h1, s1, "c", "y");
    assert (set p | p in s1.readBy && p.1 == "y" :: (p.0, "c", "y")) == {("b", "c", "y")} by {
      assert ("b", "y") in s1.readBy && ("b", "y").1 == "y";
    }
    var h2, s2 := h1 + [DidWrite("c", "y", 1)], RING.(antis := {("a", "b", "x")} + {("b", "c", "y")});
    SumsWrite(h2, s2, "a", "z");
    assert (set p | p in s2.readBy && p.1 == "z" :: (p.0, "a", "z")) == {("c", "a", "z")} by {
      assert ("c", "z") in s2.readBy && ("c", "z").1 == "z";
    }
    assert s2.antis + {("c", "a", "z")} == RING.antis;
  }

  function AsCalls(h: History): seq<Act> {
    if h == [] then [] else AsCalls(h[..|h| - 1]) + [Call(h[|h| - 1])]
  }

  lemma CallStep(run: seq<Act>, h: History, e: Event)
    requires Protocol(run) && Calls(run) == h && Valid(h + [e]) && !e.DidCommit? && forall t :: !CheckedIn(run, t)
    ensures Protocol(run + [Call(e)]) && Calls(run + [Call(e)]) == h + [e]
    ensures forall t :: !CheckedIn(run + [Call(e)], t)
  {
    assert (run + [Call(e)])[..|run|] == run;
  }

  lemma {:induction false} CallsFollowProtocol(h: History)
    requires Valid(h) && forall i :: 0 <= i < |h| ==> !h[i].DidCommit?
    ensures Protocol(AsCalls(h)) && Calls(AsCalls(h)) == h
    ensures forall t :: !CheckedIn(AsCalls(h), t)
  {
    if h != [] {
      var before, e := h[..|h| - 1], h[|h| - 1];
      assert h == before + [e] && Valid(before);
      hide Valid, Protocol, Calls, CheckedIn;
      CallsFollowProtocol(before);
      CallStep(AsCalls(before), before, e);
    }
  }

  /** A transaction that passes its check may commit next. */
  lemma CheckAndCommit(run: seq<Act>, s: Summary, t: string, v: u64)
    requires Protocol(run) && Sums(Calls(run), s) && t in s.began && t !in s.done
    requires forall u, k, j :: (u, t, k) in s.antis && (t, u, j) in s.antis ==> u == t
    ensures var more := run + [CheckPassed(t)] + [Call(DidCommit(t, v))];
            Protocol(more) && Sums(Calls(more), s.(done := s.done + {t}))
  {
    PassesCheck(Calls(run), s, t);
    SumsCommit(Calls(run), s, t, v);
    NotDone(Calls(run), s, t);
    hide Protocol, Sums, InDanger, Known, CommittedIn, Calls, CheckedIn;
    CheckStep(run, t);
    CommitStep(run + [CheckPassed(t)], t, v);
  }

  lemma NotDone(h: History, s: Summary, t: string)
    requires Sums(h, s) && t !in s.done
    ensures !CommittedIn(h, t)
  {
  }

  /**
   A pair whose edges the manager sees is refused, a ring of three is not: a run that follows the protocol in which three
   transactions commit although each read a key before the next one staged it, all the way round.
   */
  lemma RingOfThreeCommits() returns (run: seq<Act>)
    ensures Protocol(run)
    ensures CommittedIn(Calls(run), "a") && CommittedIn(Calls(run), "b") && CommittedIn(Calls(run), "c")
    ensures Antidependency(Calls(run), "a", "b", "x") && Antidependency(Calls(run), "b", "c", "y") && Antidependency(Calls(run), "c", "a", "z")
  {
    hide Protocol, Calls, Sums;
    run := RingStart();
    CheckAndCommit(run, RING, "a", 1);
    run := run + [CheckPassed("a")] + [Call(DidCommit("a", 1))];
    CheckAndCommit(run, RING.(done := {} + {"a"}), "b", 2);
    run := run + [CheckPassed("b")] + [Call(DidCommit("b", 2))];
    CheckAndCommit(run, RING.(done := {} + {"a"} + {"b"}), "c", 3);
    run := run + [CheckPassed("c")] + [Call(DidCommit("c", 3))];
    RingIsThere(Calls(run), RING.(done := {} + {"a"} + {"b"} + {"c"}));
  }

  lemma SumsIsValid(h: History, s: Summary)
    requires Sums(h, s)
    ensures Valid(h)
  {
  }

  lemma RingStart() returns (run: seq<Act>)
    ensures Protocol(run) && Sums(Calls(run), RING)
  {
    RingSums();
    SumsIsValid(RING_CALLS, RING);
    hide Sums, Valid;
    forall i | 0 <= i < |RING_CALLS|
      ensures !RING_CALLS[i].DidCommit?
    {
    }
    CallsFollowProtocol(RING_CALLS);
    run := AsCalls(RING_CALLS);
  }

  lemma RingIsThere(h: History, s: Summary)
    requires Sums(h, s) && s.antis == RING.antis && s.done == {"a", "b", "c"}
    ensures CommittedIn(h, "a") && CommittedIn(h, "b") && CommittedIn(h, "c")
    ensures Antidependency(h, "a", "b", "x") && Antidependency(h, "b", "c", "y") && Antidependency(h, "c", "a", "z")
  {
    ReadThenWriteMeans(h, "a", "b", "x");
    ReadThenWriteMeans(h, "b", "c", "y");
    ReadThenWriteMeans(h, "c", "a", "z");
  }

  // ---------- Two transactions that each read what the other writes ----------

  lemma {:induction false} NothingEnded(h: History, t: string)
    requires forall i :: 0 <= i < |h| ==> !h[i].DidCommit? && !h[i].DidAbort?
    ensures !CommittedIn(h, t) && !AbortedIn(h, t)
  {
    if h != [] {
      NothingEnded(h[..|h| - 1], t);
    }
  }

  /** One read and one stage of each of two transactions, at the given places, and nothing else but beginnings. */
  ghost predicate CrossReads(h: History, a: string, b: string, x: string, y: string, ra: nat, wa: nat, rb: nat, wb: nat) {
    && Valid(h) && a != b
    && ReadAt(h, ra, a, x) && WriteAt(h, wa, a, y) && ReadAt(h, rb, b, y) && WriteAt(h, wb, b, x)
    && forall i :: 0 <= i < |h| && i != ra && i != wa && i != rb && i != wb ==> h[i].Began?
  }

  lemma CrossPairs(h: History, a: string, b: string, x: string, y: string, ra: nat, wa: nat, rb: nat, wb: nat, r: string, w: string, k: string)
    requires CrossReads(h, a, b, x, y, ra, wa, rb, wb) && r != w
    ensures ReadThenWrite(h, r, w, k) <==> (r == a && w == b && k == x && ra < wb) || (r == b && w == a && k == y && rb < wa)
  {
    ReadThenWriteMeans(h, r, w, k);
    hide ReadThenWrite, Valid;
    if Antidependency(h, r, w, k) {
      var i, j :| ReadAt(h, i, r, k) && WriteAt(h, j, w, k) && i < j;
      assert (i == ra || i == rb) && (j == wa || j == wb);
    }
    if r == a && w == b && k == x && ra < wb {
      assert ReadAt(h, ra, a, x) && WriteAt(h, wb, b, x);
    }
    if r == b && w == a && k == y && rb < wa {
      assert ReadAt(h, rb, b, y) && WriteAt(h, wa, a, y);
    }
  }

  lemma CrossUnended(h: History, a: string, b: string, x: string, y: string, ra: nat, wa: nat, rb: nat, wb: nat, t: string)
    requires CrossReads(h, a, b, x, y, ra, wa, rb, wb)
    ensures !CommittedIn(h, t) && !AbortedIn(h, t) && forall i :: 0 <= i < |h| ==> !h[i].DidCommit?
    ensures t == a || t == b ==> Known(h, t)
  {
    hide Valid;
    NothingEnded(h, t);
    if t == a || t == b {
      HasReadMeans(h, t, if t == a then x else y);
      ActsAreBegun(h, t, if t == a then x else y);
    }
  }

  lemma CrossDanger(h: History, a: string, b: string, x: string, y: string, ra: nat, wa: nat, rb: nat, wb: nat)
    requires CrossReads(h, a, b, x, y, ra, wa, rb, wb)
    ensures InDanger(h, a) <==> ra < wb && rb < wa
    ensures InDanger(h, b) <==> ra < wb && rb < wa
  {
    hide CrossReads, ReadThenWrite, ReadBehindCommit, AbortedIn;
    NotSame(h, a, b, x, y, ra, wa, rb, wb);
    if InDanger(h, a) { CrossEdge(h, a, b, x, y, ra, wa, rb, wb, a); }
    if InDanger(h, b) { CrossEdge(h, a, b, x, y, ra, wa, rb, wb, b); }
    CrossPairs(h, a, b, x, y, ra, wa, rb, wb, a, b, x);
    CrossPairs(h, a, b, x, y, ra, wa, rb, wb, b, a, y);
    CrossUnended(h, a, b, x, y, ra, wa, rb, wb, a);
    CrossUnended(h, a, b, x, y, ra, wa, rb, wb, b);
    if ra < wb && rb < wa {
      assert ReadThenWrite(h, b, a, y) && SeenBy(h, a, b, x);
      assert ReadThenWrite(h, a, b, x) && SeenBy(h, b, a, y);
    }
  }

  lemma NotSame(h: History, a: string, b: string, x: string, y: string, ra: nat, wa: nat, rb: nat, wb: nat)
    requires CrossReads(h, a, b, x, y, ra, wa, rb, wb)
    ensures a != b
  {
  }

  /** Danger comes only from both reads coming first. */
  lemma CrossEdge(h: History, a: string, b: string, x: string, y: string, ra: nat, wa: nat, rb: nat, wb: nat, t: string)
    requires CrossReads(h, a, b, x, y, ra, wa, rb, wb) && (t == a || t == b) && InDanger(h, t)
    ensures ra < wb && rb < wa
  {
    var u, k, j :| u != t && !AbortedIn(h, u) && ReadThenWrite(h, u, t, k) && SeenBy(h, t, u, j);
    hide CrossReads, ReadThenWrite, ReadBehindCommit, AbortedIn, CommittedIn;
    CrossPairs(h, a, b, x, y, ra, wa, rb, wb, u, t, k);
    CrossPairs(h, a, b, x, y, ra, wa, rb, wb, t, u, j);
    if ReadBehindCommit(h, t, u, j) {
      BehindIsCommitted(h, t, u, j);
      CrossUnended(h, a, b, x, y, ra, wa, rb, wb, u);
    }
  }

  /**
   Whatever the order of the four operations, both transactions can go on to commit if and only if it is not the
   case that each read its key before the other staged it. A read that finds the key staged leaves no edge.
   */
  lemma SkewByOrder(h: History, a: string, b: string, x: string, y: string, ra: nat, wa: nat, rb: nat, wb: nat, v: u64, w: u64)
    requires CrossReads(h, a, b, x, y, ra, wa, rb, wb)
    ensures Protocol(AsCalls(h) + Commits(a, b, v, w)) <==> !(ra < wb && rb < wa)
    ensures Calls(AsCalls(h) + Commits(a, b, v, w)) == h + [DidCommit(a, v)] + [DidCommit(b, w)]
  {
    CrossUnended(h, a, b, x, y, ra, wa, rb, wb, a);
    CrossUnended(h, a, b, x, y, ra, wa, rb, wb, b);
    CrossDanger(h, a, b, x, y, ra, wa, rb, wb);
    CallsFollowProtocol(h);
    hide InDanger, Protocol, Calls, AsCalls, Valid, Known, CommittedIn;
    PairCommits(AsCalls(h), a, b, v, w);
  }

  // ---------- A write skew that commits ----------

  /** Both stage first, then each reads the other's key as it was. */
  function StagedFirst(a: string, b: string, x: string, y: string): History {
    [Began(a, 0), Began(b, 0), DidWrite(a, y, 1), DidWrite(b, x, 1), DidRead(a, x, 0), DidRead(b, y, 0)]
  }

  lemma StagedFirstIsValid(a: string, b: string, x: string, y: string)
    requires a != b
    ensures Valid(StagedFirst(a, b, x, y))
  {
    hide Sums;
    var none := Summary({}, {}, {}, {});
    SumsEmpty();
    SumsBegin([], none, a);
    var h1, s1 := [] + [Began(a, 0)], none.(began := {} + {a});
    SumsBegin(h1, s1, b);
    var h2, s2 := h1 + [Began(b, 0)], none.(began := {} + {a} + {b});
    SumsWrite(h2, s2, a, y);
    assert (set p | p in s2.readBy && p.1 == y :: (p.0, a, y)) == {} && s2.antis + {} == s2.antis;
    var h3 := h2 + [DidWrite(a, y, 1)];
    SumsWrite(h3, s2, b, x);
    assert (set p | p in s2.readBy && p.1 == x :: (p.0, b, x)) == {};
    var h4 := h3 + [DidWrite(b, x, 1)];
    SumsRead(h4, s2, a, x);
    var h5, s5 := h4 + [DidRead(a, x, 0)], s2.(readBy := {} + {(a, x)});
    SumsRead(h5, s5, b, y);
    SumsIsValid(h5 + [DidRead(b, y, 0)], s5.(readBy := {} + {(a, x)} + {(b, y)}));
    assert h5 + [DidRead(b, y, 0)] == StagedFirst(a, b, x, y);
  }

  /**
   For any two transactions and keys: both stage, both read, both pass their checks and commit, although each read
   the version the other replaced.
   */
  lemma StagedFirstCommits(a: string, b: string, x: string, y: string) returns (run: seq<Act>)
    requires a != b
    ensures Protocol(run) && CommittedIn(Calls(run), a) && CommittedIn(Calls(run), b)
    ensures Missed(Calls(run), a, b, x) && Missed(Calls(run), b, a, y)
  {
    var h := StagedFirst(a, b, x, y);
    StagedFirstIsValid(a, b, x, y);
    assert CrossReads(h, a, b, x, y, 4, 2, 5, 3) by { hide Valid; }
    SkewByOrder(h, a, b, x, y, 4, 2, 5, 3, 1, 2);
    run := AsCalls(h) + Commits(a, b, 1, 2);
    hide Protocol, Calls, Valid, AsCalls;
    BothEnd(h, a, b);
    var e := h + [DidCommit(a, 1)] + [DidCommit(b, 2)];
    assert ReadAt(e, 4, a, x) && WriteAt(e, 3, b, x) && CommitAt(e, 7, b, 0);
    assert ReadAt(e, 5, b, y) && WriteAt(e, 2, a, y) && CommitAt(e, 6, a, 0);
  }

  lemma BothEnd(h: History, a: string, b: string)
    ensures CommittedIn(h + [DidCommit(a, 1)] + [DidCommit(b, 2)], a) && CommittedIn(h + [DidCommit(a, 1)] + [DidCommit(b, 2)], b)
  {
    Unfold(h, DidCommit(a, 1));
    Unfold(h + [DidCommit(a, 1)], DidCommit(b, 2));
  }
}
