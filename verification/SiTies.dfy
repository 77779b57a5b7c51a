/**
 The coordinator's calls to the lock manager, recorded beside its transaction rows: they form a run of the
 check-and-commit protocol in which every Committed row has committed.
 */
module SiTies {
  import opened Primitives
  import opened Stores
  import L = SiLocks
  import opened SiHistory

  /** What the run says about a transaction, against its row. */
  ghost predicate RowTied(run: seq<Act>, txns: map<string, TxnState>, t: string) {
    var h := Calls(run);
    && (t !in txns ==> !BeganIn(h, t) && !AbortedIn(h, t) && !CommittedIn(h, t) && !CheckedIn(run, t))
    && (t in txns && txns[t].status == Active ==> Known(h, t) && !CommittedIn(h, t) && !CheckedIn(run, t))
    && (t in txns && txns[t].status == Committed ==> CommittedIn(h, t))
  }

  ghost predicate Tied(run: seq<Act>, txns: map<string, TxnState>, m: L.LockState) {
    Protocol(run) && m == Play(Calls(run)) && forall t :: RowTied(run, txns, t)
  }

  /** Only the transaction's own row may have changed its status. */
  ghost predicate Only(was: map<string, TxnState>, now: map<string, TxnState>, t: string) {
    && t in now && now.Keys == was.Keys + {t}
    && forall u :: u in was && u != t ==> now[u].status == was[u].status
  }

  /** The row's move and the event that goes with it. */
  ghost predicate Fits(was: map<string, TxnState>, e: Event, status: TxnStatus) {
    if e.Began? then e.t !in was && status == Active
    else HasRow(was, e.t, Active) &&
         match e
         case DidCommit(_, _) => false
         case DidAbort(_) => status == Aborted
         case _ => status == Active
  }

  predicate HasRow(txns: map<string, TxnState>, t: string, s: TxnStatus) {
    t in txns && txns[t].status == s
  }

  lemma TieCall(run: seq<Act>, was: map<string, TxnState>, now: map<string, TxnState>, m: L.LockState, e: Event)
    requires Tied(run, was, m) && Only(was, now, e.t) && Fits(was, e, now[e.t].status)
    ensures Tied(run + [Call(e)], now, Apply(m, e))
  {
    var run', h := run + [Call(e)], Calls(run);
    assert run'[..|run|] == run;
    assert RowTied(run, was, e.t);
    Unfold(h, e);
    CallsAreValid(run);
    assert (h + [e])[..|h|] == h;
    forall u
      ensures RowTied(run', now, u)
    {
      assert RowTied(run, was, u);
    }
  }

  lemma TieBegin(run: seq<Act>, was: map<string, TxnState>, now: map<string, TxnState>, m: L.LockState, t: string, s: u64)
    requires Tied(run, was, m) && t !in was && Only(was, now, t) && now[t].status == Active
    ensures Tied(run + [Call(Began(t, s))], now, L.Begin(m, t, s))
  {
    TieCall(run, was, now, m, Began(t, s));
  }

  lemma TieRead(run: seq<Act>, txns: map<string, TxnState>, m: L.LockState, t: string, k: string, observed: u64)
    requires Tied(run, txns, m) && HasRow(txns, t, Active)
    ensures Tied(run + [Call(DidRead(t, k, observed))], txns, L.AddRead(m, t, k, observed))
  {
    TieCall(run, txns, txns, m, DidRead(t, k, observed));
  }

  lemma TieWrite(run: seq<Act>, was: map<string, TxnState>, now: map<string, TxnState>, m: L.LockState, t: string, k: string, v: u64)
    requires Tied(run, was, m) && HasRow(was, t, Active) && Only(was, now, t) && now[t].status == Active
    ensures Tied(run + [Call(DidWrite(t, k, v))], now, L.AddWrite(m, t, k, v))
  {
    TieCall(run, was, now, m, DidWrite(t, k, v));
  }

  lemma TieAbort(run: seq<Act>, was: map<string, TxnState>, now: map<string, TxnState>, m: L.LockState, t: string)
    requires Tied(run, was, m) && HasRow(was, t, Active) && Only(was, now, t) && now[t].status == Aborted
    ensures Tied(run + [Call(DidAbort(t))], now, L.Abort(m, t))
  {
    TieCall(run, was, now, m, DidAbort(t));
  }

  /** A commit: the check passed, the manager was told. */
  lemma TieCommit(run: seq<Act>, was: map<string, TxnState>, now: map<string, TxnState>, m: L.LockState, t: string, v: u64)
    requires Tied(run, was, m) && Only(was, now, t) && HasRow(was, t, Active) && now[t].status == Committed && !L.Dangerous(m, t)
    ensures Tied(run + [CheckPassed(t)] + [Call(DidCommit(t, v))], now, L.Commit(m, t, v))
  {
    var h, mid, e := Calls(run), run + [CheckPassed(t)], DidCommit(t, v);
    var run' := mid + [Call(e)];
    assert RowTied(run, was, t);
    CommitExtends(run, t, v);
    forall u
      ensures RowTied(run', now, u)
    {
      assert RowTied(run, was, u);
      CommitRow(run, was, now, t, v, u);
    }
    hide RowTied, Protocol, L.Commit;
  }

  lemma CommitExtends(run: seq<Act>, t: string, v: u64)
    requires Protocol(run) && Known(Calls(run), t) && !CommittedIn(Calls(run), t) && !L.Dangerous(Play(Calls(run)), t)
    ensures var run' := run + [CheckPassed(t)] + [Call(DidCommit(t, v))];
            && Protocol(run') && Calls(run') == Calls(run) + [DidCommit(t, v)]
            && Play(Calls(run')) == L.Commit(Play(Calls(run)), t, v)
            && forall u :: CheckedIn(run', u) <==> CheckedIn(run, u) || u == t
  {
    var h := Calls(run);
    CallsAreValid(run);
    DangerMeans(h, t);
    assert (h + [DidCommit(t, v)])[..|h|] == h;
    hide L.Dangerous, InDanger, L.Commit, Protocol, Calls, BeganIn, AbortedIn, CommittedIn, CheckedIn, Valid;
    CheckStep(run, t);
    CommitStep(run + [CheckPassed(t)], t, v);
  }

  lemma CommitRow(run: seq<Act>, was: map<string, TxnState>, now: map<string, TxnState>, t: string, v: u64, u: string)
    requires RowTied(run, was, u) && Only(was, now, t) && HasRow(was, t, Active) && now[t].status == Committed
    requires var run' := run + [CheckPassed(t)] + [Call(DidCommit(t, v))];
             Calls(run') == Calls(run) + [DidCommit(t, v)] && (CheckedIn(run', u) <==> CheckedIn(run, u) || u == t)
    ensures RowTied(run + [CheckPassed(t)] + [Call(DidCommit(t, v))], now, u)
  {
    Unfold(Calls(run), DidCommit(t, v));
    hide Calls, BeganIn, AbortedIn, CommittedIn, CheckedIn, ReadThenWrite, ReadBehindCommit, CommittedAbove, HasRead, HasWritten;
  }

  /** Rows that end aborted without a call to the manager. */
  lemma TieDrop(run: seq<Act>, was: map<string, TxnState>, now: map<string, TxnState>, m: L.LockState)
    requires Tied(run, was, m) && now.Keys == was.Keys
    requires forall t :: t in was ==> now[t].status == was[t].status || now[t].status == Aborted
    ensures Tied(run, now, m)
  {
    forall u
      ensures RowTied(run, now, u)
    {
      assert RowTied(run, was, u);
    }
  }

  /** However a commit ended, its calls continue the run. */
  lemma TieOutcome(run: seq<Act>, was: map<string, TxnState>, now: map<string, TxnState>, m: L.LockState, m': L.LockState,
                   t: string, v: u64) returns (run': seq<Act>)
    requires Tied(run, was, m) && HasRow(was, t, Active) && Only(was, now, t)
    requires now[t].status == Committed || now[t].status == Aborted
    requires now[t].status == Committed ==> !L.Dangerous(m, t) && m' == L.Commit(m, t, v)
    requires now[t].status == Aborted ==> m' == m || m' == L.Abort(m, t)
    ensures Tied(run', now, m') && run <= run'
  {
    hide Tied;
    if now[t].status == Committed {
      TieCommit(run, was, now, m, t, v);
      run' := run + [CheckPassed(t)] + [Call(DidCommit(t, v))];
    } else if m' == m {
      TieDrop(run, was, now, m);
      run' := run;
    } else {
      TieAbort(run, was, now, m, t);
      run' := run + [Call(DidAbort(t))];
    }
  }

  /** Two Committed rows that each missed a write of the other: one of the reads found the key staged and uncommitted. */
  lemma NoWriteSkew(run: seq<Act>, txns: map<string, TxnState>, m: L.LockState, t: string, u: string, x: string, y: string)
    requires Tied(run, txns, m) && t != u && HasRow(txns, t, Committed) && HasRow(txns, u, Committed)
    ensures !(SeenBy(Calls(run), t, u, x) && SeenBy(Calls(run), u, t, y))
    ensures Missed(Calls(run), t, u, x) && Missed(Calls(run), u, t, y) ==>
              MissedBetween(Calls(run), t, u, x) || MissedBetween(Calls(run), u, t, y)
  {
    assert RowTied(run, txns, t) && RowTied(run, txns, u);
    WriteSkewExcluded(run, t, u, x, y);
  }

  // ---------- Every interleaving of rows and calls ----------

  /** Statuses, the lock manager, and who has passed the check of the commit under way. */
  datatype World = World(rows: map<string, TxnStatus>, locks: L.LockState, checked: set<string>)

  const Start := World(map[], L.NoLocks, {})

  /** One durable status change or one call to the manager; operations of different transactions interleave freely. */
  datatype Move =
    | Begins(t: string, s: u64)
    | Reads(t: string, k: string, observed: u64)
    | Stages(t: string, k: string, v: u64)
    | Claims(t: string)
    | Passes(t: string)
    | Finishes(t: string, v: u64)
    | Gives(t: string)      // aborted, and the manager told
    | Drops(t: string)      // swept, or refused for a snapshot conflict: the manager is not told

  predicate Stands(w: World, t: string, s: TxnStatus) {
    t in w.rows && w.rows[t] == s
  }

  ghost predicate May(w: World, a: Move) {
    match a
    case Begins(t, _) => t !in w.rows
    case Reads(t, _, _) => Stands(w, t, Active)
    case Stages(t, _, _) => Stands(w, t, Active)
    case Claims(t) => Stands(w, t, Active)
    case Passes(t) => Stands(w, t, Committing) && !L.Dangerous(w.locks, t)
    case Finishes(t, _) => Stands(w, t, Committing) && t in w.checked
    case Gives(t) => Stands(w, t, Active) || Stands(w, t, Committing)
    case Drops(t) => Stands(w, t, Active) || Stands(w, t, Committing)
  }

  function Turn(w: World, a: Move): World {
    match a
    case Begins(t, s) => w.(rows := w.rows[t := Active], locks := L.Begin(w.locks, t, s))
    case Reads(t, k, x) => w.(locks := L.AddRead(w.locks, t, k, x))
    case Stages(t, k, v) => w.(locks := L.AddWrite(w.locks, t, k, v))
    case Claims(t) => w.(rows := w.rows[t := Committing])
    case Passes(t) => w.(checked := w.checked + {t})
    case Finishes(t, v) => w.(rows := w.rows[t := Committed], locks := L.Commit(w.locks, t, v))
    case Gives(t) => w.(rows := w.rows[t := Aborted], locks := L.Abort(w.locks, t))
    case Drops(t) => w.(rows := w.rows[t := Aborted])
  }

  function ActsOf(a: Move): seq<Act> {
    match a
    case Begins(t, s) => [Call(Began(t, s))]
    case Reads(t, k, x) => [Call(DidRead(t, k, x))]
    case Stages(t, k, v) => [Call(DidWrite(t, k, v))]
    case Claims(t) => []
    case Passes(t) => [CheckPassed(t)]
    case Finishes(t, v) => [Call(DidCommit(t, v))]
    case Gives(t) => [Call(DidAbort(t))]
    case Drops(t) => []
  }

  /** Moves lead from one world to another, adding their calls and checks to the run. */
  ghost predicate Moves(w: World, run: seq<Act>, moves: seq<Move>, w': World, run': seq<Act>)
    decreases |moves|
  {
    if moves == [] then w == w' && run == run'
    else May(w, moves[0]) && Moves(Turn(w, moves[0]), run + ActsOf(moves[0]), moves[1..], w', run')
  }

  ghost predicate Keeps(w: World, run: seq<Act>, t: string) {
    var h := Calls(run);
    && (t !in w.rows ==> !BeganIn(h, t) && !AbortedIn(h, t) && !CommittedIn(h, t) && !CheckedIn(run, t))
    && (Stands(w, t, Active) ==> Known(h, t) && !CommittedIn(h, t) && !CheckedIn(run, t))
    && (Stands(w, t, Committing) ==> Known(h, t) && !CommittedIn(h, t))
    && (Stands(w, t, Committed) ==> CommittedIn(h, t))
    && (t in w.checked ==> CheckedIn(run, t))
  }

  ghost predicate WorldOk(w: World, run: seq<Act>) {
    Protocol(run) && w.locks == Play(Calls(run)) && forall t :: Keeps(w, run, t)
  }

  lemma CallExtends(w: World, run: seq<Act>, a: Move, e: Event)
    requires WorldOk(w, run) && May(w, a) && ActsOf(a) == [Call(e)]
    ensures Protocol(run + [Call(e)]) && Calls(run + [Call(e)]) == Calls(run) + [e]
    ensures Turn(w, a).locks == Play(Calls(run) + [e])
    ensures forall u :: CheckedIn(run + [Call(e)], u) <==> CheckedIn(run, u)
  {
    var run', h := run + [Call(e)], Calls(run);
    assert run'[..|run|] == run;
    assert Keeps(w, run, e.t);
    CallsAreValid(run);
    assert (h + [e])[..|h|] == h;
    hide L.Dangerous, L.Begin, L.AddRead, L.AddWrite, L.Commit, L.Abort;
    assert Turn(w, a).locks == Apply(w.locks, e);
  }

  /** What a call does to what is known of one transaction. */
  lemma CallKeeps(w: World, run: seq<Act>, a: Move, e: Event, u: string)
    requires WorldOk(w, run) && May(w, a) && ActsOf(a) == [Call(e)] && Keeps(w, run, u)
    requires Calls(run + [Call(e)]) == Calls(run) + [e] && (CheckedIn(run + [Call(e)], u) <==> CheckedIn(run, u))
    ensures Keeps(Turn(w, a), run + [Call(e)], u)
  {
    Unfold(Calls(run), e);
    hide WorldOk, L.Dangerous, Calls, BeganIn, AbortedIn, CommittedIn, CheckedIn;
    hide L.Begin, L.AddRead, L.AddWrite, L.Commit, L.Abort, ReadThenWrite, ReadBehindCommit, CommittedAbove, HasRead, HasWritten;
    assert e.t == a.t;
  }

  lemma CallMove(w: World, run: seq<Act>, a: Move, e: Event)
    requires WorldOk(w, run) && May(w, a) && ActsOf(a) == [Call(e)]
    ensures WorldOk(Turn(w, a), run + [Call(e)])
  {
    CallExtends(w, run, a, e);
    forall u
      ensures Keeps(Turn(w, a), run + [Call(e)], u)
    {
      assert Keeps(w, run, u);
      CallKeeps(w, run, a, e, u);
    }
    hide Turn, Keeps, Play, Protocol;
  }

  lemma CheckMove(w: World, run: seq<Act>, t: string)
    requires WorldOk(w, run) && May(w, Passes(t))
    ensures WorldOk(Turn(w, Passes(t)), run + [CheckPassed(t)])
  {
    var w', run' := Turn(w, Passes(t)), run + [CheckPassed(t)];
    assert Keeps(w, run, t);
    CallsAreValid(run);
    DangerMeans(Calls(run), t);
    hide L.Dangerous, InDanger, Play;
    CheckStep(run, t);
    assert run'[..|run|] == run;
    forall u
      ensures Keeps(w', run', u)
    {
      assert Keeps(w, run, u);
    }
  }

  lemma SilentMove(w: World, run: seq<Act>, a: Move)
    requires WorldOk(w, run) && May(w, a) && ActsOf(a) == []
    ensures WorldOk(Turn(w, a), run)
  {
    var w' := Turn(w, a);
    assert Keeps(w, run, a.t);
    forall u
      ensures Keeps(w', run, u)
    {
      assert Keeps(w, run, u);
    }
  }

  lemma MoveIsOk(w: World, run: seq<Act>, a: Move)
    requires WorldOk(w, run) && May(w, a)
    ensures WorldOk(Turn(w, a), run + ActsOf(a))
  {
    hide WorldOk, Turn;
    assert run + [] == run;
    match a
    case Claims(_) => SilentMove(w, run, a);
    case Drops(_) => SilentMove(w, run, a);
    case Passes(t) => CheckMove(w, run, t);
    case _ => CallMove(w, run, a, ActsOf(a)[0].e);
  }

  lemma {:induction false} MovesAreOk(w: World, run: seq<Act>, moves: seq<Move>, w': World, run': seq<Act>)
    requires WorldOk(w, run) && Moves(w, run, moves, w', run')
    ensures WorldOk(w', run')
    decreases |moves|
  {
    if moves != [] {
      hide WorldOk, May, Turn, ActsOf;
      MoveIsOk(w, run, moves[0]);
      MovesAreOk(Turn(w, moves[0]), run + ActsOf(moves[0]), moves[1..], w', run');
    }
  }

  /**
   However the operations of all transactions interleave, others reading and staging between a commit's check and
   its end included: two transactions that end Committed do not each miss a write of the other, unless one of the
   reads found the key staged and uncommitted.
   */
  lemma NoSkewInAnyInterleaving(moves: seq<Move>, w: World, run: seq<Act>, t: string, u: string, x: string, y: string)
    requires Moves(Start, [], moves, w, run) && t != u && Stands(w, t, Committed) && Stands(w, u, Committed)
    ensures Missed(Calls(run), t, u, x) && Missed(Calls(run), u, t, y) ==>
              MissedBetween(Calls(run), t, u, x) || MissedBetween(Calls(run), u, t, y)
  {
    hide Moves;
    MovesAreOk(Start, [], moves, w, run);
    assert Keeps(w, run, t) && Keeps(w, run, u);
    WriteSkewExcluded(run, t, u, x, y);
  }
}
