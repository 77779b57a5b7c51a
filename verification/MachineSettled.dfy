/**
 Recovery as a whole, on the step machine: whatever order it takes the transactions in, an uninterrupted recovery
 settles every one of them by what its log and chains said when it started.
 */
module MachineSettled {
  import opened Stores
  import opened Machine
  import opened MachineInvariant
  import opened CommitEffects

  /** What recovery's judgement of the transaction rests on. */
  ghost predicate SameFor(was: Store, now: Store, t: string)
    requires was.walFloor <= |was.wal| && now.walFloor <= |now.wal|
  {
    && (t in was.txns <==> t in now.txns) && (t in was.txns ==> now.txns[t] == was.txns[t]) && now.chains == was.chains
    && LastStatus(Surviving(now), t) == LastStatus(Surviving(was), t)
    && LastKeys(Surviving(now), t) == LastKeys(Surviving(was), t)
  }

  ghost predicate SameForAll(was: Store, now: Store, todo: set<string>)
    requires was.walFloor <= |was.wal| && now.walFloor <= |now.wal|
  {
    forall t :: t in todo ==> SameFor(was, now, t)
  }

  /** How far the current transaction's settling has come since it was picked from `mid`. */
  ghost predicate Partial(mid: Store, now: Store, pc: RecoveryPc)
    requires !pc.Choose? && pc.t in mid.txns
  {
    var t, v := pc.t, CommitVersionOf(mid.txns[pc.t]);
    match pc
    case UndoClean(_) => now == mid
    case UndoLog(_) => now == mid.(writes := mid.writes - {t})
    case UndoUnpin(_) => now == mid.(writes := mid.writes - {t}, wal := mid.wal + [LogAborted(t)])
    case UndoStore(_) =>
      now == mid.(writes := mid.writes - {t}, wal := mid.wal + [LogAborted(t)], pins := Unpin(mid.pins, mid.txns[t].snapshot))
    case AdoptLog(_) => now == mid
    case AdoptResult(_) => now == mid.(wal := mid.wal + [LogCommitted(t, v)])
    case AdoptStore(_) => now == mid.(wal := mid.wal + [LogCommitted(t, v), LogCommitResult(t, v)])
  }

  predicate Undoing(pc: RecoveryPc) {
    pc.UndoClean? || pc.UndoLog? || pc.UndoUnpin? || pc.UndoStore?
  }

  ghost predicate Underway(was: Store, mid: Store, s: Sys) {
    && s.mode.Recovering? && was.walFloor <= |was.wal| && mid.walFloor <= |mid.wal| && s.st.walFloor <= |s.st.wal|
    && var todo, pc := s.mode.todo, s.mode.pc;
       if pc.Choose? then
         mid == s.st && AllSettled(was, mid, todo) && SameForAll(was, mid, todo)
       else
         && pc.t !in todo && pc.t in mid.txns && AllSettled(was, mid, todo + {pc.t}) && SameForAll(was, mid, todo + {pc.t})
         && Partial(mid, s.st, pc) && Judge(mid, pc.t) == (if Undoing(pc) then Undo else Adopt)
  }

  // ---------- One step ----------

  lemma DecideJudges(st: Store, t: string)
    requires st.walFloor <= |st.wal|
    ensures Decide(st, t) == match Judge(st, t)
                             case Leave => Choose
                             case Adopt => AdoptLog(t)
                             case Undo => UndoClean(t)
  {
    if t in st.txns {
      TestIsSame(st, t);
    }
    hide LastStatus, LastKeys, EndsAtItsVersion, RecoveryFindsPublished;
  }

  lemma {:induction false} AppendKeeps(st: Store, r: WalRecord, u: string)
    requires st.walFloor <= |st.wal| && !About(r, u)
    ensures LastStatus(Surviving(AppendWal(st, r)), u) == LastStatus(Surviving(st), u)
    ensures LastKeys(Surviving(AppendWal(st, r)), u) == LastKeys(Surviving(st), u)
  {
    var w := Surviving(st);
    assert Surviving(AppendWal(st, r)) == w + [r];
    assert (w + [r])[..|w|] == w;
  }

  lemma SettledKeepsOthers(was: Store, mid: Store, now: Store, t: string, u: string)
    requires was.walFloor <= |was.wal| && mid.walFloor <= |mid.wal| && now.walFloor <= |now.wal|
    requires SameFor(was, mid, u) && u != t && SettledAs(mid, now, t)
    ensures SameFor(was, now, u)
  {
    OtherRows(mid, now, t, u);
    hide LastStatus, LastKeys, Judge, OnePinLess, CommitVersionOf;
    var v := if t in mid.txns then CommitVersionOf(mid.txns[t]) else 0;
    match Judge(mid, t)
    case Leave =>
    case Adopt =>
      AppendKeeps(mid, LogCommitted(t, v), u);
      AppendKeeps(AppendWal(mid, LogCommitted(t, v)), LogCommitResult(t, v), u);
      assert mid.wal + [LogCommitted(t, v), LogCommitResult(t, v)] == mid.wal + [LogCommitted(t, v)] + [LogCommitResult(t, v)];
      assert Surviving(now) == Surviving(AppendWal(AppendWal(mid, LogCommitted(t, v)), LogCommitResult(t, v)));
    case Undo =>
      AppendKeeps(mid, LogAborted(t), u);
      assert Surviving(now) == Surviving(AppendWal(mid, LogAborted(t)));
  }

  lemma SettledOn(was: Store, mid: Store, now: Store, todo: set<string>, t: string)
    requires was.walFloor <= |was.wal| && mid.walFloor <= |mid.wal| && now.walFloor <= |now.wal| && t in todo
    requires AllSettled(was, mid, todo) && SameForAll(was, mid, todo) && SettledAs(mid, now, t)
    ensures AllSettled(was, now, todo - {t}) && SameForAll(was, now, todo - {t})
  {
    hide AllSettled, SettledAs, SameFor;
    KeptFor(was, mid, t);
    OneMoreSettled(was, mid, now, todo, t);
    forall u | u in todo - {t}
      ensures SameFor(was, now, u)
    {
      SettledKeepsOthers(was, mid, now, t, u);
    }
  }

  lemma KeptFor(was: Store, mid: Store, t: string)
    requires was.walFloor <= |was.wal| && mid.walFloor <= |mid.wal| && SameFor(was, mid, t)
    ensures Judge(mid, t) == Judge(was, t)
  {
    JudgeKept(was, mid, t);
  }

  lemma PickSettles(was: Store, mid: Store, s: Sys, t: string)
    requires Underway(was, mid, s) && RecoverEnabled(s, Pick(t))
    ensures Underway(was, s.st, RecoverNext(s, Pick(t)))
  {
    DecideJudges(s.st, t);
    hide AllSettled, SameForAll, Decide, LastStatus, LastKeys;
    var todo := s.mode.todo;
    assert todo - {t} + {t} == todo;
    if Judge(s.st, t).Leave? {
      assert SettledAs(s.st, s.st, t);
      hide SettledAs, Judge;
      SettledOn(was, s.st, s.st, todo, t);
    }
  }

  lemma ProceedSettles(was: Store, mid: Store, s: Sys)
    requires Underway(was, mid, s) && RecoverEnabled(s, Proceed)
    ensures Underway(was, if RecoverNext(s, Proceed).mode.pc.Choose? then RecoverNext(s, Proceed).st else mid, RecoverNext(s, Proceed))
  {
    hide AllSettled, SameForAll, Judge, CommitVersionOf;
    var s', t := RecoverNext(s, Proceed), s.mode.pc.t;
    if s'.mode.pc.Choose? {
      LastStep(mid, s);
      hide SettledAs, Partial, RecoverNext;
      assert s.mode.todo + {t} - {t} == s.mode.todo;
      SettledOn(was, mid, s'.st, s.mode.todo + {t}, t);
    } else {
      NextPartial(mid, s);
      hide Partial, RecoverNext;
    }
  }

  lemma NextPartial(mid: Store, s: Sys)
    requires RecoverEnabled(s, Proceed) && s.mode.pc.t in mid.txns && Partial(mid, s.st, s.mode.pc)
    requires !s.mode.pc.UndoStore? && !s.mode.pc.AdoptStore?
    ensures var pc := RecoverNext(s, Proceed).mode.pc;
            && !pc.Choose? && pc.t == s.mode.pc.t && Partial(mid, RecoverNext(s, Proceed).st, pc)
            && Undoing(pc) == Undoing(s.mode.pc)
  {
    hide CommitVersionOf;
    var t, v := s.mode.pc.t, CommitVersionOf(mid.txns[s.mode.pc.t]);
    assert mid.wal + [LogCommitted(t, v)] + [LogCommitResult(t, v)] == mid.wal + [LogCommitted(t, v), LogCommitResult(t, v)];
  }

  lemma LastStep(mid: Store, s: Sys)
    requires RecoverEnabled(s, Proceed) && mid.walFloor <= |mid.wal| && s.mode.pc.t in mid.txns && Partial(mid, s.st, s.mode.pc)
    requires Judge(mid, s.mode.pc.t) == (if Undoing(s.mode.pc) then Undo else Adopt)
    requires s.mode.pc.UndoStore? || s.mode.pc.AdoptStore?
    ensures SettledAs(mid, RecoverNext(s, Proceed).st, s.mode.pc.t)
  {
    hide Judge, CommitVersionOf, OnePinLess, Undone;
    var t, now := s.mode.pc.t, RecoverNext(s, Proceed).st;
    if s.mode.pc.UndoStore? {
      UnpinIsLess(mid.pins, mid.txns[t].snapshot);
      UndoneSo(mid, now, t);
    }
  }

  // ---------- The whole recovery ----------

  lemma RecoverIs(s: Sys, r: RecoverAction)
    ensures Enabled(s, Action.Recover(r)) <==> RecoverEnabled(s, r)
    ensures Enabled(s, Action.Recover(r)) ==> Next(s, Action.Recover(r)) == RecoverNext(s, r)
  {
    hide RecoverEnabled, RecoverNext;
  }

  lemma {:induction false} RecoveryRun(was: Store, mid: Store, s: Sys, acts: seq<Action>, s': Sys)
    requires Underway(was, mid, s) && Run(s, acts, s') && (forall a :: a in acts ==> a.Recover? && !a.r.Resume?)
    requires s'.mode == Recovering({}, Choose)
    ensures AllSettled(was, s'.st, {})
    decreases |acts|
  {
    if acts != [] {
      assert acts[0] in acts && forall a :: a in acts[1..] ==> a in acts;
      RecoverIs(s, acts[0].r);
      hide Underway, AllSettled, RecoverNext, RecoverEnabled, Next, Enabled;
      var s1 := Next(s, acts[0]);
      if acts[0].r.Pick? {
        PickSettles(was, mid, s, acts[0].r.t);
        RecoveryRun(was, s.st, s1, acts[1..], s');
      } else {
        ProceedSettles(was, mid, s);
        RecoveryRun(was, if s1.mode.pc.Choose? then s1.st else mid, s1, acts[1..], s');
      }
    }
  }

  /** From the crash to the end of recovery, no second crash in between. */
  lemma RecoverySettles(s: Sys, acts: seq<Action>, s': Sys)
    requires CrashEnabled(s) && Run(CrashNext(s), acts, s') && s'.mode == Recovering({}, Choose)
    requires forall a :: a in acts ==> a.Recover? && !a.r.Resume?
    ensures AllSettled(s.st, s'.st, {})
  {
    var logged := WalTxns(Surviving(s.st));
    forall t
      ensures t in logged <==> LastStatus(Surviving(s.st), t).Some?
    {
      NoneAbout(Surviving(s.st), t);
      StatusOfLast(Surviving(s.st), t);
    }
    hide Run, LastStatus, LastKeys, AllSettled, WalTxns;
    NoneSettled(s.st, logged);
    RecoveryRun(s.st, s.st, CrashNext(s), acts, s');
  }
}
