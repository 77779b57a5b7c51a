/**
 Three concrete runs at the edges of the guarantees: a commit whose every log record was truncated before
 the crash is left without an outcome, a transaction whose undo was cut commits after its abort was logged,
 and a snapshot captured inside a commit's window is torn.
 */
module MachineExamples {
  import opened Primitives
  import opened VersionChains
  import opened Stores
  import opened Machine
  import opened MachineInvariant
  import opened MachineSteps
  import opened MachineOutcomes

  lemma StepReaches(s0: Sys, s: Sys, a: Action, s': Sys)
    requires Leads(s0, s) && Enabled(s, a) && Next(s, a) == s'
    ensures Leads(s0, s')
  {
    hide Next, Enabled;
    LeadsStep(s, a);
    LeadsOn(s0, s, s');
  }

  lemma ClientReaches(s0: Sys, s: Sys, c: ClientAction)
    requires Leads(s0, s) && ClientEnabled(s, c)
    ensures Leads(s0, ClientNext(s, c))
  {
    hide ClientNext;
    StepReaches(s0, s, Client(c), ClientNext(s, c));
  }

  lemma CommitReaches(s0: Sys, s: Sys, m: CommitAction)
    requires Leads(s0, s) && CommitEnabled(s, m)
    ensures Leads(s0, CommitNext(s, m))
  {
    hide CommitNext;
    StepReaches(s0, s, Commit(m), CommitNext(s, m));
  }

  const BODY := StagedWrite([], true)

  // ---------- A commit lost to truncation ----------

  function Begun(s: Sys, t: string): Sys {
    var x := s.st.globalVersion;
    s.(st := s.st.(wal := s.st.wal + [LogBegin(t, x)],
                   txns := s.st.txns[t := TxnState(Active, x, 0, {}, map[])],
                   pins := Pin(s.st.pins, x)),
       h := Hold(s.h, TxnHolder(t), x, !InWindow(s.commit)).(begun := s.h.begun + {t}))
  }

  lemma Begin(s0: Sys, s: Sys, t: string)
    requires Leads(s0, s) && s.mode.Running? && t !in s.st.txns && s.begins == map[] && Unused(s.h.log, t)
    ensures Leads(s0, Begun(s, t))
  {
    hide Leads;
    ClientReaches(s0, s, BeginCapture(t));
    var s1 := ClientNext(s, BeginCapture(t));
    ClientReaches(s0, s1, BeginStore(t, 0));
    var s2 := ClientNext(s1, BeginStore(t, 0));
    ClientReaches(s0, s2, BeginLog(t));
    assert ClientNext(s2, BeginLog(t)).begins == map[];
    assert ClientNext(s2, BeginLog(t)) == Begun(s, t);
  }

  /** Begun and staged one write. */
  function Staged(s: Sys, t: string, k: string): Sys {
    var x := s.st.globalVersion;
    s.(st := s.st.(wal := s.st.wal + [LogBegin(t, x)] + [LogStage(t, k)],
                   txns := s.st.txns[t := TxnState(Active, x, 0, {k}, map[])],
                   writes := s.st.writes[t := WriteSet(s.st, t)[k := BODY]],
                   pins := Pin(s.st.pins, x)),
       h := Hold(s.h, TxnHolder(t), x, !InWindow(s.commit)).(begun := s.h.begun + {t}, stagers := s.h.stagers + {t}))
  }

  lemma BeginAndStage(s0: Sys, s: Sys, t: string, k: string)
    requires Leads(s0, s) && s.mode.Running? && t !in s.st.txns && s.begins == map[] && Unused(s.h.log, t)
    ensures Leads(s0, Staged(s, t, k))
  {
    hide Leads, Unused;
    Begin(s0, s, t);
    StageNext(s, t, k);
    hide ClientNext, Begun, Staged;
    ClientReaches(s0, Begun(s, t), Stage(t, k, BODY));
  }

  lemma StageNext(s: Sys, t: string, k: string)
    requires s.mode.Running?
    ensures ClientEnabled(Begun(s, t), Stage(t, k, BODY)) && ClientNext(Begun(s, t), Stage(t, k, BODY)) == Staged(s, t, k)
  {
    var s' := ClientNext(Begun(s, t), Stage(t, k, BODY));
    assert s'.st.txns[t].writeKeys == {k};
    assert s'.st.txns == Staged(s, t, k).st.txns;
  }

  /** Claimed and given a version. */
  function Started(s: Sys, t: string): Sys
    requires t in s.st.txns && s.st.globalVersion < U64_MAX
  {
    s.(st := s.st.(globalVersion := s.st.globalVersion + 1,
                   txns := s.st.txns[t := s.st.txns[t].(status := Committing)]),
       commit := Allocated(t, s.st.globalVersion + 1),
       h := s.h.(allocVer := s.h.allocVer[t := s.st.globalVersion + 1]))
  }

  lemma ClaimAndAllocate(s0: Sys, s: Sys, t: string)
    requires Leads(s0, s) && CommitEnabled(s, Claim(t)) && s.st.txns[t].writeKeys != {} && s.st.globalVersion < U64_MAX
    ensures Leads(s0, Started(s, t))
  {
    hide Leads;
    CommitReaches(s0, s, Claim(t));
    var s1 := CommitNext(s, Claim(t));
    assert s1.st.wal == s.st.wal;
    StepReaches(s0, s1, Allocate, Started(s, t));
  }

  /** The committer wrote its intent down. */
  function Ready(s: Sys): Sys
    requires (s.commit.Allocated? || s.commit.Checked?) && s.commit.t in s.st.txns
  {
    var t, v, row := s.commit.t, s.commit.v, s.st.txns[s.commit.t];
    s.(st := s.st.(wal := s.st.wal + [LogCommitting(t, row.writeKeys)],
                   txns := s.st.txns[t := row.(alloc := Uniform(row.writeKeys, v))]),
       commit := Intended(t, v),
       h := s.h.(intent := s.h.intent[t := |s.st.wal|]))
  }

  lemma LogAndStore(s0: Sys, s: Sys)
    requires Leads(s0, s) && s.mode.Running? && s.commit.Checked? && s.commit.t in s.st.txns
    ensures Leads(s0, Ready(s))
  {
    hide Leads;
    var s2 := LogIntentNext(s);
    StepReaches(s0, s, LogIntent, s2);
    CommitReaches(s0, s2, StoreIntent);
    assert CommitNext(s2, StoreIntent).st.wal == s2.st.wal;
    assert CommitNext(s2, StoreIntent) == Ready(s);
  }

  lemma CheckAndLog(s0: Sys, s: Sys)
    requires Leads(s0, s) && s.mode.Running? && s.commit.Allocated? && s.commit.t in s.st.txns
    requires !SnapshotConflict(s.st, s.commit.t)
    ensures Leads(s0, Ready(s))
  {
    hide Leads, SnapshotConflict, Uniform;
    CommitReaches(s0, s, CheckChains);
    var s1 := CommitNext(s, CheckChains);
    assert s1.st.wal == s.st.wal && s1.st.txns == s.st.txns;
    assert s1 == s.(commit := Checked(s.commit.t, s.commit.v));
    LogAndStore(s0, s1);
  }

  /** The state after the append, the terminal records, the terminal row and the released pin. */
  function Ended(s: Sys): Sys
    requires s.commit.Intended? && s.commit.t in s.st.txns
    requires CanAppend(s.st.chains, Batch(s.st, s.commit.t, s.commit.v), s.st.txns[s.commit.t].snapshot)
  {
    var t, v, row := s.commit.t, s.commit.v, s.st.txns[s.commit.t];
    var batch := Batch(s.st, t, v);
    s.(st := s.st.(wal := s.st.wal + [LogCommitted(t, v)] + [LogCommitResult(t, v)],
                   txns := s.st.txns[t := row.(status := Committed)],
                   chains := AppendAll(s.st.chains, batch, row.snapshot),
                   pins := Unpin(s.st.pins, row.snapshot)),
       commit := Idle,
       h := Release(s.h.(log := Extend(s.h.log, batch), pub := s.h.pub[t := v]), TxnHolder(t)))
  }

  lemma PublishAndEnd(s0: Sys, s: Sys)
    requires Leads(s0, s) && s.mode.Running? && s.commit.Intended? && s.commit.t in s.st.txns
    requires s.st.txns[s.commit.t].writeKeys != {}
    requires CanAppend(s.st.chains, Batch(s.st, s.commit.t, s.commit.v), s.st.txns[s.commit.t].snapshot)
    ensures Leads(s0, Ended(s))
  {
    hide Leads, CanAppend, Batch, AppendAll, Extend;
    var s1 := PublishNext(s);
    StepReaches(s0, s, Publish, s1);
    CommitReaches(s0, s1, LogDone);
    var s2 := CommitNext(s1, LogDone);
    CommitReaches(s0, s2, LogResult);
    var s3 := CommitNext(s2, LogResult);
    CommitReaches(s0, s3, StoreCommitted);
    var s4 := CommitNext(s3, StoreCommitted);
    assert s4.st.wal == Ended(s).st.wal && s4.st.txns == Ended(s).st.txns;
    StepReaches(s0, s4, ReleasePin, Ended(s));
  }

  lemma NewKeyIsFree(st: Store, t: string, k: string)
    requires t in st.txns && st.txns[t].writeKeys == {k} && k !in st.chains
    ensures !SnapshotConflict(st, t)
  {
  }

  /** Begins, stages one write and takes a version. */
  lemma WriteAndStart(s0: Sys, s: Sys, t: string, k: string) returns (s': Sys)
    requires Leads(s0, s) && s.mode.Running? && s.commit.Idle? && s.begins == map[] && s.st.globalVersion < U64_MAX
    requires t !in s.st.txns && Unused(s.h.log, t)
    ensures s'.h.log == s.h.log
    ensures Leads(s0, s') && s'.mode.Running? && s'.begins == map[] && s'.commit == Allocated(t, s.st.globalVersion + 1)
    ensures s'.st.globalVersion == s.st.globalVersion + 1 && s'.st.walFloor == s.st.walFloor
    ensures s'.st.wal == s.st.wal + [LogBegin(t, s.st.globalVersion)] + [LogStage(t, k)]
    ensures s'.st.chains == s.st.chains && s.h.begun <= s'.h.begun && s'.h.pub == s.h.pub
    ensures s'.st.txns == s.st.txns[t := TxnState(Committing, s.st.globalVersion, 0, {k}, map[])]
  {
    hide Leads, Pin;
    BeginAndStage(s0, s, t, k);
    var s1 := Staged(s, t, k);
    ClaimAndAllocate(s0, s1, t);
    s' := Started(s1, t);
  }

  /** Begins, stages one write to a key no one has written, and gets as far as its intent. */
  lemma WriteAndIntend(s0: Sys, s: Sys, t: string, k: string) returns (s': Sys)
    requires Leads(s0, s) && s.mode.Running? && s.commit.Idle? && s.begins == map[] && s.st.globalVersion < U64_MAX
    requires t !in s.st.txns && k !in s.st.chains && Unused(s.h.log, t)
    ensures s'.h.log == s.h.log
    ensures Leads(s0, s') && s'.mode.Running? && s'.begins == map[] && s'.commit == Intended(t, s.st.globalVersion + 1)
    ensures s'.st.globalVersion == s.st.globalVersion + 1 && s'.st.walFloor == s.st.walFloor
    ensures s'.st.wal == s.st.wal + [LogBegin(t, s.st.globalVersion), LogStage(t, k), LogCommitting(t, {k})]
    ensures s'.st.chains == s.st.chains && s.h.begun <= s'.h.begun && s'.h.pub == s.h.pub
    ensures t in s'.st.txns && s'.st.txns[t].writeKeys == {k} && s'.st.txns.Keys == s.st.txns.Keys + {t}
    ensures forall u :: u in s.st.txns ==> s'.st.txns[u] == s.st.txns[u]
  {
    hide Leads, SnapshotConflict, Uniform;
    var s1 := WriteAndStart(s0, s, t, k);
    NewKeyIsFree(s1.st, t, k);
    CheckAndLog(s0, s1);
    s' := Ready(s1);
  }

  lemma NewKeyAppends(st: Store, t: string, k: string, v: u64)
    requires t in st.txns && st.txns[t].writeKeys == {k} && k !in st.chains
    ensures CanAppend(st.chains, Batch(st, t, v), st.txns[t].snapshot)
    ensures AppendAll(st.chains, Batch(st, t, v), st.txns[t].snapshot).Keys == st.chains.Keys + {k}
  {
  }

  lemma OthersUnused(s: Sys, t: string, k: string)
    requires t in s.st.txns && s.st.txns[t].writeKeys == {k} && s.commit.Intended?
    ensures var log' := Extend(s.h.log, Batch(s.st, t, s.commit.v));
            forall u :: u != t && Unused(s.h.log, u) ==> Unused(log', u)
  {
    var batch := Batch(s.st, t, s.commit.v);
    assert forall j :: j in batch ==> batch[j].txnId == t;
  }

  /** The whole of it, to the end of the commit. */
  lemma WriteAlone(s0: Sys, s: Sys, t: string, k: string) returns (s': Sys)
    requires Leads(s0, s) && s.mode.Running? && s.commit.Idle? && s.begins == map[] && s.st.globalVersion < U64_MAX
    requires t !in s.st.txns && k !in s.st.chains && Unused(s.h.log, t)
    ensures forall u :: u != t && Unused(s.h.log, u) ==> Unused(s'.h.log, u)
    ensures Leads(s0, s') && s'.mode.Running? && s'.commit.Idle? && s'.begins == map[]
    ensures s'.st.globalVersion == s.st.globalVersion + 1 && s'.st.walFloor == s.st.walFloor
    ensures s'.st.wal == s.st.wal + Records(t, k, s.st.globalVersion)
    ensures s'.st.chains.Keys == s.st.chains.Keys + {k}
    ensures s'.st.txns.Keys == s.st.txns.Keys + {t} && HasStatus(s'.st, t, Committed)
    ensures forall u :: u in s.st.txns ==> s'.st.txns[u] == s.st.txns[u]
    ensures s.h.begun <= s'.h.begun && s'.h.pub == s.h.pub[t := s.st.globalVersion + 1]
  {
    hide Leads, Extend, Unpin, CanAppend, Batch, AppendAll, EntryFor;
    var s1 := WriteAndIntend(s0, s, t, k);
    NewKeyAppends(s1.st, t, k, s1.commit.v);
    PublishAndEnd(s0, s1);
    s' := Ended(s1);
    OthersUnused(s1, t, k);
  }

  /** What a commit of one key leaves in the log. */
  function Records(t: string, k: string, x: u64): seq<WalRecord>
    requires x < U64_MAX
  {
    [LogBegin(t, x), LogStage(t, k), LogCommitting(t, {k}), LogCommitted(t, x + 1), LogCommitResult(t, x + 1)]
  }

  /** What "t" has logged before it commits. */
  function Opened(): seq<WalRecord> {
    [LogBegin("t", 0), LogStage("t", "k")]
  }

  lemma StagedFirst() returns (s: Sys)
    ensures Leads(Init, s) && s.mode.Running? && s.commit.Idle? && s.begins == map[] && s.h.log == map[]
    ensures s.st.globalVersion == 0 && s.st.walFloor == 0 && s.st.chains == map[]
    ensures s.st.wal == Opened()
    ensures "t" in s.h.begun && s.st.txns == map["t" := TxnState(Active, 0, 0, {"k"}, map[])]
    ensures WriteSet(s.st, "t") == map["k" := BODY]
  {
    hide Leads;
    LeadsSelf(Init);
    BeginAndStage(Init, Init, "t", "k");
    s := Staged(Init, "t", "k");
  }

  lemma NoneUsed(t: string)
    ensures Unused(map[], t)
  {
  }

  /** "t" has staged; "u" has committed version 1 on another key. */
  lemma OneAhead() returns (s: Sys)
    ensures Leads(Init, s) && s.mode.Running? && s.commit.Idle? && s.begins == map[] && Unused(s.h.log, "w")
    ensures s.st.globalVersion == 1 && s.st.walFloor == 0 && s.st.chains.Keys == {"l"} && s.st.txns.Keys == {"t", "u"}
    ensures s.st.wal == Opened() + Records("u", "l", 0)
    ensures "t" in s.h.begun && s.st.txns["t"] == TxnState(Active, 0, 0, {"k"}, map[]) && HasStatus(s.st, "u", Committed)
  {
    hide Leads, Records, Opened, Unused;
    NoneUsed("u");
    NoneUsed("w");
    var s0 := StagedFirst();
    s := WriteAlone(Init, s0, "u", "l");
  }

  /** "t" has staged; "u" and "w" have committed versions 1 and 2 on other keys. */
  lemma Overtaken() returns (s: Sys)
    ensures Leads(Init, s) && s.mode.Running? && s.commit.Idle?
    ensures s.st.globalVersion == 2 && s.st.walFloor == 0 && s.st.chains.Keys == {"l", "m"}
    ensures s.st.wal == Opened() + Records("u", "l", 0) + Records("w", "m", 1)
    ensures "t" in s.h.begun && "t" in s.st.txns && s.st.txns["t"] == TxnState(Active, 0, 0, {"k"}, map[])
    ensures HasStatus(s.st, "u", Committed) && HasStatus(s.st, "w", Committed) && "w" in s.h.pub && s.h.pub["w"] == 2
  {
    hide Leads, Records, Opened, Unused;
    var s1 := OneAhead();
    s := WriteAlone(Init, s1, "w", "m");
  }

  /** The log part of a flush whose newest commit has the given version: a record of it, then the truncation. */
  lemma FlushLog(s0: Sys, s: Sys, v: u64) returns (s': Sys)
    requires Leads(s0, s) && s.mode.Running? && CommittedAt(s, v)
    ensures Leads(s0, s') && s' == s.(st := TruncateWal(AppendWal(s.st, LogMemtableFlushed(v)), v))
  {
    hide Leads;
    var s1 := BackgroundNext(s, LogFlush(v));
    StepReaches(s0, s, Background(LogFlush(v)), s1);
    assert CommittedAt(s1, v);
    s' := BackgroundNext(s1, Truncate(v));
    StepReaches(s0, s1, Background(Truncate(v)), s');
  }

  /** What the log keeps of both commits and their flush. */
  function Kept(): seq<WalRecord> {
    Records("u", "l", 0) + Records("w", "m", 1) + [LogMemtableFlushed(2)]
  }

  /** A flush of both commits truncates up to version 2. */
  lemma Flushed() returns (s: Sys)
    ensures Leads(Init, s) && s.mode.Running? && s.commit.Idle?
    ensures s.st.globalVersion == 2 && s.st.walFloor == 2 <= |s.st.wal| && "k" !in s.st.chains
    ensures Surviving(s.st) == Kept()
    ensures "t" in s.h.begun && "t" in s.st.txns && s.st.txns["t"] == TxnState(Active, 0, 0, {"k"}, map[])
    ensures HasStatus(s.st, "u", Committed) && HasStatus(s.st, "w", Committed) && "w" in s.h.pub && s.h.pub["w"] == 2
  {
    hide Leads, Records;
    var s0 := Overtaken();
    assert CommittedAt(s0, 2);
    s := FlushLog(Init, s0, 2);
  }

  /** Then "t" takes version 3 and the crash comes. */
  lemma Cornered() returns (s: Sys)
    ensures Leads(Init, s) && s.mode == Recovering({"u", "w"}, Choose) && s.h.cut == Some("t") && !s.h.cutLogged
    ensures s.st.walFloor == 2 <= |s.st.wal| && Surviving(s.st) == Kept()
    ensures "t" in s.st.txns && s.st.txns["t"] == TxnState(Committing, 0, 0, {"k"}, map[])
    ensures HasStatus(s.st, "u", Committed) && HasStatus(s.st, "w", Committed)
    ensures "k" !in s.st.chains && "w" in s.h.pub && s.h.pub["w"] == 2
  {
    hide Leads, Kept, WalTxns;
    var s0 := Flushed();
    ClaimAndAllocate(Init, s0, "t");
    var s1 := Started(s0, "t");
    RecordTxns();
    s := CrashNext(s1);
    StepReaches(Init, s1, Crash, s);
  }

  lemma RecordTxns()
    ensures WalTxns(Kept()) == {"u", "w"}
  {
    var w := Kept();
    assert w[0].txn == "u" && w[5].txn == "w";
    assert w[0] in w && w[5] in w;
  }

  /**
   Two commits overtake a transaction that has staged; the flush of those commits truncates the log up to the
   greater of their versions, which removes every record of the transaction. It then claims its commit and is cut
   before it logs its intent: recovery never looks at it, and its row stays Committing with no outcome recorded.
   */
  lemma TruncatedCommitIsLost() returns (s: Sys)
    ensures Reachable(s) && s.mode == Recovering({}, Choose) && s.h.cut == Some("t") && !s.h.cutLogged
    ensures "t" in s.st.txns && s.st.txns["t"].writeKeys != {} && s.st.walFloor <= |s.st.wal|
    ensures s.st.walFloor <= U64_MAX && CommittedAt(s, s.st.walFloor)
    ensures NoneHold(s.st, "t") && Outcome(s.st, "t") == None
  {
    hide Leads, Kept;
    var s0 := Cornered();
    var s1 := RecoverNext(s0, Pick("u"));
    StepReaches(Init, s0, Recover(Pick("u")), s1);
    s := RecoverNext(s1, Pick("w"));
    StepReaches(Init, s1, Recover(Pick("w")), s);
    assert {"u", "w"} - {"u"} - {"w"} == {};
    RecordTxns();
    NoneAbout(Surviving(s.st), "t");
    StatusOfLast(Surviving(s.st), "t");
  }

  // ---------- An abort record that is not final ----------

  lemma OpenedFold()
    ensures WalTxns(Opened()) == {"t"} && WalTxns(Opened() + [LogAborted("t")]) == {"t"}
    ensures LastStatus(Opened(), "t") == Some(Active)
    ensures LastStatus(Opened() + [LogAborted("t")], "t") == Some(Aborted)
  {
    assert Opened()[0].txn == "t" && Opened()[0] in Opened() && Opened()[0] in Opened() + [LogAborted("t")];
    assert Opened()[..1] == [LogBegin("t", 0)];
    assert LastStatus([LogBegin("t", 0)], "t") == Some(Active);
  }

  /** "t" has staged a write to "k" and nothing else has happened. */
  predicate Waiting(s: Sys) {
    && s.commit.Idle? && s.begins == map[]
    && s.st.globalVersion == 0 && s.st.walFloor == 0 && s.st.chains == map[]
    && "t" in s.h.begun && s.st.txns == map["t" := TxnState(Active, 0, 0, {"k"}, map[])]
  }

  /** The first crash: recovery starts to undo "t" and is itself cut after its log record. */
  lemma HalfUndone(s0: Sys) returns (s: Sys)
    requires Waiting(s0) && s0.mode.Running? && s0.st.wal == Opened()
    ensures Leads(s0, s) && Waiting(s) && s.mode.Recovering? && s.readers == map[]
    ensures s.st.wal == Opened() + [LogAborted("t")] && WriteSet(s.st, "t") == map[]
  {
    hide Leads, LastStatus, WalTxns, CommitVersionOf, Opened;
    LeadsSelf(s0);
    assert Surviving(s0.st) == Opened();
    OpenedFold();
    var s1 := CrashNext(s0);
    StepReaches(s0, s0, Crash, s1);
    var s2 := RecoverNext(s1, Pick("t"));
    StepReaches(s0, s1, Recover(Pick("t")), s2);
    var s3 := RecoverNext(s2, Proceed);
    StepReaches(s0, s2, Recover(Proceed), s3);
    s := RecoverNext(s3, Proceed);
    StepReaches(s0, s3, Recover(Proceed), s);
  }

  /** The second crash: recovery sees the abort record and leaves the row Active. */
  lemma LeftActive(s0: Sys) returns (s: Sys)
    requires Waiting(s0) && s0.mode.Running? && s0.st.wal == Opened()
    ensures Leads(s0, s) && Waiting(s) && s.mode.Running?
    ensures s.st.wal == Opened() + [LogAborted("t")] && WriteSet(s.st, "t") == map[]
  {
    hide Leads, LastStatus, WalTxns, Opened;
    var s1 := HalfUndone(s0);
    assert Surviving(s1.st) == Opened() + [LogAborted("t")];
    OpenedFold();
    var s2 := CrashNext(s1);
    StepReaches(s0, s1, Crash, s2);
    var s3 := RecoverNext(s2, Pick("t"));
    StepReaches(s0, s2, Recover(Pick("t")), s3);
    assert {"t"} - {"t"} == {};
    s := RecoverNext(s3, Resume);
    StepReaches(s0, s3, Recover(Resume), s);
  }

  /** And is committed. */
  lemma LeftCommits(s: Sys) returns (s': Sys)
    requires Waiting(s) && s.mode.Running? && WriteSet(s.st, "t") == map[]
    ensures Leads(s, s') && s'.st.walFloor == 0
    ensures s'.st.wal == s.st.wal + [LogCommitting("t", {"k"}), LogCommitted("t", 1), LogCommitResult("t", 1)]
    ensures s'.st.txns == map["t" := TxnState(Committed, 0, 0, {"k"}, map["k" := 1])]
    ensures s'.st.chains == map["k" := [VersionEntry(1, "t", "k", 0, false)]]
  {
    assert Uniform({"k"}, 1) == map["k" := 1];
    hide Leads, AppendAll, CanAppend, Batch, Uniform, Extend;
    LeadsSelf(s);
    ClaimAndAllocate(s, s, "t");
    var s1 := Started(s, "t");
    CheckAndLog(s, s1);
    var s2 := Ready(s1);
    NewKeyAppends(s2.st, "t", "k", s2.commit.v);
    PublishAndEnd(s, s2);
    s' := Ended(s2);
    NothingStagedAppends(s2.st);
  }

  lemma NothingStagedAppends(st: Store)
    requires "t" in st.txns && st.txns["t"].writeKeys == {"k"} && WriteSet(st, "t") == map[] && st.chains == map[]
    requires CanAppend(st.chains, Batch(st, "t", 1), st.txns["t"].snapshot)
    ensures AppendAll(st.chains, Batch(st, "t", 1), st.txns["t"].snapshot) == map["k" := [VersionEntry(1, "t", "k", 0, false)]]
  {
    var e, batch := VersionEntry(1, "t", "k", 0, false), Batch(st, "t", 1);
    assert batch.Keys == {"k"} && batch["k"] == e;
    assert [] + [e] == [e];
    assert AppendOne([], e, st.txns["t"].snapshot) == Some([e]);
    assert AppendAll(st.chains, batch, st.txns["t"].snapshot).Keys == {"k"};
  }

  /**
   Recovery undoes an active transaction by logging the abort before it stores the row. When it is cut in between,
   the next recovery takes the logged abort as done, the row stays Active, and the transaction can be committed.
   Its write set is gone by then: the delete it had staged is published as an empty, live entry.
   */
  lemma AbortRecordIsNotFinal() returns (s0: Sys, s: Sys, s': Sys)
    ensures Reachable(s0) && Leads(s0, s) && Leads(s, s') && "t" in s.st.txns && "t" in s'.st.txns
    ensures s.mode.Running? && s.st.walFloor <= |s.st.wal| && Outcome(s.st, "t") == Some(Aborted) && Reopened(s, "t")
    ensures s.st.wal <= s'.st.wal && s'.st.walFloor <= |s'.st.wal|
    ensures Outcome(s'.st, "t") == Some(Committed) && AllHold(s'.st, "t")
    ensures WriteSet(s0.st, "t") == map["k" := StagedWrite([], true)] && s0.st.wal <= s'.st.wal
    ensures forall i :: |s0.st.wal| <= i < |s'.st.wal| ==> !s'.st.wal[i].LogStage?
    ensures s'.st.chains == map["k" := [VersionEntry(1, "t", "k", 0, false)]]
  {
    hide Leads, LastStatus, Opened;
    s0 := StagedFirst();
    s := LeftActive(s0);
    assert Surviving(s.st) == Opened() + [LogAborted("t")];
    OpenedFold();
    s' := LeftCommits(s);
    var w := Opened() + [LogAborted("t")];
    assert s'.st.wal[..|w|] == w && w[..|Opened()|] == Opened();
    assert Surviving(s'.st) == s'.st.wal;
    assert s'.st.wal[..|s'.st.wal| - 1] + [LogCommitResult("t", 1)] == s'.st.wal;
    assert LastStatus(s'.st.wal, "t") == Some(Committed) by { CommittedFold(s'.st.wal); }
    assert s'.st.chains["k"][0].txnId == "t";
  }

  lemma CommittedFold(w: seq<WalRecord>)
    requires w != [] && w[|w| - 1].LogCommitResult? && w[|w| - 1].txn == "t"
    ensures LastStatus(w, "t") == Some(Committed)
  {
  }

  // ---------- A snapshot torn inside the window ----------

  /** A reader arrived while the version was allocated and not yet published. */
  function Watched(s: Sys, r: nat): Sys {
    s.(st := CaptureSnapshot(s.st), readers := s.readers[r := s.st.globalVersion],
       h := Hold(s.h, ReaderHolder(r), s.st.globalVersion, false))
  }

  /**
   A commit about to publish version 1 while a reader already holds snapshot 1: the append that follows is
   allowed, so what this reader sees of the written key changes under it.
   */
  lemma TornSnapshot() returns (s: Sys)
    ensures Reachable(s) && !s.h.crashed && Publishes(s)
    ensures ReaderHolder(0) in s.h.holds && s.h.holds[ReaderHolder(0)] == s.commit.v
  {
    hide Leads;
    LeadsSelf(Init);
    BeginAndStage(Init, Init, "t", "k");
    var s1 := Started(Staged(Init, "t", "k"), "t");
    ClaimAndAllocate(Init, Staged(Init, "t", "k"), "t");
    ClientReaches(Init, s1, AcquireReader(0));
    var s2 := Watched(s1, 0);
    assert ClientNext(s1, AcquireReader(0)) == s2;
    s := Ready(s2);
    CheckAndLog(Init, s2);
  }
}
