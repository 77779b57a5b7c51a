/**
 What the published entries say. The notes beside a run record the last write staged for every transaction and
 key, and which of them recovery has thrown away since; every entry a run publishes agrees with its note.
 */
module MachineContents {
  import opened Primitives
  import opened VersionChains
  import opened Stores
  import opened Machine
  import opened MachineInvariant
  import opened MachineSteps
  import opened MachineOutcomes

  datatype Notes = Notes(
    last: map<(string, string), StagedWrite>,   // what was staged last, by transaction and key
    undone: set<(string, string)>)              // of those, the ones recovery's undo has dropped

  const NoNotes := Notes(map[], {})

  predicate Undoes(s: Sys, a: Action) {
    a == Recover(Proceed) && s.mode.Recovering? && s.mode.pc.UndoClean?
  }

  function Note(n: Notes, s: Sys, a: Action): Notes {
    if a.Client? && a.c.Stage? then
      Notes(n.last[(a.c.t, a.c.k) := a.c.w], n.undone - {(a.c.t, a.c.k)})
    else if Undoes(s, a) then
      n.(undone := n.undone + set x | x in n.last && x.0 == s.mode.pc.t)
    else n
  }

  /** The notes at the end of a run. */
  ghost function Noted(n: Notes, s: Sys, acts: seq<Action>): Notes
    decreases |acts|
  {
    if acts == [] || !Enabled(s, acts[0]) then n
    else Noted(Note(n, s, acts[0]), Next(s, acts[0]), acts[1..])
  }

  /** A tombstone for a staged delete, a body's size for a staged put, and nothing of what was thrown away. */
  predicate Agrees(e: VersionEntry, w: StagedWrite, undone: bool) {
    && e.deleted == (w.deleted && !undone)
    && e.size == if undone || w.deleted then 0 else |w.body|
  }

  ghost predicate EntryAgrees(n: Notes, pub: map<string, u64>, k: string, e: VersionEntry) {
    e.txnId in pub ==> (e.txnId, k) in n.last && Agrees(e, n.last[(e.txnId, k)], (e.txnId, k) in n.undone)
  }

  ghost predicate EntriesAgree(n: Notes, h: History) {
    forall k, e :: k in h.log && e in h.log[k] ==> EntryAgrees(n, h.pub, k, e)
  }

  /** Until it is aborted, a transaction's write set holds its notes. */
  ghost predicate KeyAgrees(n: Notes, t: string, row: TxnState, ws: map<string, StagedWrite>, k: string) {
    k in row.writeKeys && row.status != Aborted ==>
      && (t, k) in n.last
      && (if (t, k) in n.undone then k !in ws else k in ws && ws[k] == n.last[(t, k)])
  }

  ghost predicate KeysAgree(n: Notes, st: Store) {
    forall t, k :: t in st.txns ==> KeyAgrees(n, t, st.txns[t], WriteSet(st, t), k)
  }

  ghost predicate Contents(n: Notes, s: Sys) {
    KeysAgree(n, s.st) && EntriesAgree(n, s.h)
  }

  // ---------- Steps that move nothing the notes speak about ----------

  /** Write keys and write sets stand, and nobody comes back from an abort. */
  ghost predicate RowsStill(st: Store, st': Store) {
    forall t :: t in st'.txns ==>
      || st'.txns[t].writeKeys == {}
      || st'.txns[t].status == Aborted
      || (t in st.txns && st.txns[t].writeKeys == st'.txns[t].writeKeys && st.txns[t].status != Aborted && WriteSet(st', t) == WriteSet(st, t))
  }

  ghost predicate Still(s: Sys, s': Sys) {
    RowsStill(s.st, s'.st) && s'.h.log == s.h.log && s'.h.pub == s.h.pub
  }

  lemma StillKeeps(n: Notes, s: Sys, s': Sys)
    requires Contents(n, s) && Still(s, s')
    ensures Contents(n, s')
  {
    forall t, k | t in s'.st.txns
      ensures KeyAgrees(n, t, s'.st.txns[t], WriteSet(s'.st, t), k)
    {
      if t in s.st.txns {
        assert KeyAgrees(n, t, s.st.txns[t], WriteSet(s.st, t), k);
      }
    }
  }

  lemma ClientStill(s: Sound, c: ClientAction)
    requires ClientEnabled(s, c) && !c.Stage?
    ensures Still(s, ClientNext(s, c))
  {
    hide InvCommit, InvPub, InvWal, InvRecovery, Unused;
  }

  lemma CommitStill(s: Sound, m: CommitAction)
    requires CommitEnabled(s, m)
    ensures Still(s, CommitNext(s, m))
  {
    hide InvTables, InvPub, InvWal, InvRecovery, SnapshotConflict, ReconcileFindsPublished, Uniform, LastAbout;
  }

  lemma BackgroundStill(s: Sound, b: BackgroundAction)
    requires BackgroundEnabled(s, b)
    ensures Still(s, BackgroundNext(s, b))
  {
    hide InvCommit, InvPub, InvWal, InvRecovery, CommittedAt, VersionsOk, RowsOk, RowsStill;
    match b
    case SweepClaim(t) => StatusStill(s.st, t, Aborted);
    case SweepClean(t) => DropStill(s.st, t);
    case _ => SameStill(s, BackgroundNext(s, b));
  }

  lemma DropStill(st: Store, t: string)
    requires t in st.txns && st.txns[t].status == Aborted
    ensures RowsStill(st, DropWrites(st, t))
  {
  }

  lemma RecoverStill(s: Sound, r: RecoverAction)
    requires RecoverEnabled(s, r) && !Undoes(s, Recover(r))
    ensures Still(s, RecoverNext(s, r))
  {
    hide InvTables, InvPub, InvWal, InvCommit, Decide, CommitVersionOf, LastAbout, WalTxns, Settled, LastStatus, Surviving, RowsStill;
    if r.Proceed? && s.mode.pc.UndoStore? {
      StatusStill(s.st, s.mode.pc.t, Aborted);
    } else if r.Proceed? && s.mode.pc.AdoptStore? {
      StatusStill(s.st, s.mode.pc.t, Committed);
    } else {
      SameStill(s, RecoverNext(s, r));
    }
  }

  lemma StatusStill(st: Store, t: string, status: TxnStatus)
    requires t in st.txns && st.txns[t].status != Aborted
    ensures RowsStill(st, SetStatus(st, t, status))
  {
  }

  lemma CleanStill(s: Sound)
    requires AbortCleanEnabled(s)
    ensures Still(s, AbortCleanNext(s))
  {
    hide InvTables, InvPub, InvWal, InvRecovery, LastAbout;
  }

  // ---------- The steps that do ----------

  lemma StageNoted(n: Notes, s: Sound, t: string, k: string, w: StagedWrite)
    requires Contents(n, s) && ClientEnabled(s, Stage(t, k, w))
    ensures Contents(Note(n, s, Client(Stage(t, k, w))), ClientNext(s, Stage(t, k, w)))
  {
    ActiveIsUnread(s, t);
    StageIs(s, t, k, w);
    hide InvTables, InvCommit, InvPub, InvWal, InvRecovery, EntryAgrees, KeyAgrees, ClientNext, PutWrite, ClientEnabled;
    var n', s' := Note(n, s, Client(Stage(t, k, w))), ClientNext(s, Stage(t, k, w));
    forall u, j | u in s'.st.txns
      ensures KeyAgrees(n', u, s'.st.txns[u], WriteSet(s'.st, u), j)
    {
      StagedKey(n, s.st, t, k, w, u, j);
    }
    forall j, e | j in s.h.log && e in s.h.log[j]
      ensures EntryAgrees(n', s.h.pub, j, e)
    {
      StagedEntry(n, s.h.pub, t, k, w, j, e);
    }
  }

  lemma StageIs(s: Sys, t: string, k: string, w: StagedWrite)
    requires ClientEnabled(s, Stage(t, k, w))
    ensures var s' := ClientNext(s, Stage(t, k, w));
            && t in s.st.txns && s'.h.log == s.h.log && s'.h.pub == s.h.pub && s'.st.writes == PutWrite(s.st, t, k, w).writes
            && s'.st.txns == s.st.txns[t := s.st.txns[t].(writeKeys := s.st.txns[t].writeKeys + {k})]
  {
  }

  lemma StagedKey(n: Notes, st: Store, t: string, k: string, w: StagedWrite, u: string, j: string)
    requires t in st.txns && u in st.txns && KeyAgrees(n, u, st.txns[u], WriteSet(st, u), j)
    ensures var row := if u == t then st.txns[t].(writeKeys := st.txns[t].writeKeys + {k}) else st.txns[u];
            KeyAgrees(Notes(n.last[(t, k) := w], n.undone - {(t, k)}), u, row, WriteSet(PutWrite(st, t, k, w), u), j)
  {
  }

  lemma StagedEntry(n: Notes, pub: map<string, u64>, t: string, k: string, w: StagedWrite, j: string, e: VersionEntry)
    requires t !in pub && EntryAgrees(n, pub, j, e)
    ensures EntryAgrees(Notes(n.last[(t, k) := w], n.undone - {(t, k)}), pub, j, e)
  {
  }

  lemma ActiveIsUnread(s: Sound, t: string)
    requires HasStatus(s.st, t, Active)
    ensures t !in s.h.pub
  {
    hide InvTables, InvCommit, InvWal, InvRecovery, LogIsPublished, PublishedIsLogged, FirstCommitterWins, ForeignOk, ChainsFollowLog;
  }

  lemma UndoNoted(n: Notes, s: Sound)
    requires Contents(n, s) && RecoverEnabled(s, Proceed) && s.mode.pc.UndoClean?
    ensures Contents(Note(n, s, Recover(Proceed)), RecoverNext(s, Proceed))
  {
    hide InvTables, InvCommit, InvWal, InvPub, CommitVersionOf, LastAbout, WalTxns, Settled;
    var n', s', t := Note(n, s, Recover(Proceed)), RecoverNext(s, Proceed), s.mode.pc.t;
    assert t !in s.h.pub;
    forall u, j | u in s'.st.txns
      ensures KeyAgrees(n', u, s'.st.txns[u], WriteSet(s'.st, u), j)
    {
      assert KeyAgrees(n, u, s.st.txns[u], WriteSet(s.st, u), j);
    }
    forall j, e | j in s'.h.log && e in s'.h.log[j]
      ensures EntryAgrees(n', s'.h.pub, j, e)
    {
      assert EntryAgrees(n, s.h.pub, j, e);
    }
  }

  lemma OldEntryAgrees(n: Notes, s: Sound, j: string, e: VersionEntry)
    requires Contents(n, s) && Publishes(s) && j in s.h.log && e in s.h.log[j]
    ensures EntryAgrees(n, s.h.pub[s.commit.t := s.commit.v], j, e)
  {
    hide KeysAgree, CanAppend, Batch, InvTables, InvWal, InvRecovery, CommittedIsPublished, PublishedIsLogged,
         FirstCommitterWins, ForeignOk, ChainsFollowLog, LastAbout, Agrees;
    assert EntryAgrees(n, s.h.pub, j, e);
    assert EntryOk(j, e, s.h.pub, s.st.txns);
  }

  lemma NewEntryAgrees(n: Notes, s: Sound, j: string)
    requires Contents(n, s) && Publishes(s) && j in s.st.txns[s.commit.t].writeKeys
    ensures EntryAgrees(n, s.h.pub[s.commit.t := s.commit.v], j, EntryFor(s.commit.t, s.commit.v, j, WriteSet(s.st, s.commit.t)))
  {
    hide EntriesAgree, CanAppend, Batch, InvTables, InvWal, InvRecovery, InvPub, LastAbout;
    assert KeyAgrees(n, s.commit.t, s.st.txns[s.commit.t], WriteSet(s.st, s.commit.t), j);
  }

  lemma ExtendedAgrees(n: Notes, h: History, batch: map<string, VersionEntry>, pub: map<string, u64>)
    requires forall j, e :: j in h.log && e in h.log[j] ==> EntryAgrees(n, pub, j, e)
    requires forall j :: j in batch ==> EntryAgrees(n, pub, j, batch[j])
    ensures EntriesAgree(n, h.(log := Extend(h.log, batch), pub := pub))
  {
    hide EntryAgrees;
  }

  lemma PublishNoted(n: Notes, s: Sound)
    requires Contents(n, s) && Publishes(s)
    ensures Contents(n, PublishNext(s))
  {
    PublishNextIs(s);
    hide PublishNext, CanAppend, AppendAll, InvTables, InvCommit, InvPub, InvWal, InvRecovery, EntryAgrees, KeyAgrees, EntryFor, Extend, EntriesAgree;
    var pub, batch := s.h.pub[s.commit.t := s.commit.v], Batch(s.st, s.commit.t, s.commit.v);
    forall j, e | j in s.h.log && e in s.h.log[j]
      ensures EntryAgrees(n, pub, j, e)
    {
      OldEntryAgrees(n, s, j, e);
    }
    forall j | j in batch
      ensures EntryAgrees(n, pub, j, batch[j])
    {
      NewEntryAgrees(n, s, j);
    }
    ExtendedAgrees(n, s.h, batch, pub);
    SameKeys(n, s.st, PublishNext(s).st);
  }

  lemma SameKeys(n: Notes, st: Store, st': Store)
    requires KeysAgree(n, st) && st'.txns == st.txns && st'.writes == st.writes
    ensures KeysAgree(n, st')
  {
    forall t, k | t in st'.txns
      ensures KeyAgrees(n, t, st'.txns[t], WriteSet(st', t), k)
    {
      assert KeyAgrees(n, t, st.txns[t], WriteSet(st, t), k);
    }
  }

  lemma SameStill(s: Sys, s': Sys)
    requires s'.st.txns == s.st.txns && s'.st.writes == s.st.writes && s'.h.log == s.h.log && s'.h.pub == s.h.pub
    ensures Still(s, s')
  {
  }

  lemma StepNoted(n: Notes, s: Sound, a: Action)
    requires Contents(n, s) && Enabled(s, a)
    ensures Contents(Note(n, s, a), Next(s, a))
  {
    hide ClientNext, CommitNext, PublishNext, BackgroundNext, RecoverNext, AbortCleanNext;
    hide InvTables, InvCommit, InvPub, InvWal, InvRecovery, Contents, WalTxns, RowsStill;
    match a
    case Client(c) =>
      if c.Stage? {
        StageNoted(n, s, c.t, c.k, c.w);
      } else {
        ClientStill(s, c);
        StillKeeps(n, s, Next(s, a));
      }
    case Recover(r) =>
      if Undoes(s, a) {
        UndoNoted(n, s);
      } else {
        RecoverStill(s, r);
        StillKeeps(n, s, Next(s, a));
      }
    case Publish =>
      if Publishes(s) {
        PublishNoted(n, s);
      } else {
        PublishNothing(s);
        SameStill(s, Next(s, a));
        StillKeeps(n, s, Next(s, a));
      }
    case Commit(m) =>
      CommitStill(s, m);
      StillKeeps(n, s, Next(s, a));
    case Background(b) =>
      BackgroundStill(s, b);
      StillKeeps(n, s, Next(s, a));
    case AbortClean =>
      CleanStill(s);
      StillKeeps(n, s, Next(s, a));
    case _ =>
      SameStill(s, Next(s, a));
      StillKeeps(n, s, Next(s, a));
  }

  lemma {:induction false} RunNoted(n: Notes, s: Sys, acts: seq<Action>, s': Sys)
    requires Inv(s) && InvOrder(s) && Contents(n, s) && Run(s, acts, s')
    ensures Contents(Noted(n, s, acts), s')
    decreases |acts|
  {
    if acts != [] {
      hide Next, Enabled, Note, InvCounts, InvCore, InvLost, InvOrder, Contents, LogStep, RowsMove;
      StepNoted(n, s, acts[0]);
      StepAll(s, acts[0]);
      RunNoted(Note(n, s, acts[0]), Next(s, acts[0]), acts[1..], s');
    }
  }

  /**
   Every entry a run publishes, with crashes anywhere, says what its transaction staged last for the key, unless
   recovery's undo threw that write away; then it is an empty, live entry.
   */
  lemma PublishedAsStaged(o: Origin, chains: map<string, Entries>, acts: seq<Action>, s: Sys, k: string, e: VersionEntry)
    requires ChainsFit(o, chains) && Run(StartFrom(o, chains), acts, s)
    requires k in s.h.log && e in s.h.log[k] && e.txnId in s.h.pub
    ensures var n, x := Noted(NoNotes, StartFrom(o, chains), acts), (e.txnId, k);
            && x in n.last
            && (x !in n.undone ==> e.deleted == n.last[x].deleted && e.size == if n.last[x].deleted then 0 else |n.last[x].body|)
            && (x in n.undone ==> !e.deleted && e.size == 0)
  {
    hide Run, Noted, InvCounts, InvCore, InvLost, InvOrder, ChainsFit;
    StartInv(o, chains);
    StartOrder(o, chains);
    RunNoted(NoNotes, StartFrom(o, chains), acts, s);
    assert EntryAgrees(Noted(NoNotes, StartFrom(o, chains), acts), s.h.pub, k, e);
  }
}
