/** Runs of whole critical sections: each step performs some operation's program,
    or a prefix of it when a disk call fails or the process dies. */
module Sections {
  import opened Basics
  import opened FileList
  import opened Transactions
  import opened StorageTree
  import opened MetaCodec
  import opened Core

  ghost predicate SectionStep(env: Env, id: string, c: Core, c': Core) {
    exists op: Op, k: nat :: Performs(env, id, op, k, c, c')
  }

  ghost predicate Performs(env: Env, id: string, op: Op, k: nat, c: Core, c': Core) {
    OpOk(op, id) && k <= |Program(env, op, c)| && c' == Run(c, Program(env, op, c)[..k])
  }

  ghost predicate SectionRun(env: Env, id: string, run: seq<Core>) {
    && |run| > 0 && run[0] == NoCore
    && forall i :: 0 <= i < |run| - 1 ==> SectionStep(env, id, run[i], run[i + 1])
  }

  ghost predicate Reachable(env: Env, id: string, c: Core) {
    exists run :: SectionRun(env, id, run) && run[|run| - 1] == c
  }

  lemma NoCoreReachable(env: Env, id: string)
    ensures Reachable(env, id, NoCore)
  {
    assert SectionRun(env, id, [NoCore]);
  }

  lemma StepReachable(env: Env, id: string, c: Core, op: Op, k: nat)
    requires Reachable(env, id, c) && OpOk(op, id) && k <= |Program(env, op, c)|
    ensures Reachable(env, id, Run(c, Program(env, op, c)[..k]))
  {
    hide Run, Program, OpOk;
    var run :| SectionRun(env, id, run) && run[|run| - 1] == c;
    var c' := Run(c, Program(env, op, c)[..k]);
    assert Performs(env, id, op, k, c, c');
    var longer := run + [c'];
    forall i | 0 <= i < |longer| - 1 ensures SectionStep(env, id, longer[i], longer[i + 1]) {
      assert i < |run| - 1 ==> longer[i] == run[i] && longer[i + 1] == run[i + 1];
    }
    assert SectionRun(env, id, longer) && longer[|longer| - 1] == c';
  }

  lemma {:induction false} RunGood(env: Env, id: string, run: seq<Core>)
    requires SectionRun(env, id, run)
    ensures Good(env, id, run[|run| - 1])
  {
    hide Good, Program, Run, OpOk;
    if |run| == 1 {
      NoCoreGood(env, id);
    } else {
      var front := run[..|run| - 1];
      RunGood(env, id, front);
      var c := run[|run| - 2];
      assert SectionStep(env, id, run[|run| - 2], run[|run| - 1]);
      var op: Op, k: nat :| Performs(env, id, op, k, c, run[|run| - 1]);
      EveryPrefixIsGood(env, id, op, c, k);
    }
  }

  /** Integrity under faults: in every state any run of uploads, removals,
      commits, deliveries and deletions can reach, with any of their steps failing,
      a committed or delivered transaction's entries match the stored bytes in size
      and digest, its manifest lists exactly them, and index and disk agree. */
  lemma ReachableIsGood(env: Env, id: string, c: Core)
    requires Reachable(env, id, c)
    ensures Good(env, id, c)
  {
    var run :| SectionRun(env, id, run) && run[|run| - 1] == c;
    RunGood(env, id, run);
  }

  /** What TransactionRepository::load makes of one folder (repository.cpp:22-35). */
  function Loaded(id: string, folder: Option<Folder>): Result<Option<Transaction>> {
    match folder
    case None => Ok(None)
    case Some(f) =>
      var tx :- DecodeMeta(f.meta);
      if tx.id != id then Err(Validation) else Ok(Some(tx))
  }

  /** load() rebuilds the index entry exactly, whenever the record's times fit the
      text form, and only then. */
  lemma LoadRebuilds(env: Env, id: string, c: Core)
    requires Reachable(env, id, c)
    ensures Loaded(id, c.folder) == Ok(c.tx) <==> (c.tx.Some? ==> TimesOk(c.tx.value))
  {
    hide DecodeMeta, EncodeMeta, TimesOk, FieldsOk, Shaped, Intact, Reachable;
    ReachableIsGood(env, id, c);
    if c.tx.Some? {
      MetaRoundTrip(c.tx.value);
    }
  }

  // --- Immutability -----------------------------------------------------------

  predicate SameIdentity(t: Transaction, t': Transaction) {
    && t'.id == t.id && t'.sender == t.sender && t'.targetUser == t.targetUser
    && t'.targetServer == t.targetServer && t'.originServer == t.originServer
    && t'.comment == t.comment && t'.createdAt == t.createdAt
  }

  /** t' may replace t as the record of a transaction. */
  predicate Succeeds(t: Transaction, t': Transaction) {
    && SameIdentity(t, t') && Rank(t.state) <= Rank(t'.state)
    && (t.state != Open ==> t'.files == t.files && t'.committedAt == t.committedAt)
  }

  /** From c to a later c' of the same transaction: who, to whom and when never
      change, the state only moves forward, and once it is past open neither the
      file list, nor the commit time, nor the stored bytes and the manifest change. */
  ghost predicate Frozen(c: Core, c': Core) {
    c.tx.Some? && c'.tx.Some? ==>
      var t, t' := c.tx.value, c'.tx.value;
      && Succeeds(t, t')
      && (t.state != Open ==>
            && c.folder.Some? && c'.folder.Some?
            && c'.folder.value.tree == c.folder.value.tree
            && c'.folder.value.manifest == c.folder.value.manifest)
  }

  lemma FrozenTransitive(a: Core, b: Core, c: Core)
    requires Frozen(a, b) && Frozen(b, c) && b.tx.Some?
    ensures Frozen(a, c)
  {}

  /** Every single micro step of every program respects it. */
  lemma MicroFrozen(env: Env, id: string, op: Op, c: Core, k: nat)
    requires Good(env, id, c) && OpOk(op, id) && k < |Program(env, op, c)|
    ensures Frozen(Run(c, Program(env, op, c)[..k]), Run(c, Program(env, op, c)[..k + 1]))
  {
    hide Good, Run, Program, EncodeMeta, EncodeManifest, MakeDirs, Rename, Unlink, Upsert, Erase, OpOk;
    var p := Program(env, op, c);
    RunStep(c, p, k);
    PrefixTx(env, id, op, c, k);
    EveryPrefixIsGood(env, id, op, c, k);
    var b := Run(c, p[..k]);
    if b.tx.Some? { GoodParts(env, id, b); }
  }

  /** What the record is just before micro step k of a program, and what step k
      may do to it. */
  lemma PrefixTx(env: Env, id: string, op: Op, c: Core, k: nat)
    requires Good(env, id, c) && OpOk(op, id) && k < |Program(env, op, c)|
    ensures var p := Program(env, op, c);
            var b, m := Run(c, p[..k]), p[k];
            && (IsDiskStep(m) ==> b.tx.Some? && b.tx.value.state == Open)
            && (m.SaveMeta? ==> b.tx == c.tx && b.tx.Some? && b.folder.Some? && Succeeds(b.tx.value, m.tx))
            && (m.Insert? ==> b.tx.None?)
  {
    var p := Program(env, op, c);
    hide Good, Run, Program, EncodeMeta, EncodeManifest, MakeDirs, Rename, Unlink, Upsert, Erase;
    NoSteps(c, p);
    if k > 0 { OneStep(c, p); }
    match op {
      case Create(_, _, _, _) => InsertProgram(env, op, c);
      case Receive(_, _, _) => InsertProgram(env, op, c);
      case Begin(_) => BeginEmpty(env, op, c);
      case Finish(_, _, _) => FinishProgram(env, op, c); GoodParts(env, id, c); if k > 0 { FourSteps(c, p, k); }
      case RemoveFile(_, _, _) => RemoveProgram(env, op, c); GoodParts(env, id, c); if k > 0 { ThreeSteps(c, p, k); }
      case Commit(_, _) => CommitProgram(env, op, c); GoodParts(env, id, c); if k > 0 { ThreeSteps(c, p, k); }
      case MarkDelivered(_) => DeliverProgram(env, op, c); GoodParts(env, id, c);
      case SetRetention(_, _) => DeliverProgram(env, op, c); GoodParts(env, id, c);
      case Destroy(_) => DestroyProgram(env, op, c); GoodParts(env, id, c);
    }
  }

  lemma BeginEmpty(env: Env, op: Op, c: Core)
    requires op.Begin?
    ensures Program(env, op, c) == []
  {}

  /** A whole prefix of a program: the record is frozen as far as its state
      demands, a deleted record stays deleted, and only mark_delivered delivers. */
  lemma {:induction false} PrefixFrozen(env: Env, id: string, op: Op, c: Core, k: nat)
    requires Good(env, id, c) && OpOk(op, id) && k <= |Program(env, op, c)|
    ensures var c' := Run(c, Program(env, op, c)[..k]);
            && Frozen(c, c')
            && (c.tx.None? && !op.Create? && !op.Receive? ==> c' == c)
            && (c.tx.Some? && !op.Destroy? ==> c'.tx.Some?)
            && (c'.tx.Some? && c'.tx.value.state == Delivered ==>
                  op.MarkDelivered? || (c.tx.Some? && c.tx.value.state == Delivered))
  {
    hide Good, Run, Program, OpOk, EncodeMeta, EncodeManifest, Upsert, Erase, MakeDirs, Rename, Unlink;
    var p := Program(env, op, c);
    NoSteps(c, p);
    if k == 0 {
      if c.tx.Some? { GoodParts(env, id, c); }
    } else {
      OneStep(c, p);
      match op {
        case Create(_, _, _, _) => InsertProgram(env, op, c); if k == 2 { TwoSteps(c, p, 2); }
        case Receive(_, _, _) => InsertProgram(env, op, c);
        case Begin(_) => BeginEmpty(env, op, c);
        case Finish(_, _, _) => FinishProgram(env, op, c); GoodParts(env, id, c); FourSteps(c, p, k);
        case RemoveFile(_, _, _) => RemoveProgram(env, op, c); GoodParts(env, id, c); ThreeSteps(c, p, k);
        case Commit(_, _) => CommitProgram(env, op, c); GoodParts(env, id, c); ThreeSteps(c, p, k);
        case MarkDelivered(_) => DeliverProgram(env, op, c); GoodParts(env, id, c); TwoSteps(c, p, k);
        case SetRetention(_, _) => DeliverProgram(env, op, c); GoodParts(env, id, c); TwoSteps(c, p, k);
        case Destroy(_) =>
          DestroyProgram(env, op, c);
          GoodParts(env, id, c);
          if |p| == 2 { TwoSteps(c, p, k); } else { ThreeSteps(c, p, k); }
      }
    }
  }
}
