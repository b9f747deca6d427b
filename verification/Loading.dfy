/** When a restart finds everything again. load() must read back every meta.json
    (src/lib/transaction/repository.cpp:17-38), and the text form of a time has room for
    the years 0000 to 9999 only; no operation checks that of the times it stores. */
module Loading {
  import opened Basics
  import opened FileList
  import opened Transactions
  import Calendar
  import Time
  import opened Paths
  import StorageTree
  import opened MetaCodec
  import opened Core
  import opened Sections

  /** The times an operation would store fit their text form. */
  predicate StampsOk(env: Env, op: Op, c: Core) {
    match op
    case Create(_, _, req, now) => Time.InRange(now) && Time.InRange(now + EffectiveDays(env, req.days) * Time.DAY)
    case Receive(_, _, p) => Time.InRange(p.createdAt) && Time.InRange(p.expiresAt)
    case Commit(_, now) => Time.InRange(now)
    case MarkDelivered(now) => Time.InRange(now)
    case SetRetention(_, days) => c.tx.Some? ==> Time.InRange(c.tx.value.createdAt + days * Time.DAY)
    case _ => true
  }

  ghost predicate Loads(c: Core) {
    c.tx.Some? ==> TimesOk(c.tx.value)
  }

  /** One section: when its times fit, the record it leaves can be read back; and when it
      has completed and they do not, it cannot. */
  lemma SectionLoads(env: Env, id: string, op: Op, c: Core, k: nat)
    requires Good(env, id, c) && OpOk(op, id) && Loads(c) && k <= |Program(env, op, c)|
    ensures StampsOk(env, op, c) ==> Loads(Run(c, Program(env, op, c)[..k]))
    ensures !StampsOk(env, op, c) && Program(env, op, c) != [] && k == |Program(env, op, c)|
            ==> !Loads(Run(c, Program(env, op, c)))
  {
    hide Good, Run, Program, OpOk, StampsOk, Loads;
    assert Program(env, op, c)[..|Program(env, op, c)|] == Program(env, op, c);
    if op.Create? || op.Receive? {
      InsertLoads(env, id, op, c, k);
    } else if op.MarkDelivered? || op.SetRetention? || op.Commit? {
      StampLoads(env, id, op, c, k);
    } else {
      OtherLoads(env, id, op, c, k);
    }
  }

  lemma InsertLoads(env: Env, id: string, op: Op, c: Core, k: nat)
    requires Good(env, id, c) && OpOk(op, id) && Loads(c) && k <= |Program(env, op, c)| && (op.Create? || op.Receive?)
    ensures StampsOk(env, op, c) ==> Loads(Run(c, Program(env, op, c)[..k]))
    ensures !StampsOk(env, op, c) && Program(env, op, c) != [] && k == |Program(env, op, c)|
            ==> !Loads(Run(c, Program(env, op, c)[..k]))
  {
    hide Good, Run, Program, OpOk, EncodeMeta, Time.InRange;
    var p := Program(env, op, c);
    NoSteps(c, p);
    if k > 0 {
      OneStep(c, p);
      InsertProgram(env, op, c);
      NothingStored(env, id, c);
      if k == 2 { TwoSteps(c, p, 2); }
    }
  }

  lemma StampLoads(env: Env, id: string, op: Op, c: Core, k: nat)
    requires Good(env, id, c) && OpOk(op, id) && Loads(c) && k <= |Program(env, op, c)|
    requires op.MarkDelivered? || op.SetRetention? || op.Commit?
    ensures StampsOk(env, op, c) ==> Loads(Run(c, Program(env, op, c)[..k]))
    ensures !StampsOk(env, op, c) && Program(env, op, c) != [] && k == |Program(env, op, c)|
            ==> !Loads(Run(c, Program(env, op, c)[..k]))
  {
    hide Good, Run, Program, OpOk, EncodeMeta, EncodeManifest, Matches, Time.InRange;
    var p := Program(env, op, c);
    NoSteps(c, p);
    if k > 0 && op.Commit? {
      CommitProgram(env, op, c);
      GoodParts(env, id, c);
      ThreeSteps(c, p, k);
    } else if k > 0 {
      DeliverProgram(env, op, c);
      GoodParts(env, id, c);
      TwoSteps(c, p, k);
    }
  }

  /** Operations that store no time. */
  lemma OtherLoads(env: Env, id: string, op: Op, c: Core, k: nat)
    requires Good(env, id, c) && OpOk(op, id) && Loads(c) && k <= |Program(env, op, c)|
    requires op.Begin? || op.Finish? || op.RemoveFile? || op.Destroy?
    ensures StampsOk(env, op, c) && Loads(Run(c, Program(env, op, c)[..k]))
  {
    hide Good, Run, Program, OpOk, EncodeMeta, EncodeManifest, Upsert, Erase, Time.InRange;
    hide StorageTree.MakeDirs, StorageTree.Rename, StorageTree.Unlink;
    var p := Program(env, op, c);
    NoSteps(c, p);
    if k > 0 {
      match op {
        case Begin(_) => BeginEmpty(env, op, c);
        case Finish(_, _, _) => FinishProgram(env, op, c); GoodParts(env, id, c); FourSteps(c, p, k);
        case RemoveFile(_, _, _) => RemoveProgram(env, op, c); GoodParts(env, id, c); ThreeSteps(c, p, k);
        case Destroy(_) =>
          DestroyProgram(env, op, c);
          GoodParts(env, id, c);
          if |p| == 2 { TwoSteps(c, p, k); } else { ThreeSteps(c, p, k); }
      }
    }
  }

  ghost predicate StampedStep(env: Env, id: string, c: Core, c': Core) {
    exists op: Op, k: nat :: Performs(env, id, op, k, c, c') && StampsOk(env, op, c)
  }

  ghost predicate StampedRun(env: Env, id: string, run: seq<Core>) {
    && |run| > 0 && run[0] == NoCore
    && forall i :: 0 <= i < |run| - 1 ==> StampedStep(env, id, run[i], run[i + 1])
  }

  lemma {:induction false} RunLoads(env: Env, id: string, run: seq<Core>)
    requires StampedRun(env, id, run)
    ensures Good(env, id, run[|run| - 1]) && Loads(run[|run| - 1]) && Reachable(env, id, run[|run| - 1])
  {
    hide Good, Run, Program, OpOk, StampsOk, Loads, Reachable;
    var n := |run|;
    if n == 1 {
      NoCoreGood(env, id);
      NoCoreReachable(env, id);
      assert Loads(NoCore) by { NothingLoads(); }
    } else {
      RunLoads(env, id, run[..n - 1]);
      var c := run[n - 2];
      assert StampedStep(env, id, run[n - 2], run[n - 1]);
      var op: Op, k: nat :| Performs(env, id, op, k, c, run[n - 1]) && StampsOk(env, op, c);
      EveryPrefixIsGood(env, id, op, c, k);
      SectionLoads(env, id, op, c, k);
      StepReachable(env, id, c, op, k);
    }
  }

  lemma NothingLoads()
    ensures Loads(NoCore)
  {}

  /** As long as every time that is stored has a year from 0000 to 9999, a restart after
      any run, with any step of it failing, finds exactly the index the process had. */
  lemma RestartFindsAll(env: Env, id: string, run: seq<Core>)
    requires StampedRun(env, id, run)
    ensures Loaded(id, run[|run| - 1].folder) == Ok(run[|run| - 1].tx)
  {
    hide Good, Reachable, Loaded;
    RunLoads(env, id, run);
    LoadRebuilds(env, id, run[|run| - 1]);
  }

  // --- The condition is needed ------------------------------------------------------------

  const LAST_DAY := Calendar.Date(9999, 12, 31)

  lemma EndOfTime()
    ensures Calendar.Valid(LAST_DAY)
    ensures var t := Calendar.DayNumber(LAST_DAY) * Time.DAY;
            Time.InRange(t) && Time.InRange(t + 1) && !Time.InRange(t + Time.DAY)
  {
    hide Calendar.DateOf;
    var n := Calendar.DayNumber(LAST_DAY);
    var t := n * Time.DAY;
    assert t / Time.DAY == n && (t + 1) / Time.DAY == n && (t + Time.DAY) / Time.DAY == n + 1;
    Calendar.DateUnique(Calendar.DateOf(n), LAST_DAY);
    Calendar.DayNumberCounts(LAST_DAY);
    Calendar.DateUnique(Calendar.DateOf(n + 1), Calendar.Date(10000, 1, 1));
  }

  /** A peer may push a transaction created on the last day of 9999. It is stored and read
      back; but once an administrator gives it one day of retention, its meta.json holds a
      year that load() refuses. */
  lemma RetentionCanSpoilLoad(env: Env, id: string, peer: string, user: string) returns (c: Core, c': Core)
    requires ValidId(id) && user != "" && env.destination(user, "") == None && env.maxDays >= 1
    ensures Reachable(env, id, c) && Loaded(id, c.folder) == Ok(c.tx) && c.tx.Some?
    ensures Reachable(env, id, c') && Loaded(id, c'.folder) != Ok(c'.tx) && c'.tx.Some?
  {
    hide Good, Reachable, Time.InRange, EncodeMeta, DecodeMeta, Loaded, ValidId;
    EndOfTime();
    var t := Calendar.DayNumber(LAST_DAY) * Time.DAY;
    var op := Receive(Caller(peer, true, false), id, ReceiveRequest(user, user, t, t + 1, ""));
    assert OpOk(op, id);
    var p := Program(env, op, NoCore);
    assert p == [Insert(LastDayTx(peer, id, user, t))];
    NoCoreReachable(env, id);
    c := Run(NoCore, p[..1]);
    StepReachable(env, id, NoCore, op, 1);
    OneStep(NoCore, p);
    LoadRebuilds(env, id, c);
    var admin := SetRetention(Caller("", false, true), 1);
    var q := Program(env, admin, c);
    c' := Run(c, q[..1]);
    StepReachable(env, id, c, admin, 1);
    OneStep(c, q);
    LoadRebuilds(env, id, c');
  }

  function LastDayTx(peer: string, id: string, user: string, t: int): Transaction {
    ReceivedTx(Caller(peer, true, false), id, ReceiveRequest(user, user, t, t + 1, ""))
  }
}
