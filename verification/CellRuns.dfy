/** Interleaved runs from the very start: one that ends with a mutex about to be dropped, and
    one in which the process dies between a save and its log record. */
module CellRuns {
  import opened Basics
  import opened FileList
  import opened Transactions
  import opened MetaCodec
  import opened StorageTree
  import Calendar
  import Time
  import Paths
  import opened Core
  import opened Sections
  import opened Cells
  import opened History

  ghost predicate Reached(env: Env, id: string, c: Cell) {
    exists run :: CellRun(env, id, run) && run[|run| - 1] == c
  }

  lemma StepReached(env: Env, id: string, c: Cell, c': Cell, step: Step)
    requires Reached(env, id, c) && Next(env, id, c, c', step)
    ensures Reached(env, id, c')
  {
    hide Next;
    var run :| CellRun(env, id, run) && run[|run| - 1] == c;
    var longer := run + [c'];
    assert CellStep(env, id, c, c');
    forall i | 0 <= i < |longer| - 1 ensures CellStep(env, id, longer[i], longer[i + 1]) {
      assert i < |run| - 1 ==> longer[i] == run[i] && longer[i + 1] == run[i + 1];
    }
    assert CellRun(env, id, longer) && longer[|longer| - 1] == c';
  }

  // --- A transaction is created ---------------------------------------------------------

  predicate Creates(env: Env, id: string, create: Op) {
    create.Create? && OpOk(create, id) && Refusal(env, create, NoCore).None?
  }

  function NewTx(env: Env, create: Op): Transaction
    requires create.Create?
  {
    CreatedTx(env, create.caller, create.id, create.request, create.now)
  }

  function NewCore(env: Env, create: Op): Core
    requires create.Create?
  {
    Core(Some(NewTx(env, create)), Some(Folder(EncodeMeta(NewTx(env, create)), None, EmptyTree)))
  }

  /** Nobody is at work, and the transaction is there. */
  function Created(env: Env, create: Op): Cell
    requires create.Create?
  {
    Cell(NewCore(env, create), [TxCreated], [TxCreated], 0, false, None, 0, map[])
  }

  lemma CreatedIsReached(env: Env, id: string, create: Op)
    requires Creates(env, id, create)
    ensures Reached(env, id, Created(env, create))
  {
    hide OpOk, Refusal, CreatedTx, EncodeMeta, Reached;
    assert Reached(env, id, NewCell) by { NewIsReached(env, id); }
    assert Program(env, create, NoCore) == [Insert(NewTx(env, create)), Record(TxCreated)];
    var c1 := NewCell.(calls := map[0 := Creating(create, NoCore, 0)]);
    assert NewCell.calls[0 := Creating(create, NoCore, 0)] == c1.calls;
    StepReached(env, id, NewCell, c1, StartCreate(0, create));
    var c2 := c1.(core := NewCore(env, create), calls := map[0 := Creating(create, NoCore, 1)]);
    assert c1.calls[0 := Creating(create, NoCore, 1)] == c2.calls;
    StepReached(env, id, c1, c2, Work(0));
    var c3 := c2.(log := [TxCreated], story := [TxCreated], calls := map[0 := Creating(create, NoCore, 2)]);
    assert c2.calls[0 := Creating(create, NoCore, 2)] == c3.calls && [] + [TxCreated] == [TxCreated];
    StepReached(env, id, c2, c3, Work(0));
    assert c3.calls - {0} == map[];
    StepReached(env, id, c3, Created(env, create), Leave(0));
  }

  lemma NewIsReached(env: Env, id: string)
    ensures Reached(env, id, NewCell)
  {
    assert CellRun(env, id, [NewCell]);
  }

  /** A call that has just looked at the created transaction. */
  function Looking(env: Env, create: Op, op: Op): Cell
    requires create.Create?
  {
    Created(env, create).(lock := Some(0), next := 1, calls := map[1 := Inside(op, 0, NewCore(env, create), 0)])
  }

  lemma LookingIsReached(env: Env, id: string, create: Op, op: Op)
    requires Creates(env, id, create) && OpOk(op, id) && !op.Create?
    ensures Reached(env, id, Looking(env, create, op))
  {
    hide OpOk, Refusal, CreatedTx, EncodeMeta, Reached, Program;
    CreatedIsReached(env, id, create);
    var c0 := Created(env, create);
    var c1 := c0.(lock := Some(0), next := 1, calls := map[1 := Waiting(op, 0)]);
    assert c0.calls[1 := Waiting(op, 0)] == c1.calls;
    StepReached(env, id, c0, c1, LockFor(1, op));
    var c2 := c1.(calls := map[1 := Holding(op, 0)]);
    assert c1.calls[1 := Holding(op, 0)] == c2.calls;
    StepReached(env, id, c1, c2, Acquire(1));
    var c3 := Looking(env, create, op);
    assert c2.calls[1 := c3.calls[1]] == c3.calls;
    StepReached(env, id, c2, c3, Find(1));
  }

  // --- It is destroyed ----------------------------------------------------------------------

  /** The state in which a reuse of the id breaks exclusion is reached by an ordinary run. */
  lemma RetiringIsReached(env: Env, id: string, create: Op)
    requires Creates(env, id, create)
    ensures Reached(env, id, AboutToRetire([TxCreated, ExpiredEv]))
  {
    hide OpOk, Refusal, CreatedTx, EncodeMeta, Reached, Program;
    var op, base := Destroy(false), NewCore(env, create);
    assert OpOk(op, id) by { DestroyIsOk(id); }
    LookingIsReached(env, id, create, op);
    DestroyIs(env, create);
    var gone := NewTx(env, create).(state := Expired);
    var c0 := Looking(env, create, op);
    var c1 := c0.(core := Do(base, SaveMeta(gone)), calls := map[1 := Inside(op, 0, base, 1)]);
    assert c0.calls[1 := Inside(op, 0, base, 1)] == c1.calls;
    StepReached(env, id, c0, c1, Work(1));
    var c2 := c1.(core := NoCore, burned := true, calls := map[1 := Inside(op, 0, base, 2)]);
    assert c1.calls[1 := Inside(op, 0, base, 2)] == c2.calls;
    StepReached(env, id, c1, c2, Work(1));
    var log := [TxCreated, ExpiredEv];
    var c3 := c2.(log := log, story := log, calls := map[1 := Inside(op, 0, base, 3)]);
    assert c2.calls[1 := Inside(op, 0, base, 3)] == c3.calls && [TxCreated] + [ExpiredEv] == log;
    StepReached(env, id, c2, c3, Work(1));
    assert c3.calls[1 := Retiring] == map[1 := Retiring];
    StepReached(env, id, c3, AboutToRetire(log), Leave(1));
  }

  lemma DestroyIsOk(id: string)
    ensures OpOk(Destroy(false), id)
  {}

  lemma DestroyIs(env: Env, create: Op)
    requires create.Create?
    ensures Program(env, Destroy(false), NewCore(env, create))
            == [SaveMeta(NewTx(env, create).(state := Expired)), RemoveAll, Record(ExpiredEv)]
  {
    hide EncodeMeta;
  }

  // --- The process dies ----------------------------------------------------------------------

  /** A commit of the empty transaction, up to just before its record. */
  lemma CommitStops(env: Env, id: string, create: Op, now: int) returns (c: Cell)
    requires Creates(env, id, create)
    ensures Reached(env, id, c) && c.lost == 0 && !c.burned && c.log == [TxCreated] == c.story
    ensures c.core.tx == Some(NewTx(env, create).(state := Committed, committedAt := Some(now)))
    ensures 1 in c.calls && RecordPending(env, c.calls[1]) && PendingEvent(env, c.calls[1]) == CommittedEv(0, 0)
  {
    hide OpOk, Refusal, EncodeMeta, EncodeManifest, Reached, Program;
    var op, base := Commit(create.caller, now), NewCore(env, create);
    assert OpOk(op, id) by { CommitIsOk(id, op); }
    LookingIsReached(env, id, create, op);
    CommitIs(env, id, create, now);
    var done := NewTx(env, create).(state := Committed, committedAt := Some(now));
    var c0 := Looking(env, create, op);
    var c1 := c0.(core := Do(base, SaveManifest([])), calls := map[1 := Inside(op, 0, base, 1)]);
    assert c0.calls[1 := Inside(op, 0, base, 1)] == c1.calls;
    StepReached(env, id, c0, c1, Work(1));
    c := c1.(core := Do(c1.core, SaveMeta(done)), calls := map[1 := Inside(op, 0, base, 2)]);
    assert c1.calls[1 := Inside(op, 0, base, 2)] == c.calls;
    StepReached(env, id, c1, c, Work(1));
  }

  lemma CommitIsOk(id: string, op: Op)
    requires op.Commit?
    ensures OpOk(op, id)
  {}

  lemma CommitIs(env: Env, id: string, create: Op, now: int)
    requires Creates(env, id, create)
    ensures Program(env, Commit(create.caller, now), NewCore(env, create))
            == [SaveManifest([]), SaveMeta(NewTx(env, create).(state := Committed, committedAt := Some(now))),
                Record(CommittedEv(0, 0))]
  {
    hide EncodeMeta, EncodeManifest, CommentOk, Time.ExpiresAt;
    assert HashCheck(env, [], EmptyTree) == None && TotalBytes([]) == 0;
  }

  /** Dying there does break the log: the transaction is committed, and the log still tells of
      an open one; only the story, with the record that was lost, is faithful. */
  lemma TornRun(env: Env, id: string, create: Op, now: int) returns (c: Cell)
    requires Creates(env, id, create)
    requires Time.InRange(create.now) && Time.InRange(NewTx(env, create).expiresAt) && Time.InRange(now)
    ensures Reached(env, id, c) && c.lost == 1 && c.calls == map[]
    ensures !Faithful(c.core, c.burned, Replay(c.log))
    ensures Faithful(c.core, c.burned, Replay(c.story))
  {
    hide OpOk, Refusal, EncodeMeta, EncodeManifest, Reached, Program, Creates, Time.InRange;
    var c0 := CommitStops(env, id, create, now);
    c := c0.(lock := None, next := 0, calls := map[], lost := 1, story := [TxCreated] + [CommittedEv(0, 0)]);
    StepReached(env, id, c0, c, Restart(Some(1)));
    ReplayOne([], TxCreated);
    assert [] + [TxCreated] == [TxCreated];
    ReplayOne([TxCreated], CommittedEv(0, 0));
  }

  // --- Such environments exist -----------------------------------------------------------------

  function DemoEnv(): Env {
    Env((b: Bytes) => seq(32, i => 0), "here", 1, 1, 0, (user: string, server: string) => None)
  }

  const DEMO_ID := "00000000-0000-4000-8000-000000000000"

  const DEMO_CREATE := Create(Caller("v", false, false), DEMO_ID, CreateRequest("u", "", 0, ""), 0)

  lemma DemoCreates()
    ensures Creates(DemoEnv(), DEMO_ID, DEMO_CREATE)
  {
    hide Paths.ValidId;
    DemoIsId();
    assert CommentOk("", 0);
  }

  lemma DemoIsId()
    ensures Paths.ValidId(DEMO_ID)
  {
    assert |DEMO_ID| == 36 && DEMO_ID[8] == '-' && DEMO_ID[13] == '-' && DEMO_ID[18] == '-' && DEMO_ID[23] == '-';
  }

  lemma Seventies(t: int)
    requires 0 <= t <= Time.DAY
    ensures Time.InRange(t)
  {
    hide Calendar.DateOf;
    var n := t / Time.DAY;
    var d := Calendar.Date(1970, 1, n + 1);
    assert Calendar.DayNumber(d) == n;
    Calendar.DateUnique(Calendar.DateOf(n), d);
  }

  /** So the log does get torn in some run. */
  lemma LogCanTear()
    ensures exists env, id, c :: Torn(env, id, c)
  {
    hide DemoEnv, Reached, Faithful, Creates;
    DemoCreates();
    Seventies(0);
    assert NewTx(DemoEnv(), DEMO_CREATE).expiresAt == Time.DAY by { DemoExpiry(); }
    Seventies(Time.DAY);
    var c := TornRun(DemoEnv(), DEMO_ID, DEMO_CREATE, 0);
    assert Torn(DemoEnv(), DEMO_ID, c);
  }

  lemma DemoExpiry()
    ensures NewTx(DemoEnv(), DEMO_CREATE).expiresAt == Time.DAY
  {}

  ghost predicate Torn(env: Env, id: string, c: Cell) {
    Reached(env, id, c) && !Faithful(c.core, c.burned, Replay(c.log))
    && forall i :: i in c.calls ==> !RecordPending(env, c.calls[i])
  }
}
