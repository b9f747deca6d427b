/** What holds across whole interleaved runs: committed transactions never
    change, and the business log tells the true story. */
module History {
  import opened Basics
  import opened FileList
  import opened Transactions
  import StorageTree
  import opened MetaCodec
  import opened Core
  import opened Sections
  import opened Cells

  // --- Immutability ------------------------------------------------------------

  /** From a state of a run to a later one: a destroyed id stays gone, a stored
      transaction either is the same one, frozen as far as its state demands, or
      has been destroyed in between. */
  ghost predicate Follows(c: Cell, c': Cell) {
    && Frozen(c.core, c'.core)
    && (c.burned ==> c'.burned)
    && (c.core.tx.Some? && c'.core.tx.None? ==> c'.burned)
  }

  lemma FollowsTransitive(env: Env, id: string, a: Cell, b: Cell, c: Cell)
    requires CellInv(env, id, b) && CellInv(env, id, c) && Follows(a, b) && Follows(b, c)
    ensures Follows(a, c)
  {
    hide WorkInv, OneMutex, Frozen;
    if a.core.tx.Some? && b.core.tx.Some? {
      FrozenTransitive(a.core, b.core, c.core);
    } else {
      FrozenVacuous(a.core, c.core);
    }
  }

  lemma FrozenVacuous(a: Core, c: Core)
    ensures a.tx.None? || c.tx.None? ==> Frozen(a, c)
  {}

  lemma FrozenSelf(env: Env, id: string, a: Core)
    requires Good(env, id, a)
    ensures Frozen(a, a)
  {}

  lemma StepFollows(env: Env, id: string, c: Cell, c': Cell, step: Step)
    requires CellInv(env, id, c) && Next(env, id, c, c', step)
    ensures Follows(c, c')
  {
    hide Good, Reachable, Run, Program, OpOk, Frozen, Do, LockInv;
    FrozenSelf(env, id, c.core);
    if step.Work? {
      var call := c.calls[step.i];
      assert CallInv(env, id, c.core, call);
      WorkFrozen(env, id, c, c', step.i);
    }
  }

  lemma WorkFrozen(env: Env, id: string, c: Cell, c': Cell, i: nat)
    requires CellInv(env, id, c) && Next(env, id, c, c', Work(i))
    ensures Frozen(c.core, c'.core)
    ensures c.core.tx.Some? && c'.core.tx.None? ==> c'.burned
  {
    hide Good, Reachable, Run, Program, OpOk, Frozen, Do, LockInv;
    var call := c.calls[i];
    assert CallInv(env, id, c.core, call);
    var k, p := call.done, ProgramFor(env, call);
    WorkOnRecord(env, id, c, c', i);
    ProgramShape(env, call.op, call.base, k);
    if Live(call) {
      MicroFrozen(env, id, call.op, call.base, k);
    } else if p[k].Insert? {
      FrozenVacuous(c.core, c'.core);
    } else {
      FrozenSelf(env, id, c.core);
    }
    if c.core.tx.Some? && !p[k].RemoveAll? {
      KeepsRecord(c.core, p[k]);
    }
  }

  /** Immutability over whole runs: once a transaction is past open, no later
      state of any interleaving shows another file list, another commit time or
      other stored bytes; sender, target, comment and creation time never change at
      all, and the state only moves forward. */
  lemma {:induction false} RunFrozen(env: Env, id: string, run: seq<Cell>, i: nat)
    requires CellRun(env, id, run) && i < |run|
    ensures Follows(run[i], run[|run| - 1])
    decreases |run|
  {
    hide Next, CellInv, Follows;
    var n := |run|;
    if i == n - 1 {
      RunKeeps(env, id, run);
      SelfFollows(env, id, run[i]);
    } else {
      var front := run[..n - 1];
      RunFrozen(env, id, front, i);
      RunKeeps(env, id, front);
      RunKeeps(env, id, run);
      assert CellStep(env, id, run[n - 2], run[n - 1]);
      var step :| Next(env, id, run[n - 2], run[n - 1], step);
      StepFollows(env, id, run[n - 2], run[n - 1], step);
      FollowsTransitive(env, id, run[i], run[n - 2], run[n - 1]);
    }
  }

  lemma SelfFollows(env: Env, id: string, c: Cell)
    requires CellInv(env, id, c)
    ensures Follows(c, c)
  {
    hide Good, Frozen, Reachable, LockInv;
    FrozenSelf(env, id, c.core);
  }

  /** An upload begun while the transaction was open and finished after the
      commit: refused, and its section performs no step at all. */
  lemma LateUploadDoesNothing(env: Env, op: Op, c: Core)
    requires op.Finish? && c.tx.Some? && c.folder.Some? && c.tx.value.state != Open
    ensures Program(env, op, c) == []
    ensures Refusal(env, op, c) == Some(if c.tx.value.state == Expired then Gone else Conflict)
  {
    hide StorageTree.Clash;
  }

  // --- The business log ----------------------------------------------------------

  /** What a reader of the log would take the transaction to be. */
  datatype View = Standing(state: State, files: seq<FileEntry>) | GoneForGood

  function Told(v: View, e: Event): View {
    if v.GoneForGood? then v
    else
      match e
      case FileAdded(entry) => v.(files := Upsert(v.files, entry))
      case FileRemoved(path) => v.(files := Erase(v.files, path))
      case CommittedEv(_, _) => v.(state := Committed)
      case ReceivedEv(_, _) => v.(state := Committed)
      case Forwarded(_, _) => v.(state := Delivered)
      case ExpiredEv => GoneForGood
      case AdminDeleted => GoneForGood
      case TxCreated => v
      case RetentionChanged(_) => v
  }

  /** A peer's push leaves no record until its first file, so the story of every
      id begins with an open transaction without files. */
  function Replay(log: seq<Event>): View {
    if log == [] then Standing(Open, []) else Told(Replay(log[..|log| - 1]), log[|log| - 1])
  }

  lemma ReplayOne(log: seq<Event>, e: Event)
    ensures Replay(log + [e]) == Told(Replay(log), e)
  {
    assert (log + [e])[..|log|] == log;
  }

  /** The log tells the state and the file list of the stored transaction, and
      that a destroyed one is gone. A transaction marked expired whose folder could
      not be deleted yet has no record of that. */
  ghost predicate Faithful(core: Core, burned: bool, v: View) {
    && (core.tx.Some? ==> v.Standing?)
    && (core.tx.Some? && core.tx.value.state != Expired ==> v == Standing(core.tx.value.state, core.tx.value.files))
    && (core.tx.None? && !burned ==> v == Standing(Open, []))
    && (core.tx.None? && burned ==> v == GoneForGood)
  }

  /** The story is faithful, or will be with the record a call has already earned. */
  ghost predicate LogInv(env: Env, c: Cell) {
    && ((forall i :: i in c.calls ==> !RecordPending(env, c.calls[i])) ==>
          Faithful(c.core, c.burned, Replay(c.story)))
    && (forall i :: i in c.calls && RecordPending(env, c.calls[i]) ==>
          Faithful(c.core, c.burned, Told(Replay(c.story), PendingEvent(env, c.calls[i]))))
  }

  /** Until a live call has written its record, the story tells what the call had read. */
  ghost predicate ReadInv(env: Env, c: Cell) {
    forall i :: i in c.calls && Unrecorded(env, c.calls[i]) ==> Tells(Replay(c.story), c.calls[i].base.tx.value)
  }

  predicate Unrecorded(env: Env, call: Call) {
    call.Inside? && call.base.tx.Some? && call.done < |ProgramFor(env, call)|
  }

  predicate Tells(v: View, tx: Transaction) {
    v.Standing? && (tx.state != Expired ==> v == Standing(tx.state, tx.files))
  }

  /** One micro step of a section, with the log record that must follow it: the
      record comes exactly after the save it describes. */
  lemma StepTold(env: Env, id: string, op: Op, c: Core, k: nat, burned: bool, v: View)
    requires Good(env, id, c) && OpOk(op, id) && k < |Program(env, op, c)| && !op.Create?
    requires !Program(env, op, c)[k].Record? && (Program(env, op, c)[k].Insert? ==> !burned)
    requires burned ==> Run(c, Program(env, op, c)[..k]) == NoCore
    requires Faithful(Run(c, Program(env, op, c)[..k]), burned, v)
    ensures var p := Program(env, op, c);
            var now, gone := Run(c, p[..k + 1]), burned || p[k].RemoveAll?;
            if k + 1 < |p| && p[k + 1].Record? then Faithful(now, gone, Told(v, p[k + 1].event))
            else Faithful(now, gone, v)
  {
    hide Good, Run, Program, OpOk, Upsert, Erase, EncodeMeta, EncodeManifest;
    var p := Program(env, op, c);
    RunStep(c, p, k);
    NoSteps(c, p);
    PrefixTx(env, id, op, c, k);
    match op {
      case Receive(_, _, _) => InsertProgram(env, op, c); NothingStored(env, id, c);
      case Begin(_) => BeginEmpty(env, op, c);
      case Finish(_, _, _) => FinishProgram(env, op, c); GoodParts(env, id, c); if k > 0 { FourSteps(c, p, k); }
      case RemoveFile(_, _, _) => RemoveProgram(env, op, c); GoodParts(env, id, c); if k > 0 { ThreeSteps(c, p, k); }
      case Commit(_, _) => CommitProgram(env, op, c); GoodParts(env, id, c); if k > 0 { ThreeSteps(c, p, k); }
      case MarkDelivered(_) => DeliverProgram(env, op, c); GoodParts(env, id, c);
      case SetRetention(_, _) => DeliverProgram(env, op, c); GoodParts(env, id, c);
      case Destroy(_) => DestroyProgram(env, op, c); GoodParts(env, id, c);
    }
  }

  /** Calls other than i are neither pending before nor after i works. */
  lemma OnlyOnePending(env: Env, id: string, c: Cell, i: nat, j: nat)
    requires CellInv(env, id, c) && i in c.calls && j in c.calls
    requires RecordPending(env, c.calls[j]) && c.calls[i].Inside?
    ensures i == j
  {
    hide Good, Reachable, Run, Program, OpOk;
    OneLive(c, j, i);
  }

  lemma SectionWorkTold(env: Env, id: string, c: Cell, c': Cell, i: nat)
    requires CellInv(env, id, c) && LogInv(env, c) && Next(env, id, c, c', Work(i)) && c.calls[i].Inside?
    ensures LogInv(env, c')
  {
    hide Good, Reachable, Run, Program, OpOk, Faithful, Told, Do;
    var call := c.calls[i];
    assert CallInv(env, id, c.core, call);
    var k, p := call.done, ProgramFor(env, call);
    ProgramShape(env, call.op, call.base, k);
    if k + 1 < |p| { ProgramShape(env, call.op, call.base, k + 1); }
    forall j | j in c.calls && j != i ensures !RecordPending(env, c.calls[j]) {
      if RecordPending(env, c.calls[j]) { OnlyOnePending(env, id, c, i, j); }
    }
    assert forall j :: j in c'.calls && j != i ==> c'.calls[j] == c.calls[j];
    assert Live(c'.calls[i]);
    WorkOnRecord(env, id, c, c', i);
    if p[k].Record? {
      assert RecordPending(env, call);
      RecordKeeps(c.core, p[k]);
      ReplayOne(c.story, p[k].event);
    } else {
      assert !RecordPending(env, call);
      NoSteps(call.base, p);
      if !Live(call) { NothingStored(env, id, c.core); NothingStored(env, id, call.base); }
      assert c.core == Run(call.base, p[..k]);
      StepTold(env, id, call.op, call.base, k, c.burned, Replay(c.story));
    }
  }

  lemma CreateWorkTold(env: Env, id: string, c: Cell, c': Cell, i: nat)
    requires CellInv(env, id, c) && LogInv(env, c) && Next(env, id, c, c', Work(i)) && c.calls[i].Creating?
    ensures LogInv(env, c') && Replay(c'.story) == Replay(c.story)
  {
    hide Good, Reachable, Run, Program, OpOk, Do;
    var call := c.calls[i];
    assert CallInv(env, id, c.core, call);
    var k, p := call.done, ProgramFor(env, call);
    InsertProgram(env, call.op, call.base);
    assert forall j :: j in c'.calls && j != i ==> c'.calls[j] == c.calls[j];
    if p[k].Insert? {
      assert forall j :: j in c.calls ==> !Live(c.calls[j]);
      CreatedOpen(env, id, c.core, p[k]);
    } else {
      RecordKeeps(c.core, p[k]);
      ReplayOne(c.story, TxCreated);
    }
  }

  lemma CreatedOpen(env: Env, id: string, core: Core, m: Micro)
    requires Good(env, id, core) && core.tx.None? && m.Insert? && m.tx.state == Open && m.tx.files == []
    ensures Do(core, m).tx.Some? && Do(core, m).tx.value.state == Open && Do(core, m).tx.value.files == []
  {}

  lemma StepKeepsLog(env: Env, id: string, c: Cell, c': Cell, step: Step)
    requires CellInv(env, id, c) && LogInv(env, c) && Next(env, id, c, c', step)
    ensures LogInv(env, c')
  {
    if step.Work? {
      if c.calls[step.i].Inside? {
        SectionWorkTold(env, id, c, c', step.i);
      } else {
        CreateWorkTold(env, id, c, c', step.i);
      }
    } else if step.Restart? {
      RestartTold(env, id, c, c', step.dying);
    } else {
      QuietStep(env, id, c, c', step);
    }
  }

  lemma RestartTold(env: Env, id: string, c: Cell, c': Cell, dying: Option<nat>)
    requires CellInv(env, id, c) && LogInv(env, c) && Next(env, id, c, c', Restart(dying))
    ensures LogInv(env, c')
  {
    hide Good, Reachable, Run, Program, OpOk, Faithful, Told, LockInv, WorkInv;
    if dying.Some? {
      ReplayOne(c.story, PendingEvent(env, c.calls[dying.value]));
    }
  }

  lemma QuietStep(env: Env, id: string, c: Cell, c': Cell, step: Step)
    requires CellInv(env, id, c) && LogInv(env, c) && Next(env, id, c, c', step) && !step.Work? && !step.Restart?
    ensures LogInv(env, c')
  {
    hide Good, Reachable, Run, Program, OpOk, Faithful, Told, Replay, LockInv, WorkInv;
    if step.Find? { FreshNotPending(env, c'.calls[step.i]); }
    forall j ensures j in c'.calls && RecordPending(env, c'.calls[j]) <==> j in c.calls && RecordPending(env, c.calls[j])
    {
      if j != step.i { assert j in c.calls <==> j in c'.calls; }
    }
    assert forall j :: j in c'.calls && RecordPending(env, c'.calls[j]) ==> c'.calls[j] == c.calls[j];
  }

  lemma FreshNotPending(env: Env, call: Call)
    requires call.Inside? && call.done == 0
    ensures !RecordPending(env, call)
  {
    if ProgramFor(env, call) != [] {
      ProgramShape(env, call.op, call.base, 0);
    }
  }

  // --- What live calls have read --------------------------------------------------------

  lemma FindReads(env: Env, id: string, c: Cell, c': Cell, i: nat)
    requires CellInv(env, id, c) && CellInv(env, id, c') && LogInv(env, c) && ReadInv(env, c)
    requires Next(env, id, c, c', Find(i))
    ensures ReadInv(env, c')
  {
    hide Good, Reachable, Run, Program, OpOk, Told, Replay, WorkInv;
    assert forall j :: j in c'.calls && j != i ==> c'.calls[j] == c.calls[j];
    if Live(c'.calls[i]) {
      forall j | j in c.calls && j != i ensures !Live(c.calls[j]) {
        if Live(c.calls[j]) { OneLive(c', i, j); }
      }
    }
  }

  lemma WorkReads(env: Env, id: string, c: Cell, c': Cell, i: nat)
    requires CellInv(env, id, c) && LogInv(env, c) && ReadInv(env, c) && Next(env, id, c, c', Work(i))
    ensures ReadInv(env, c')
  {
    hide Good, Reachable, Run, Program, OpOk, Told, Do, Faithful, LogInv;
    var call := c.calls[i];
    assert CallInv(env, id, c.core, call);
    var k, p := call.done, ProgramFor(env, call);
    ProgramShape(env, call.op, call.base, k);
    assert forall j :: j in c'.calls && j != i ==> c'.calls[j] == c.calls[j];
    if call.Creating? {
      CreateWorkTold(env, id, c, c', i);
    } else if p[k].Record? {
      forall j | j in c'.calls && j != i ensures !Unrecorded(env, c'.calls[j]) {
        if Unrecorded(env, c'.calls[j]) { OneLive(c, j, i); }
      }
    }
  }

  lemma StepReads(env: Env, id: string, c: Cell, c': Cell, step: Step)
    requires CellInv(env, id, c) && CellInv(env, id, c') && LogInv(env, c) && ReadInv(env, c)
    requires Next(env, id, c, c', step)
    ensures ReadInv(env, c')
  {
    hide Good, Reachable, Run, Program, OpOk, Told, Replay, LogInv, CellInv;
    if step.Find? {
      FindReads(env, id, c, c', step.i);
    } else if step.Work? {
      WorkReads(env, id, c, c', step.i);
    }
  }

  // --- The log and the story -----------------------------------------------------------------

  /** log is the story with n of its events left out. */
  ghost predicate LeavesOut(log: seq<Event>, story: seq<Event>, n: nat)
    decreases |story|
  {
    if story == [] then log == [] && n == 0
    else
      var front, last := story[..|story| - 1], story[|story| - 1];
      || (log != [] && log[|log| - 1] == last && LeavesOut(log[..|log| - 1], front, n))
      || (n > 0 && LeavesOut(log, front, n - 1))
  }

  lemma LeavesOutMore(log: seq<Event>, story: seq<Event>, n: nat, e: Event)
    requires LeavesOut(log, story, n)
    ensures LeavesOut(log + [e], story + [e], n) && LeavesOut(log, story + [e], n + 1)
  {
    assert (log + [e])[..|log|] == log && (story + [e])[..|story|] == story;
  }

  lemma {:induction false} LeavesOutNone(log: seq<Event>, story: seq<Event>)
    requires LeavesOut(log, story, 0)
    ensures log == story
    decreases |story|
  {
    if story != [] {
      LeavesOutNone(log[..|log| - 1], story[..|story| - 1]);
      assert log == log[..|log| - 1] + [log[|log| - 1]] && story == story[..|story| - 1] + [story[|story| - 1]];
    }
  }

  lemma StepLeavesOut(env: Env, id: string, c: Cell, c': Cell, step: Step)
    requires LeavesOut(c.log, c.story, c.lost) && Next(env, id, c, c', step)
    ensures LeavesOut(c'.log, c'.story, c'.lost)
  {
    hide Program, OpOk, Do, LeavesOut;
    if step.Work? {
      var m := ProgramFor(env, c.calls[step.i])[c.calls[step.i].done];
      if m.Record? { LeavesOutMore(c.log, c.story, c.lost, m.event); }
    } else if step.Restart? && step.dying.Some? {
      LeavesOutMore(c.log, c.story, c.lost, PendingEvent(env, c.calls[step.dying.value]));
    }
  }

  lemma {:induction false} RunKeepsLog(env: Env, id: string, run: seq<Cell>)
    requires CellRun(env, id, run)
    ensures var c := run[|run| - 1]; LogInv(env, c) && ReadInv(env, c) && LeavesOut(c.log, c.story, c.lost)
  {
    hide CellInv, Next;
    if |run| > 1 {
      hide LogInv, ReadInv, LeavesOut;
      var n := |run|;
      RunKeepsLog(env, id, run[..n - 1]);
      RunKeeps(env, id, run[..n - 1]);
      RunKeeps(env, id, run);
      assert CellStep(env, id, run[n - 2], run[n - 1]);
      var step :| Next(env, id, run[n - 2], run[n - 1], step);
      StepKeepsLog(env, id, run[n - 2], run[n - 1], step);
      StepReads(env, id, run[n - 2], run[n - 1], step);
      StepLeavesOut(env, id, run[n - 2], run[n - 1], step);
    }
  }

  /** The audit log is faithful: in every state of every run, with any steps failing and any
      restarts, replaying the story gives exactly the stored state and file list, unless a call
      stands between a save and its record, which it then cannot fail to write. And the log is
      the story, less one record for each time the process died just there. */
  lemma AuditLogIsFaithful(env: Env, id: string, run: seq<Cell>)
    requires CellRun(env, id, run)
    ensures var c := run[|run| - 1];
            (forall i :: i in c.calls ==> !RecordPending(env, c.calls[i])) ==>
              Faithful(c.core, c.burned, Replay(c.story))
    ensures var c := run[|run| - 1];
            forall i :: i in c.calls && RecordPending(env, c.calls[i]) ==>
              Faithful(c.core, c.burned, Told(Replay(c.story), PendingEvent(env, c.calls[i])))
    ensures var c := run[|run| - 1];
            LeavesOut(c.log, c.story, c.lost) && (c.lost == 0 ==> c.log == c.story)
  {
    hide Next, Faithful, LeavesOut;
    RunKeepsLog(env, id, run);
    if run[|run| - 1].lost == 0 {
      LeavesOutNone(run[|run| - 1].log, run[|run| - 1].story);
    }
  }

  // --- Dying between a save and its record -----------------------------------------------------

  /** The record of this call would tell a reader of the log nothing new: a change of
      retention, or a file stored again with the same content. */
  predicate TellsNothing(env: Env, op: Op, tx: Transaction) {
    op.SetRetention? || (op.Finish? && NewEntry(env, op.path, op.data) in tx.files)
  }

  /** What dying there costs, exactly: a log that was complete stays faithful after the restart
      if and only if the lost record would have told nothing new. */
  lemma TornExactly(env: Env, id: string, run: seq<Cell>, i: nat, c': Cell)
    requires CellRun(env, id, run) && run[|run| - 1].lost == 0
    requires Next(env, id, run[|run| - 1], c', Restart(Some(i)))
    ensures run[|run| - 1].calls[i].base.tx.Some?
    ensures var call := run[|run| - 1].calls[i];
            Faithful(c'.core, c'.burned, Replay(c'.log)) <==> TellsNothing(env, call.op, call.base.tx.value)
  {
    hide CellInv, Told, Replay, TellsNothing, LeavesOut;
    var c := run[|run| - 1];
    var call := c.calls[i];
    RunKeepsLog(env, id, run);
    RunKeeps(env, id, run);
    LeavesOutNone(c.log, c.story);
    PendingNotExpired(env, id, c, i);
    PendingReads(env, id, c, i);
    PendingNews(env, id, c, i, Replay(c.story));
  }

  lemma PendingReads(env: Env, id: string, c: Cell, i: nat)
    requires CellInv(env, id, c) && i in c.calls && RecordPending(env, c.calls[i])
    ensures Unrecorded(env, c.calls[i])
  {
    hide Good, Reachable, Run, Program, OpOk;
    var call := c.calls[i];
    assert CallInv(env, id, c.core, call);
    ProgramShape(env, call.op, call.base, call.done);
  }

  /** Which records tell something new to a reader who knows what the call had read. */
  lemma PendingNews(env: Env, id: string, c: Cell, i: nat, v: View)
    requires CellInv(env, id, c) && i in c.calls && RecordPending(env, c.calls[i])
    requires c.calls[i].base.tx.Some? && Tells(v, c.calls[i].base.tx.value)
    ensures Told(v, PendingEvent(env, c.calls[i])) == v <==> TellsNothing(env, c.calls[i].op, c.calls[i].base.tx.value)
  {
    hide Good, Reachable, Run, Program, OpOk, Upsert, Erase;
    var call := c.calls[i];
    assert CallInv(env, id, c.core, call);
    var op, base, k, p := call.op, call.base, call.done, ProgramFor(env, call);
    ProgramShape(env, op, base, k);
    GoodParts(env, id, base);
    match op {
      case Begin(_) => BeginEmpty(env, op, base);
      case Finish(_, _, _) => FinishProgram(env, op, base); UpsertSame(base.tx.value.files, NewEntry(env, op.path, op.data));
      case RemoveFile(_, _, _) => RemoveProgram(env, op, base); RemoveFound(env, op, base);
      case Commit(_, _) => CommitProgram(env, op, base);
      case MarkDelivered(_) => DeliverProgram(env, op, base);
      case SetRetention(_, _) => DeliverProgram(env, op, base);
      case Destroy(_) => DestroyProgram(env, op, base);
      case Receive(_, _, _) => InsertProgram(env, op, base);
    }
  }

  /** Storing an entry changes the list unless it is there already. */
  lemma UpsertSame(files: seq<FileEntry>, e: FileEntry)
    requires Sorted(files)
    ensures Upsert(files, e) == files <==> e in files
  {
    UpsertMembers(files, e);
    if e in files {
      forall x ensures x in Upsert(files, e) <==> x in files {
        if x in files && x.path == e.path { SamePathSameEntry(files, x, e); }
      }
      SortedUnique(Upsert(files, e), files);
    }
  }

  /** A removal that goes ahead removes an entry. */
  lemma RemoveFound(env: Env, op: Op, c: Core)
    requires op.RemoveFile? && Program(env, op, c) != [] && c.tx.Some?
    ensures |Erase(c.tx.value.files, op.path)| < |c.tx.value.files|
  {}

  lemma PendingNotExpired(env: Env, id: string, c: Cell, i: nat)
    requires CellInv(env, id, c) && i in c.calls && RecordPending(env, c.calls[i])
    ensures c.core.tx.Some? ==> c.core.tx.value.state != Expired
  {
    hide Good, Reachable, Run, Program, OpOk, Upsert, Erase, EncodeMeta, EncodeManifest;
    var call := c.calls[i];
    assert CallInv(env, id, c.core, call);
    var op, base, k, p := call.op, call.base, call.done, ProgramFor(env, call);
    ProgramShape(env, op, base, k);
    RunStep(base, p, k - 1);
    NoSteps(base, p);
    match op {
      case Begin(_) => BeginEmpty(env, op, base);
      case Finish(_, _, _) => FinishProgram(env, op, base); GoodParts(env, id, base); FourSteps(base, p, k);
      case RemoveFile(_, _, _) => RemoveProgram(env, op, base); GoodParts(env, id, base); ThreeSteps(base, p, k);
      case Commit(_, _) => CommitProgram(env, op, base); GoodParts(env, id, base); ThreeSteps(base, p, k);
      case MarkDelivered(_) => DeliverProgram(env, op, base); GoodParts(env, id, base);
      case SetRetention(_, _) => DeliverProgram(env, op, base); GoodParts(env, id, base);
      case Destroy(_) => DestroyProgram(env, op, base); GoodParts(env, id, base);
      case Receive(_, _, _) => InsertProgram(env, op, base);
    }
  }
}
