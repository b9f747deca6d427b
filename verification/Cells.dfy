/** All threads that work on one transaction id, interleaved step by step: the
    per-id mutexes handed out by lock_for, the critical sections of the service,
    the unlocked create, the retirement of the mutex by destroy, disk faults
    anywhere, and process restarts (src/lib/transaction/service.cpp:97-104 and
    every operation below it).

    A call belongs to one id and the records of different ids never meet, so the
    whole server is a family of such cells, one per id. */
module Cells {
  import opened Basics
  import opened FileList
  import opened Transactions
  import opened MetaCodec
  import opened Core
  import opened Sections

  /** Where one call on this id is. */
  datatype Call =
    | Waiting(op: Op, mutex: nat)                          // lock_for has returned
    | Holding(op: Op, mutex: nat)                          // mutex taken, record not read yet
    | Inside(op: Op, mutex: nat, base: Core, done: nat)    // record read as `base`
    | Retiring                                             // destroy: unlocked, locks_ entry still there
    | Creating(op: Op, base: Core, done: nat)              // create takes no lock

  datatype Cell = Cell(
    core: Core,
    log: seq<Event>,          // business log records about this id
    story: seq<Event>,        // the same, with the records that a crash kept from being written
    lost: nat,                // how many those are
    burned: bool,             // the id has been destroyed
    lock: Option<nat>,        // locks_[id]
    next: nat,                // mutexes made so far
    calls: map<nat, Call>)

  const NewCell := Cell(NoCore, [], [], 0, false, None, 0, map[])

  datatype Step =
    | LockFor(i: nat, op: Op)
    | Acquire(i: nat)
    | Find(i: nat)
    | Work(i: nat)
    | Leave(i: nat)
    | EraseLock(i: nat)
    | StartCreate(i: nat, op: Op)
    | Restart(dying: Option<nat>)   // the call that dies between a save and its record, if any

  predicate HasMutex(call: Call) {
    call.Waiting? || call.Holding? || call.Inside?
  }

  predicate Owns(call: Call) {
    call.Holding? || call.Inside?
  }

  predicate SameMutex(a: Call, b: Call) {
    Owns(a) && Owns(b) && a.mutex == b.mutex
  }

  predicate Working(call: Call) {
    call.Inside? || call.Creating?
  }

  function ProgramFor(env: Env, call: Call): seq<Micro>
    requires Working(call)
  {
    Program(env, call.op, call.base)
  }

  /** A call in its critical section that found a live transaction, or has just
      inserted one. */
  predicate Live(call: Call) {
    call.Inside? && (call.base.tx.Some? || call.done > 0)
  }

  /** The micro step a working call performs next, if it has one left. */
  predicate NextIs(env: Env, call: Call, k: nat) {
    Working(call) && k == call.done && k < |ProgramFor(env, call)|
  }

  predicate RecordPending(env: Env, call: Call) {
    Live(call) && NextIs(env, call, call.done) && ProgramFor(env, call)[call.done].Record?
  }

  function PendingEvent(env: Env, call: Call): Event
    requires RecordPending(env, call)
  {
    ProgramFor(env, call)[call.done].event
  }

  ghost predicate Next(env: Env, id: string, c: Cell, c': Cell, step: Step) {
    match step
    case LockFor(i, op) =>
      && i !in c.calls && OpOk(op, id) && !op.Create?
      && var m := if c.lock.Some? then c.lock.value else c.next;
      c' == c.(lock := Some(m), next := if c.lock.Some? then c.next else c.next + 1,
               calls := c.calls[i := Waiting(op, m)])
    case Acquire(i) =>
      && i in c.calls && c.calls[i].Waiting?
      && (forall j :: j in c.calls && Owns(c.calls[j]) ==> c.calls[j].mutex != c.calls[i].mutex)
      && c' == c.(calls := c.calls[i := Holding(c.calls[i].op, c.calls[i].mutex)])
    case Find(i) =>
      && i in c.calls && c.calls[i].Holding?
      && c' == c.(calls := c.calls[i := Inside(c.calls[i].op, c.calls[i].mutex, c.core, 0)])
    case StartCreate(i, op) =>
      && i !in c.calls && OpOk(op, id) && op.Create?
      && c' == c.(calls := c.calls[i := Creating(op, NoCore, 0)])
    case Work(i) =>
      && i in c.calls && Working(c.calls[i]) && c.calls[i].done < |ProgramFor(env, c.calls[i])|
      && var m := ProgramFor(env, c.calls[i])[c.calls[i].done];
      // insert fails on a known id; a destroyed id is not inserted again
      && (m.Insert? ==> c.core.tx.None? && !c.burned)
      && c' == c.(core := Do(c.core, m),
                  log := if m.Record? then c.log + [m.event] else c.log,
                  story := if m.Record? then c.story + [m.event] else c.story,
                  burned := c.burned || m.RemoveAll?,
                  calls := c.calls[i := c.calls[i].(done := c.calls[i].done + 1)])
    case Leave(i) =>
      // after the last step, or because the next disk call failed
      && i in c.calls && Working(c.calls[i])
      && var call, p := c.calls[i], ProgramFor(env, c.calls[i]);
      && (call.done < |p| ==> !p[call.done].Record?)
      && c' == c.(calls := if call.Inside? && call.op.Destroy? && p != [] && call.done == |p|
                           then c.calls[i := Retiring] else c.calls - {i})
    case EraseLock(i) =>
      && i in c.calls && c.calls[i].Retiring?
      && c' == c.(lock := None, calls := c.calls - {i})
    case Restart(dying) =>
      && (c.core.tx.Some? ==> TimesOk(c.core.tx.value))
      && (dying.None? ==> forall i :: i in c.calls ==> !RecordPending(env, c.calls[i]))
      && (dying.Some? ==> dying.value in c.calls && RecordPending(env, c.calls[dying.value]))
      && c' == c.(lock := None, next := 0, calls := map[],
                  lost := if dying.Some? then c.lost + 1 else c.lost,
                  story := if dying.Some? then c.story + [PendingEvent(env, c.calls[dying.value])] else c.story)
  }

  ghost predicate CellRun(env: Env, id: string, run: seq<Cell>) {
    && |run| > 0 && run[0] == NewCell
    && forall i :: 0 <= i < |run| - 1 ==> CellStep(env, id, run[i], run[i + 1])
  }

  ghost predicate CellStep(env: Env, id: string, c: Cell, c': Cell) {
    exists step :: Next(env, id, c, c', step)
  }

  // --- The lock protocol -------------------------------------------------------

  ghost predicate LockInv(c: Cell) {
    && (c.lock.Some? ==> c.lock.value < c.next)
    && (forall i :: i in c.calls && HasMutex(c.calls[i]) ==> c.calls[i].mutex < c.next)
    && (forall i, j :: i in c.calls && j in c.calls && SameMutex(c.calls[i], c.calls[j]) ==> i == j)
    && (!c.burned ==> OneMutex(c))
    && (c.burned ==> c.core == NoCore)
    && (forall i :: i in c.calls && Live(c.calls[i]) ==> OneMutex(c) && (c.core.tx.Some? || c.burned))
  }

  /** Nobody is retiring the mutex, and every call here was given the one that
      locks_ holds now. */
  ghost predicate OneMutex(c: Cell) {
    && (forall i :: i in c.calls ==> !c.calls[i].Retiring?)
    && (forall i :: i in c.calls && HasMutex(c.calls[i]) ==> c.lock == Some(c.calls[i].mutex))
  }

  /** Every call in its section works on the record it read: what is stored now
      is that record with its own micro steps applied, nobody else's. */
  ghost predicate WorkInv(env: Env, id: string, c: Cell) {
    && Good(env, id, c.core) && Reachable(env, id, c.core)
    && forall i :: i in c.calls ==> CallInv(env, id, c.core, c.calls[i])
  }

  ghost predicate CallInv(env: Env, id: string, core: Core, call: Call) {
    && (!call.Retiring? ==> OpOk(call.op, id))
    && (call.Inside? || call.Waiting? || call.Holding? ==> !call.op.Create?)
    && (call.Creating? ==> call.op.Create? && call.base == NoCore && call.done <= |ProgramFor(env, call)|)
    && (call.Inside? ==> Good(env, id, call.base) && Reachable(env, id, call.base)
                         && call.done <= |ProgramFor(env, call)|)
    && (Live(call) ==> core == Run(call.base, ProgramFor(env, call)[..call.done]))
  }

  ghost predicate CellInv(env: Env, id: string, c: Cell) {
    LockInv(c) && WorkInv(env, id, c)
  }

  /** At most one call is live inside its critical section. */
  lemma OneLive(c: Cell, i: nat, j: nat)
    requires LockInv(c)
    requires i in c.calls && j in c.calls && Live(c.calls[i]) && c.calls[j].Inside?
    ensures i == j
  {
    assert SameMutex(c.calls[i], c.calls[j]);
  }

  /** Where a program inserts and where it deletes. */
  lemma ProgramShape(env: Env, op: Op, base: Core, k: nat)
    requires k < |Program(env, op, base)|
    ensures var p := Program(env, op, base);
            && (p[k].Insert? <==> k == 0 && (op.Create? || op.Receive?))
            && (base.tx.None? ==> op.Create? || (op.Receive? && |p| == 1))
            && (op.Create? || op.Receive? ==> base.tx.None?)
            && (p[k].RemoveAll? <==> op.Destroy? && k == |p| - 2)
            && (op.Destroy? ==> |p| >= 2)
            && (op.Create? ==> |p| == 2 && p[1].Record?)
            && (p[k].Record? ==> k == |p| - 1 && k > 0)
  {
    hide Upsert, Erase, TotalBytes, RefusalOf, CommentOk, CreatedTx, ReceivedTx;
  }

  lemma NoCoreFixed(m: Micro)
    requires !m.Insert?
    ensures Do(NoCore, m) == NoCore
  {}

  lemma KeepsRecord(core: Core, m: Micro)
    requires core.tx.Some? && !m.RemoveAll?
    ensures Do(core, m).tx.Some?
  {}

  // --- The invariant holds in every state of every run -------------------------

  lemma LockForKeeps(env: Env, id: string, c: Cell, c': Cell, i: nat, op: Op)
    requires CellInv(env, id, c) && Next(env, id, c, c', LockFor(i, op))
    ensures CellInv(env, id, c')
  {
    hide Good, Reachable, Run, Program, OpOk;
    assert c'.calls[i].Waiting?;
    forall j | j in c'.calls ensures CallInv(env, id, c'.core, c'.calls[j]) {
      if j != i { assert c'.calls[j] == c.calls[j]; }
    }
    assert forall j :: j in c.calls ==> j in c'.calls && c'.calls[j] == c.calls[j];
  }

  lemma AcquireKeeps(env: Env, id: string, c: Cell, c': Cell, i: nat)
    requires CellInv(env, id, c) && Next(env, id, c, c', Acquire(i))
    ensures CellInv(env, id, c')
  {
    hide Good, Reachable, Run, Program, OpOk;
    forall j | j in c'.calls ensures CallInv(env, id, c'.core, c'.calls[j]) {
      assert j in c.calls && CallInv(env, id, c.core, c.calls[j]);
    }
  }

  lemma FindKeeps(env: Env, id: string, c: Cell, c': Cell, i: nat)
    requires CellInv(env, id, c) && Next(env, id, c, c', Find(i))
    ensures CellInv(env, id, c')
  {
    hide Good, Reachable, Run, Program, OpOk;
    NoSteps(c.core, Program(env, c.calls[i].op, c.core));
    forall j | j in c'.calls ensures CallInv(env, id, c'.core, c'.calls[j]) {
      assert j in c.calls && CallInv(env, id, c.core, c.calls[j]);
    }
    FindLocks(env, id, c, c', i);
  }

  lemma FindLocks(env: Env, id: string, c: Cell, c': Cell, i: nat)
    requires CellInv(env, id, c) && Next(env, id, c, c', Find(i))
    ensures LockInv(c')
  {
    hide WorkInv, Program, OpOk, OneMutex;
    assert forall j :: j in c'.calls ==> j in c.calls && (j != i ==> c'.calls[j] == c.calls[j]);
    SameLocks(c, c', i);
  }

  /** One call moves on with the mutex it has. */
  lemma SameLocks(c: Cell, c': Cell, i: nat)
    requires c'.lock == c.lock && i in c.calls && !c.calls[i].Retiring? && !c.calls[i].Waiting?
    requires i in c'.calls && c'.calls == c.calls[i := c'.calls[i]] && !c'.calls[i].Retiring?
    requires Owns(c.calls[i]) == Owns(c'.calls[i]) == HasMutex(c'.calls[i])
    requires Owns(c.calls[i]) ==> c'.calls[i].mutex == c.calls[i].mutex
    ensures OneMutex(c) ==> OneMutex(c')
    ensures (forall k, j :: k in c.calls && j in c.calls && SameMutex(c.calls[k], c.calls[j]) ==> k == j) ==>
              forall k, j :: k in c'.calls && j in c'.calls && SameMutex(c'.calls[k], c'.calls[j]) ==> k == j
  {
    assert forall j :: j in c'.calls ==> j in c.calls && (j != i ==> c'.calls[j] == c.calls[j]);
    if forall k, j :: k in c.calls && j in c.calls && SameMutex(c.calls[k], c.calls[j]) ==> k == j {
      forall k, j | k in c'.calls && j in c'.calls && SameMutex(c'.calls[k], c'.calls[j]) ensures k == j {
        assert SameMutex(c.calls[k], c.calls[j]);
      }
    }
  }

  lemma StartCreateKeeps(env: Env, id: string, c: Cell, c': Cell, i: nat, op: Op)
    requires CellInv(env, id, c) && Next(env, id, c, c', StartCreate(i, op))
    ensures CellInv(env, id, c')
  {
    hide Good, Reachable, Run, Program, OpOk;
    assert c'.calls[i].Creating?;
    forall j | j in c'.calls ensures CallInv(env, id, c'.core, c'.calls[j]) {
      if j != i { assert c'.calls[j] == c.calls[j]; }
    }
    assert OneMutex(c) ==> OneMutex(c');
  }

  lemma WorkLocks(env: Env, id: string, c: Cell, c': Cell, i: nat)
    requires CellInv(env, id, c) && Next(env, id, c, c', Work(i))
    ensures LockInv(c')
  {
    hide Good, Reachable, Run, Program, OpOk, Do, WorkInv, OneMutex;
    WorkStores(env, id, c, c', i);
    SameLocks(c, c', i);
    assert forall j :: j in c'.calls && j != i ==> c'.calls[j] == c.calls[j];
  }

  /** A working call leaves a record, or has destroyed it. */
  lemma WorkStores(env: Env, id: string, c: Cell, c': Cell, i: nat)
    requires CellInv(env, id, c) && Next(env, id, c, c', Work(i))
    ensures c'.burned ==> c'.core == NoCore
    ensures c.core.tx.Some? || c.burned ==> c'.core.tx.Some? || c'.burned
    ensures c.calls[i].Inside? && !Live(c.calls[i]) ==> c'.core.tx.Some? && !c.burned
    ensures c'.burned && !c.burned ==> Live(c.calls[i])
  {
    hide Good, Reachable, Run, Program, OpOk, Do, OneMutex;
    var call := c.calls[i];
    var k, p := call.done, ProgramFor(env, call);
    ProgramShape(env, call.op, call.base, k);
    assert CallInv(env, id, c.core, call);
    if c.core.tx.Some? && !p[k].RemoveAll? { KeepsRecord(c.core, p[k]); }
    if c.burned { NoCoreFixed(p[k]); }
    RemoveAllEmpties(c.core);
    if p[k].Insert? { InsertStores(env, id, c.core, p[k]); }
  }

  lemma RemoveAllEmpties(core: Core)
    ensures Do(core, RemoveAll) == NoCore
  {}

  lemma InsertStores(env: Env, id: string, core: Core, m: Micro)
    requires Good(env, id, core) && core.tx.None? && m.Insert?
    ensures Do(core, m).tx.Some?
  {}

  lemma WorkOnRecord(env: Env, id: string, c: Cell, c': Cell, i: nat)
    requires CellInv(env, id, c) && Next(env, id, c, c', Work(i))
    ensures var call := c.calls[i];
            var p := ProgramFor(env, call);
            call.Inside? || p[call.done].Insert? ==> c'.core == Run(call.base, p[..call.done + 1])
    ensures var call := c.calls[i];
            call.Creating? && !ProgramFor(env, call)[call.done].Insert? ==> c'.core == c.core
  {
    hide Good, Reachable, Run, Program, OpOk, Do;
    var call := c.calls[i];
    var k, p := call.done, ProgramFor(env, call);
    assert CallInv(env, id, c.core, call);
    ProgramShape(env, call.op, call.base, k);
    RunStep(call.base, p, k);
    NoSteps(call.base, p);
    if p[k].Insert? {
      NothingStored(env, id, c.core);
      if call.Inside? { NothingStored(env, id, call.base); }
    } else if call.Creating? {
      RecordKeeps(c.core, p[k]);
    }
  }

  lemma WorkKeeps(env: Env, id: string, c: Cell, c': Cell, i: nat)
    requires CellInv(env, id, c) && Next(env, id, c, c', Work(i))
    ensures CellInv(env, id, c')
  {
    hide Good, Reachable, Run, Program, OpOk, Do;
    WorkLocks(env, id, c, c', i);
    WorkOnRecord(env, id, c, c', i);
    var call := c.calls[i];
    assert CallInv(env, id, c.core, call);
    var k, p := call.done, ProgramFor(env, call);
    if call.Creating? { NoCoreGood(env, id); NoCoreReachable(env, id); }
    if call.Inside? || p[k].Insert? {
      EveryPrefixIsGood(env, id, call.op, call.base, k + 1);
      StepReachable(env, id, call.base, call.op, k + 1);
    }
    forall j | j in c'.calls ensures CallInv(env, id, c'.core, c'.calls[j]) {
      assert j in c.calls && CallInv(env, id, c.core, c.calls[j]);
      if j != i && Live(c.calls[j]) {
        OthersIdle(env, id, c, c', i, j);
      }
    }
  }

  /** While one call is live, no other call's step touches the record. */
  lemma OthersIdle(env: Env, id: string, c: Cell, c': Cell, i: nat, j: nat)
    requires CellInv(env, id, c) && Next(env, id, c, c', Work(i))
    requires j in c.calls && j != i && Live(c.calls[j])
    ensures c'.core == c.core
  {
    hide Good, Reachable, Run, Program, OpOk, Do;
    WorkOnRecord(env, id, c, c', i);
    if c.calls[i].Inside? {
      OneLive(c, j, i);
    }
  }

  lemma LeaveKeeps(env: Env, id: string, c: Cell, c': Cell, i: nat)
    requires CellInv(env, id, c) && Next(env, id, c, c', Leave(i))
    ensures CellInv(env, id, c')
  {
    hide Good, Reachable, Run, Program, OpOk;
    forall j | j in c'.calls ensures CallInv(env, id, c'.core, c'.calls[j]) {
      assert j in c.calls && CallInv(env, id, c.core, c.calls[j]);
    }
    assert forall j :: j in c'.calls && j != i ==> c'.calls[j] == c.calls[j];
    if i in c'.calls {
      DestroyedIsBurned(env, id, c, i);
      forall j | j in c'.calls && Live(c'.calls[j]) ensures false {
        OneLive(c, i, j);
      }
    } else {
      assert OneMutex(c) ==> OneMutex(c');
    }
  }

  lemma DestroyedIsBurned(env: Env, id: string, c: Cell, i: nat)
    requires CellInv(env, id, c) && i in c.calls && c.calls[i].Inside? && c.calls[i].op.Destroy?
    requires ProgramFor(env, c.calls[i]) != [] && c.calls[i].done == |ProgramFor(env, c.calls[i])|
    ensures c.burned && Live(c.calls[i])
  {
    hide Good, Reachable, Run, Program, OpOk, Do;
    var call := c.calls[i];
    assert CallInv(env, id, c.core, call);
    var p := ProgramFor(env, call);
    var n := |p|;
    ProgramShape(env, call.op, call.base, n - 1);
    ProgramShape(env, call.op, call.base, n - 2);
    RunStep(call.base, p, n - 2);
    RunStep(call.base, p, n - 1);
    assert p[..n - 2 + 1] == p[..n - 1] && p[..n - 1 + 1] == p[..n];
    RemoveAllEmpties(Run(call.base, p[..n - 2]));
    NoCoreFixed(p[n - 1]);
  }

  lemma EraseKeeps(env: Env, id: string, c: Cell, c': Cell, i: nat)
    requires CellInv(env, id, c) && Next(env, id, c, c', EraseLock(i))
    ensures CellInv(env, id, c')
  {
    hide Good, Reachable, Run, Program, OpOk;
    forall j | j in c'.calls ensures CallInv(env, id, c'.core, c'.calls[j]) {
      assert j in c.calls && CallInv(env, id, c.core, c.calls[j]);
    }
    assert !OneMutex(c);
  }

  lemma RestartKeeps(env: Env, id: string, c: Cell, c': Cell, dying: Option<nat>)
    requires CellInv(env, id, c) && Next(env, id, c, c', Restart(dying))
    ensures CellInv(env, id, c')
  {
    hide Good, Reachable, Run, Program, OpOk;
  }

  lemma StepKeeps(env: Env, id: string, c: Cell, c': Cell, step: Step)
    requires CellInv(env, id, c) && Next(env, id, c, c', step)
    ensures CellInv(env, id, c')
  {
    hide CellInv, Next;
    match step
    case LockFor(i, op) => LockForKeeps(env, id, c, c', i, op);
    case Acquire(i) => AcquireKeeps(env, id, c, c', i);
    case Find(i) => FindKeeps(env, id, c, c', i);
    case StartCreate(i, op) => StartCreateKeeps(env, id, c, c', i, op);
    case Work(i) => WorkKeeps(env, id, c, c', i);
    case Leave(i) => LeaveKeeps(env, id, c, c', i);
    case EraseLock(i) => EraseKeeps(env, id, c, c', i);
    case Restart(dying) => RestartKeeps(env, id, c, c', dying);
  }

  lemma NewCellInv(env: Env, id: string)
    ensures CellInv(env, id, NewCell)
  {
    hide Reachable;
    NoCoreReachable(env, id);
    NoCoreGood(env, id);
  }

  lemma {:induction false} RunKeeps(env: Env, id: string, run: seq<Cell>)
    requires CellRun(env, id, run)
    ensures CellInv(env, id, run[|run| - 1])
  {
    hide CellInv, Next;
    if |run| == 1 {
      NewCellInv(env, id);
    } else {
      var n := |run|;
      RunKeeps(env, id, run[..n - 1]);
      assert CellStep(env, id, run[n - 2], run[n - 1]);
      var step :| Next(env, id, run[n - 2], run[n - 1], step);
      StepKeeps(env, id, run[n - 2], run[n - 1], step);
    }
  }

  /** Lock retirement is safe: in every state of every interleaving, two calls in
      critical sections of the same id never both hold a live transaction. */
  lemma RetirementIsSafe(env: Env, id: string, run: seq<Cell>, i: nat, j: nat)
    requires CellRun(env, id, run)
    requires var c := run[|run| - 1]; i in c.calls && j in c.calls && Live(c.calls[i]) && Live(c.calls[j])
    ensures i == j
  {
    hide Next;
    RunKeeps(env, id, run);
    OneLive(run[|run| - 1], i, j);
  }

  /** Interleaving adds nothing: whatever is stored at any instant of any
      interleaved run is also reached by whole sections, one after the other, the
      last of which may have stopped at a fault. So index and disk agree and
      committed data is intact at every instant. */
  lemma InterleavingIsSerial(env: Env, id: string, run: seq<Cell>)
    requires CellRun(env, id, run)
    ensures Reachable(env, id, run[|run| - 1].core)
    ensures Good(env, id, run[|run| - 1].core)
  {
    hide Next, Good, Reachable;
    RunKeeps(env, id, run);
  }

  /** A section acts alone: from the moment it has read a stored record until it leaves, what
      is stored is that record with the section's own steps applied, so its effect and its
      answer are those of the whole section run by itself on what it read. */
  lemma SectionActsAlone(env: Env, id: string, run: seq<Cell>, i: nat)
    requires CellRun(env, id, run)
    requires i in run[|run| - 1].calls && Live(run[|run| - 1].calls[i])
    ensures var c, call := run[|run| - 1], run[|run| - 1].calls[i];
            && call.done <= |Program(env, call.op, call.base)|
            && c.core == Run(call.base, Program(env, call.op, call.base)[..call.done])
            && Reachable(env, id, call.base)
  {
    hide Next, Good, Reachable, Run, Program, OpOk;
    RunKeeps(env, id, run);
    assert CallInv(env, id, run[|run| - 1].core, run[|run| - 1].calls[i]);
  }

  // --- Ids are not reused ---------------------------------------------------------

  /** A destroy has unlocked the mutex and not yet dropped it from locks_. */
  function AboutToRetire(log: seq<Event>): Cell {
    Cell(NoCore, log, log, 0, true, Some(0), 1, map[1 := Retiring])
  }

  /** The insert of a call without the premise that a destroyed id is not inserted again. */
  function Reinserted(c: Cell, i: nat, tx: Transaction): Cell
    requires i in c.calls && c.calls[i].Inside?
  {
    var call := c.calls[i];
    c.(core := Do(c.core, Insert(tx)), calls := c.calls[i := Inside(call.op, call.mutex, call.base, 1)])
  }

  /** A peer's push of the id takes the mutex that is about to be dropped, up to its
      look at the index. */
  lemma PushTakesOldMutex(env: Env, id: string, log: seq<Event>, push: Op) returns (c1: Cell, c2: Cell, c3: Cell)
    requires push.Receive? && OpOk(push, id)
    ensures Next(env, id, AboutToRetire(log), c1, LockFor(2, push))
    ensures Next(env, id, c1, c2, Acquire(2)) && Next(env, id, c2, c3, Find(2))
    ensures c3 == AboutToRetire(log).(calls := map[1 := Retiring, 2 := Inside(push, 0, NoCore, 0)])
  {
    hide OpOk, Program;
    var c := AboutToRetire(log);
    c1 := c.(calls := c.calls[2 := Waiting(push, 0)]);
    c2 := c1.(calls := c1.calls[2 := Holding(push, 0)]);
    c3 := c2.(calls := c2.calls[2 := Inside(push, 0, NoCore, 0)]);
  }

  /** The next call is given a new mutex, and finds what the push inserted. */
  lemma OtherTakesNewMutex(env: Env, id: string, c: Cell, push: Op, other: Op)
    returns (c1: Cell, c2: Cell, c3: Cell, c4: Cell)
    requires c.calls == map[1 := Retiring, 2 := Inside(push, 0, NoCore, 1)] && c.next == 1 && c.core.tx.Some?
    requires OpOk(other, id) && !other.Create?
    ensures Next(env, id, c, c1, EraseLock(1)) && Next(env, id, c1, c2, LockFor(3, other))
    ensures Next(env, id, c2, c3, Acquire(3)) && Next(env, id, c3, c4, Find(3))
    ensures 2 in c4.calls && 3 in c4.calls && Live(c4.calls[2]) && Live(c4.calls[3])
  {
    hide OpOk, Program;
    c1 := c.(lock := None, calls := c.calls - {1});
    c2 := c1.(lock := Some(1), next := 2, calls := c1.calls[3 := Waiting(other, 1)]);
    c3 := c2.(calls := c2.calls[3 := Holding(other, 1)]);
    c4 := c3.(calls := c3.calls[3 := Inside(other, 1, c.core, 0)]);
  }

  /** The premise on reuse is needed: if a peer pushes a destroyed id again just before its
      mutex is dropped, the push and a later call are both in critical sections of the
      same live transaction. */
  lemma ReuseBreaksExclusion(env: Env, id: string, log: seq<Event>, push: Op, other: Op)
    returns (c1: Cell, c2: Cell, c3: Cell, c4: Cell, c5: Cell, c6: Cell, c7: Cell, c8: Cell)
    requires push.Receive? && OpOk(push, id) && Refusal(env, push, NoCore).None?
    requires OpOk(other, id) && !other.Create?
    ensures Next(env, id, AboutToRetire(log), c1, LockFor(2, push))
    ensures Next(env, id, c1, c2, Acquire(2)) && Next(env, id, c2, c3, Find(2))
    ensures 2 in c3.calls && c3.calls[2].Inside?
    ensures Program(env, push, NoCore) == [Insert(ReceivedTx(push.caller, push.id, push.push))]
    ensures c4 == Reinserted(c3, 2, ReceivedTx(push.caller, push.id, push.push))
    ensures Next(env, id, c4, c5, EraseLock(1)) && Next(env, id, c5, c6, LockFor(3, other))
    ensures Next(env, id, c6, c7, Acquire(3)) && Next(env, id, c7, c8, Find(3))
    ensures 2 in c8.calls && 3 in c8.calls && Live(c8.calls[2]) && Live(c8.calls[3])
  {
    hide OpOk, Next, Refusal, ReceivedTx, EncodeMeta;
    var tx := ReceivedTx(push.caller, push.id, push.push);
    c1, c2, c3 := PushTakesOldMutex(env, id, log, push);
    c4 := Reinserted(c3, 2, tx);
    assert c4.calls == map[1 := Retiring, 2 := Inside(push, 0, NoCore, 1)];
    c5, c6, c7, c8 := OtherTakesNewMutex(env, id, c4, push, other);
  }
}
