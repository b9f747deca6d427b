/** What every single record of the business log says about a transaction is true of it at
    that moment: totals, states, and where the transaction came from. */
module Accounts {
  import opened Basics
  import opened FileList
  import opened Transactions
  import opened MetaCodec
  import opened Core
  import opened Sections
  import opened Cells
  import opened History
  import Rights
  import StorageTree

  /** The record is true for a reader who knows what the records before it told. */
  ghost predicate TrueOf(v: View, e: Event) {
    && (!e.TxCreated? ==> v.Standing?)
    && (e.FileAdded? || e.FileRemoved? ==> v.state == Open)
    && (e.FileRemoved? ==> exists f :: f in v.files && f.path == e.path)
    && (e.CommittedEv? || e.ReceivedEv? ==> v.state == Open)
    && (e.Forwarded? ==> v.state == Committed)
    && (e.CommittedEv? || e.ReceivedEv? || e.Forwarded? ==> e.count == |v.files| && e.bytes == TotalBytes(v.files))
  }

  ghost predicate AllTrue(story: seq<Event>) {
    forall k :: 0 <= k < |story| ==> TrueOf(Replay(story[..k]), story[k])
  }

  /** Received is said of pushed transactions and committed of those made here. */
  ghost predicate OriginTold(c: Cell) {
    c.core.tx.Some? ==>
      forall e :: e in c.story ==>
        && (e.ReceivedEv? ==> c.core.tx.value.originServer != "")
        && (e.CommittedEv? ==> c.core.tx.value.originServer == "")
  }

  /** The record of each operation. */
  lemma RecordIs(env: Env, op: Op, base: Core, k: nat)
    requires k < |Program(env, op, base)| && Program(env, op, base)[k].Record?
    ensures var e := Program(env, op, base)[k].event;
            && !op.Begin? && !op.Receive? && (op.Create? ==> e == TxCreated)
            && (!op.Create? ==> base.tx.Some?)
            && (op.Finish? ==> e == FileAdded(FileEntry(op.path, |op.data|, env.hash(op.data))))
            && (op.RemoveFile? ==> e == FileRemoved(op.path))
            && (op.Commit? ==>
                  var tx := base.tx.value;
                  e == if tx.originServer != "" then ReceivedEv(|tx.files|, TotalBytes(tx.files))
                       else CommittedEv(|tx.files|, TotalBytes(tx.files)))
            && (op.MarkDelivered? ==> e == Forwarded(|base.tx.value.files|, TotalBytes(base.tx.value.files)))
            && (op.Destroy? ==> e == if op.byAdmin then AdminDeleted else ExpiredEv)
            && (op.SetRetention? ==> e == RetentionChanged(op.days))
  {
    hide TotalBytes, CommentOk, HashCheck, StorageTree.Clash, FindLinear, Upsert, Erase, CreatedTx, ReceivedTx;
  }

  lemma RecordStates(env: Env, op: Op, base: Core, k: nat)
    requires k < |Program(env, op, base)| && Program(env, op, base)[k].Record? && base.tx.Some?
    ensures op.Finish? || op.RemoveFile? || op.Commit? ==> base.tx.value.state == Open
    ensures op.MarkDelivered? ==> base.tx.value.state == Committed
    ensures op.RemoveFile? ==> exists f :: f in base.tx.value.files && f.path == op.path
  {
    hide TotalBytes, CommentOk, HashCheck, StorageTree.Clash, Upsert, Erase, CreatedTx, ReceivedTx;
    if op.RemoveFile? { Rights.FoundIsListed(base.tx.value.files, op.path); }
  }

  /** A live call's record is true of what it had read. */
  lemma PendingIsTrue(env: Env, id: string, c: Cell, i: nat)
    requires CellInv(env, id, c) && ReadInv(env, c) && i in c.calls && RecordPending(env, c.calls[i])
    ensures TrueOf(Replay(c.story), PendingEvent(env, c.calls[i]))
    ensures var e, tx := PendingEvent(env, c.calls[i]), c.calls[i].base.tx;
            && tx.Some?
            && (e.ReceivedEv? ==> tx.value.originServer != "") && (e.CommittedEv? ==> tx.value.originServer == "")
  {
    hide Good, Reachable, Run, Program, OpOk, Replay;
    var call := c.calls[i];
    PendingReads(env, id, c, i);
    RecordIs(env, call.op, call.base, call.done);
    RecordStates(env, call.op, call.base, call.done);
  }

  lemma OneMoreTrue(story: seq<Event>, e: Event)
    requires AllTrue(story) && TrueOf(Replay(story), e)
    ensures AllTrue(story + [e])
  {
    hide TrueOf, Replay;
    var more := story + [e];
    assert more[..|story|] == story;
    assert forall k :: 0 <= k < |story| ==> more[..k] == story[..k];
  }

  lemma StepIsTrue(env: Env, id: string, c: Cell, c': Cell, step: Step)
    requires CellInv(env, id, c) && ReadInv(env, c) && AllTrue(c.story) && Next(env, id, c, c', step)
    ensures AllTrue(c'.story)
  {
    hide CellInv, ReadInv, AllTrue, TrueOf, Program, OpOk, Do, Replay;
    if step.Restart? && step.dying.Some? {
      PendingIsTrue(env, id, c, step.dying.value);
      OneMoreTrue(c.story, PendingEvent(env, c.calls[step.dying.value]));
    } else if step.Work? {
      var call := c.calls[step.i];
      var m := ProgramFor(env, call)[call.done];
      if m.Record? {
        RecordedIsTrue(env, id, c, step.i);
        OneMoreTrue(c.story, m.event);
      }
    }
  }

  lemma RecordedIsTrue(env: Env, id: string, c: Cell, i: nat)
    requires CellInv(env, id, c) && ReadInv(env, c) && i in c.calls && Working(c.calls[i])
    requires c.calls[i].done < |ProgramFor(env, c.calls[i])| && ProgramFor(env, c.calls[i])[c.calls[i].done].Record?
    ensures TrueOf(Replay(c.story), ProgramFor(env, c.calls[i])[c.calls[i].done].event)
    ensures c.calls[i].Inside? ==> RecordPending(env, c.calls[i])
  {
    hide Good, Reachable, Run, Program, OpOk, Replay;
    var call := c.calls[i];
    assert CallInv(env, id, c.core, call);
    RecordIs(env, call.op, call.base, call.done);
    if call.Inside? {
      PendingIsTrue(env, id, c, i);
    }
  }

  /** While a log tells an open transaction, it has no record of a commit. */
  lemma {:induction false} OpenIsUncommitted(story: seq<Event>)
    requires Replay(story).Standing? && Replay(story).state == Open
    ensures forall e :: e in story ==> !e.ReceivedEv? && !e.CommittedEv?
  {
    hide Upsert, Erase;
    if story != [] {
      var front, last := story[..|story| - 1], story[|story| - 1];
      assert Replay(story) == Told(Replay(front), last);
      OpenIsUncommitted(front);
      assert story == front + [last];
    }
  }

  lemma StepTellsOrigin(env: Env, id: string, c: Cell, c': Cell, step: Step)
    requires CellInv(env, id, c) && LogInv(env, c) && ReadInv(env, c) && OriginTold(c) && Next(env, id, c, c', step)
    ensures OriginTold(c')
  {
    hide Good, Reachable, Run, Program, OpOk, Do, Replay, Frozen, LogInv, ReadInv, LockInv, WorkInv;
    if step.Work? {
      WorkTellsOrigin(env, id, c, c', step.i);
    } else if step.Restart? && step.dying.Some? {
      PendingIsTrue(env, id, c, step.dying.value);
      if c.core.tx.Some? { BaseOrigin(env, id, c, step.dying.value); }
    }
  }

  /** The record a live call read has the origin of the one that is stored. */
  lemma BaseOrigin(env: Env, id: string, c: Cell, i: nat)
    requires CellInv(env, id, c) && i in c.calls && Live(c.calls[i]) && c.calls[i].base.tx.Some? && c.core.tx.Some?
    ensures c.core.tx.value.originServer == c.calls[i].base.tx.value.originServer
  {
    hide Good, Reachable, Run, Program, OpOk, LockInv;
    var call := c.calls[i];
    assert CallInv(env, id, c.core, call);
    PrefixFrozen(env, id, call.op, call.base, call.done);
  }

  lemma WorkTellsOrigin(env: Env, id: string, c: Cell, c': Cell, i: nat)
    requires CellInv(env, id, c) && LogInv(env, c) && ReadInv(env, c) && OriginTold(c) && Next(env, id, c, c', Work(i))
    ensures OriginTold(c')
  {
    hide Good, Reachable, Run, Program, OpOk, Do, Replay, LogInv, ReadInv, LockInv, WorkInv;
    var call := c.calls[i];
    var k, p := call.done, ProgramFor(env, call);
    if p[k].Record? {
      RecordKeeps(c.core, p[k]);
      RecordedIsTrue(env, id, c, i);
      RecordIs(env, call.op, call.base, k);
      if call.Inside? {
        PendingIsTrue(env, id, c, i);
        if c.core.tx.Some? { BaseOrigin(env, id, c, i); }
      } else {
        CreatingCreates(env, id, c, i);
      }
    } else if c.core.tx.Some? {
      StepFollows(env, id, c, c', Work(i));
    } else {
      NothingTold(env, id, c, i);
      StaysNothing(env, id, c, p[k]);
    }
  }

  lemma StaysNothing(env: Env, id: string, c: Cell, m: Micro)
    requires CellInv(env, id, c) && c.core.tx.None?
    ensures Do(c.core, m).tx.Some? ==> m.Insert?
  {}

  lemma CreatingCreates(env: Env, id: string, c: Cell, i: nat)
    requires CellInv(env, id, c) && i in c.calls && c.calls[i].Creating?
    ensures c.calls[i].op.Create?
  {
    assert CallInv(env, id, c.core, c.calls[i]);
  }

  /** Before an id is stored, its log is empty of commits. */
  lemma NothingTold(env: Env, id: string, c: Cell, i: nat)
    requires CellInv(env, id, c) && LogInv(env, c) && c.core.tx.None?
    ensures !c.burned ==> forall e :: e in c.story ==> !e.ReceivedEv? && !e.CommittedEv?
  {
    hide Good, Reachable, Run, Program, OpOk, Replay, WorkInv;
    if !c.burned {
      assert forall j :: j in c.calls ==> !Live(c.calls[j]);
      OpenIsUncommitted(c.story);
    }
  }

  /** Every record in the log of a run is true of the transaction when it is written: a removed
      file was listed, a committed, received or forwarded record has the number and the total
      size of the files, received is said of pushed transactions only and committed of those made
      here only, and nothing is said after the end. */
  lemma {:induction false} RecordsAreTrue(env: Env, id: string, run: seq<Cell>)
    requires CellRun(env, id, run)
    ensures AllTrue(run[|run| - 1].story) && OriginTold(run[|run| - 1])
  {
    hide CellInv, Next, LogInv, ReadInv, LeavesOut, TrueOf, Replay;
    if |run| > 1 {
      hide AllTrue, OriginTold;
      var n := |run|;
      RecordsAreTrue(env, id, run[..n - 1]);
      RunKeepsLog(env, id, run[..n - 1]);
      RunKeeps(env, id, run[..n - 1]);
      assert CellStep(env, id, run[n - 2], run[n - 1]);
      var step :| Next(env, id, run[n - 2], run[n - 1], step);
      StepIsTrue(env, id, run[n - 2], run[n - 1], step);
      StepTellsOrigin(env, id, run[n - 2], run[n - 1], step);
    }
  }
}
