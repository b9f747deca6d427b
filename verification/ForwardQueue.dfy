/** The forwarder's retry queue (src/lib/forwarder/forwarder.cpp:56-128 and
    208-247): one worker, one push at a time, exponential backoff. */
module ForwardQueue {
  import opened Basics

  /** Forwarder::Pending, with the time its wait began. */
  datatype Item = Item(id: string, attempts: nat, due: int, since: int)

  datatype Options = Options(first: int, max: int)

  predicate IsTransient(code: ErrCode) {
    code in {Unavailable, Throttled, Internal, Io, Integrity}
  }

  /** The wait before the n-th retry: the first wait, doubled per failure, capped. */
  function Wait(o: Options, n: nat): int
    requires n > 0
  {
    Min(o.first * Pow2(n - 1), o.max)
  }

  function Ids(queue: seq<Item>): set<string> {
    set i | 0 <= i < |queue| :: queue[i].id
  }

  function Enqueued(queue: seq<Item>, id: string, now: int): seq<Item> {
    if id in Ids(queue) then queue else queue + [Item(id, 0, now, now)]
  }

  function EnqueuedAll(queue: seq<Item>, ids: seq<string>, now: int): seq<Item> {
    if ids == [] then queue else Enqueued(EnqueuedAll(queue, ids[..|ids| - 1], now), ids[|ids| - 1], now)
  }

  /** k is where std::ranges::min_element(queue, {}, &Pending::due) points. */
  ghost predicate IsEarliest(queue: seq<Item>, k: nat) {
    && k < |queue|
    && (forall i :: 0 <= i < k ==> queue[k].due < queue[i].due)
    && (forall i :: k <= i < |queue| ==> queue[k].due <= queue[i].due)
  }

  /** The forwarder and what it has to do. */
  datatype Desk = Desk(
    queue: seq<Item>,
    flight: Option<Item>,      // being pushed
    running: bool,
    outgoing: set<string>,     // committed here for another server, not delivered
    hooks: set<string>,        // committed, on_committed not called yet
    asked: set<string>,        // enqueued since the last start, or waiting then
    delivered: set<string>,    // pushed successfully since the last start
    dropped: set<string>,      // given up with a non-transient error since then
    stranded: set<string>)     // left to the next start

  const Idle := Desk([], None, false, {}, {}, {}, {}, {}, {})

  datatype Step =
    | CommitRemote(id: string)
    | Hook(id: string, now: int)
    | StartUp(ids: seq<string>, now: int)
    | Take(k: nat, now: int)
    | Settle(result: Option<ErrCode>, now: int)
    | Retire(id: string)
    | Stop
    | Reboot

  function Flying(d: Desk): set<string> {
    if d.flight.Some? then {d.flight.value.id} else {}
  }

  /** Where the forwarder keeps ids: queued, in flight, given up, or about to be announced. */
  function Kept(d: Desk): set<string> {
    Ids(d.queue) + Flying(d) + d.dropped + d.hooks
  }

  function Settled(o: Options, d: Desk, result: Option<ErrCode>, now: int): Desk
    requires d.flight.Some?
  {
    var item := d.flight.value;
    var idle := d.(flight := None);
    match result
    case None =>
      idle.(outgoing := d.outgoing - {item.id}, delivered := d.delivered + {item.id}, stranded := d.stranded - {item.id})
    case Some(code) =>
      if !IsTransient(code) then idle.(dropped := d.dropped + {item.id})
      else if !d.running then idle.(stranded := d.stranded + ({item.id} * d.outgoing) - Kept(idle))
      else
        var n := item.attempts + 1;
        idle.(queue := d.queue + [Item(item.id, n, now + Wait(o, n), now)])
  }

  ghost predicate Next(o: Options, d: Desk, d': Desk, step: Step) {
    match step
    case CommitRemote(id) => id !in d.outgoing && d' == d.(outgoing := d.outgoing + {id}, hooks := d.hooks + {id})
    case Hook(id, now) =>
      id in d.hooks && d' == d.(hooks := d.hooks - {id}, queue := Enqueued(d.queue, id, now), asked := d.asked + {id})
    case StartUp(ids, now) =>
      && !d.running && d.flight.None? && (forall id :: id in ids <==> id in d.outgoing)
      && var q := EnqueuedAll(d.queue, ids, now);
      d' == d.(queue := q, running := true, asked := Ids(q), delivered := {}, dropped := {}, stranded := {})
    case Take(k, now) =>
      && d.running && d.flight.None? && IsEarliest(d.queue, k) && d.queue[k].due <= now
      && d' == d.(flight := Some(d.queue[k]), queue := d.queue[..k] + d.queue[k + 1..])
    case Settle(result, now) => d.flight.Some? && d' == Settled(o, d, result, now)
    case Retire(id) => d' == d.(outgoing := d.outgoing - {id}, stranded := d.stranded - {id})
    case Stop => d' == d.(running := false)
    case Reboot => d' == Idle.(outgoing := d.outgoing, stranded := d.outgoing)
  }

  ghost predicate Moves(o: Options, d: Desk, d': Desk) {
    exists step :: Next(o, d, d', step)
  }

  ghost predicate IsRun(o: Options, run: seq<Desk>) {
    && |run| > 0 && run[0] == Idle
    && forall i :: 0 <= i < |run| - 1 ==> Moves(o, run[i], run[i + 1])
  }

  /** In every state the outgoing transactions that the forwarder does not keep are exactly
      the stranded ones, and while it runs there are none. And while it runs, what was asked
      for is queued, in flight, delivered or given up. */
  ghost predicate Accounted(d: Desk) {
    && d.stranded == d.outgoing - Kept(d)
    && (d.running ==> d.stranded == {} && d.asked <= Ids(d.queue) + Flying(d) + d.delivered + d.dropped)
  }

  /** Every waiting item waits exactly as long as its failures demand. */
  ghost predicate WaitsRight(o: Options, d: Desk) {
    && (forall i :: 0 <= i < |d.queue| ==> ItemOk(o, d.queue[i]))
    && (d.flight.Some? ==> ItemOk(o, d.flight.value))
  }

  ghost predicate ItemOk(o: Options, item: Item) {
    item.due == if item.attempts == 0 then item.since
                else item.since + Min(o.first * Pow2(item.attempts - 1), o.max)
  }

  /** What is tried again, and what is given up. */
  lemma TransientExactly(code: ErrCode)
    ensures IsTransient(code) <==> code !in {Validation, Auth, Forbidden, NotFound, Conflict, Gone, UnknownDestination}
  {}

  /** Each wait is twice the one before, up to the longest. */
  lemma WaitsDouble(o: Options, n: nat)
    requires n > 0 && o.first >= 0 && o.max >= 0
    ensures Wait(o, 1) == Min(o.first, o.max) && Wait(o, n + 1) == Min(2 * Wait(o, n), o.max)
  {
    assert o.first * Pow2(n) == 2 * (o.first * Pow2(n - 1));
  }

  lemma EnqueuedIds(queue: seq<Item>, id: string, now: int)
    ensures Ids(Enqueued(queue, id, now)) == Ids(queue) + {id}
  {
    var q := Enqueued(queue, id, now);
    if id !in Ids(queue) {
      assert q[|queue|].id == id;
      assert forall i :: 0 <= i < |queue| ==> q[i] == queue[i];
      forall x ensures x in Ids(q) <==> x in Ids(queue) + {id} {
        if x in Ids(queue) {
          var i :| 0 <= i < |queue| && queue[i].id == x;
          assert q[i].id == x;
        }
      }
    }
  }

  lemma {:induction false} EnqueuedAllIds(o: Options, queue: seq<Item>, ids: seq<string>, now: int)
    requires forall i :: 0 <= i < |queue| ==> ItemOk(o, queue[i])
    ensures Ids(EnqueuedAll(queue, ids, now)) == Ids(queue) + (set id | id in ids)
    ensures forall i :: 0 <= i < |EnqueuedAll(queue, ids, now)| ==> ItemOk(o, EnqueuedAll(queue, ids, now)[i])
  {
    if ids != [] {
      var front, last := ids[..|ids| - 1], ids[|ids| - 1];
      EnqueuedAllIds(o, queue, front, now);
      EnqueuedIds(EnqueuedAll(queue, front, now), last, now);
      assert ids == front + [last];
    }
  }

  lemma WithoutIds(queue: seq<Item>, k: nat)
    requires k < |queue|
    ensures Ids(queue) == Ids(queue[..k] + queue[k + 1..]) + {queue[k].id}
  {
    var q := queue[..k] + queue[k + 1..];
    forall x | x in Ids(queue) ensures x in Ids(q) + {queue[k].id} {
      var i :| 0 <= i < |queue| && queue[i].id == x;
      if i < k { assert q[i].id == x; } else if i > k { assert q[i - 1].id == x; }
    }
    forall x | x in Ids(q) ensures x in Ids(queue) {
      var i :| 0 <= i < |q| && q[i].id == x;
      assert q[i] == queue[if i < k then i else i + 1];
    }
  }

  lemma AppendedIds(queue: seq<Item>, item: Item)
    ensures Ids(queue + [item]) == Ids(queue) + {item.id}
  {
    var q := queue + [item];
    assert q[|queue|].id == item.id;
    forall x | x in Ids(queue) ensures x in Ids(q) {
      var i :| 0 <= i < |queue| && queue[i].id == x;
      assert q[i].id == x;
    }
  }

  lemma StepWaits(o: Options, d: Desk, d': Desk, step: Step)
    requires WaitsRight(o, d) && Next(o, d, d', step)
    ensures WaitsRight(o, d')
  {
    hide Ids, Kept, Pow2;
    if step.StartUp? {
      EnqueuedAllIds(o, d.queue, step.ids, step.now);
    }
  }

  lemma SettleAccounts(o: Options, d: Desk, result: Option<ErrCode>, now: int)
    requires Accounted(d) && d.flight.Some?
    ensures Accounted(Settled(o, d, result, now))
  {
    hide Wait, Ids;
    if result.Some? && IsTransient(result.value) && d.running {
      var n := d.flight.value.attempts + 1;
      AppendedIds(d.queue, Item(d.flight.value.id, n, now + Wait(o, n), now));
    }
  }

  lemma StepAccounts(o: Options, d: Desk, d': Desk, step: Step)
    requires Accounted(d) && WaitsRight(o, d) && Next(o, d, d', step)
    ensures Accounted(d')
  {
    hide Wait, Ids, Settled, WaitsRight;
    match step
    case CommitRemote(id) =>
    case Hook(id, now) => EnqueuedIds(d.queue, id, now);
    case StartUp(ids, now) => QueueIsRight(o, d); EnqueuedAllIds(o, d.queue, ids, now);
    case Take(k, now) => WithoutIds(d.queue, k);
    case Settle(result, now) => SettleAccounts(o, d, result, now);
    case Retire(id) =>
    case Stop =>
    case Reboot => NoIds();
  }

  lemma QueueIsRight(o: Options, d: Desk)
    requires WaitsRight(o, d)
    ensures forall i :: 0 <= i < |d.queue| ==> ItemOk(o, d.queue[i])
  {}

  lemma NoIds()
    ensures Ids([]) == {}
  {}

  lemma StepKeeps(o: Options, d: Desk, d': Desk, step: Step)
    requires Accounted(d) && WaitsRight(o, d) && Next(o, d, d', step)
    ensures Accounted(d') && WaitsRight(o, d')
  {
    hide Accounted, WaitsRight, Next;
    StepWaits(o, d, d', step);
    StepAccounts(o, d, d', step);
  }

  lemma {:induction false} RunKeeps(o: Options, run: seq<Desk>)
    requires IsRun(o, run)
    ensures Accounted(run[|run| - 1]) && WaitsRight(o, run[|run| - 1])
  {
    hide Accounted, WaitsRight, Next;
    var n := |run|;
    if n == 1 {
      IdleIsFine(o);
    } else {
      RunKeeps(o, run[..n - 1]);
      assert Moves(o, run[n - 2], run[n - 1]);
      var step :| Next(o, run[n - 2], run[n - 1], step);
      StepKeeps(o, run[n - 2], run[n - 1], step);
    }
  }

  /** Queue conservation over every run, including stops, starts and restarts of the process:
      an outgoing transaction is nowhere in the forwarder if and only if it is stranded, nothing
      is stranded while the forwarder runs, every id asked for is then queued, in flight,
      delivered or given up, and every waiting item waits exactly as its failures demand. */
  lemma NothingIsLost(o: Options, run: seq<Desk>, id: string)
    requires IsRun(o, run)
    ensures var d := run[|run| - 1];
            && (id in d.outgoing && id !in Kept(d) <==> id in d.stranded)
            && (d.running ==> d.stranded == {})
            && (d.running && id in d.asked ==> id in Ids(d.queue) + Flying(d) + d.delivered + d.dropped)
            && WaitsRight(o, d)
  {
    hide WaitsRight, Next, Kept;
    RunKeeps(o, run);
  }

  /** There are two ways to be stranded: a push that fails transiently after stop(), and the
      end of the process. */
  lemma StrandedOnlySo(o: Options, d: Desk, d': Desk, step: Step, id: string)
    requires Next(o, d, d', step) && id in d'.stranded && id !in d.stranded
    ensures || step.Reboot?
            || (step.Settle? && step.result.Some? && IsTransient(step.result.value) && !d.running
                && d.flight.Some? && d.flight.value.id == id)
  {}

  lemma IdleIsFine(o: Options)
    ensures Accounted(Idle) && WaitsRight(o, Idle)
  {}

  /** start() after a stop or a restart queues again every transaction that was
      committed and not delivered, whatever became of it before. */
  lemma StartQueuesAllOutgoing(o: Options, d: Desk, d': Desk, ids: seq<string>, now: int)
    requires WaitsRight(o, d) && Next(o, d, d', StartUp(ids, now))
    ensures d'.outgoing == d.outgoing <= Ids(d'.queue) && d'.running
  {
    EnqueuedAllIds(o, d.queue, ids, now);
  }

  function Stranding(id: string, now: int, k: nat): Desk
    requires k < 7
  {
    var item := Item(id, 0, now, now);
    match k
    case 0 => Idle
    case 1 => Idle.(outgoing := {id}, hooks := {id})
    case 2 => Desk([item], None, false, {id}, {}, {id}, {}, {}, {})
    case 3 => Desk([item], None, true, {id}, {}, {id}, {}, {}, {})
    case 4 => Desk([], Some(item), true, {id}, {}, {id}, {}, {}, {})
    case 5 => Desk([], Some(item), false, {id}, {}, {id}, {}, {}, {})
    case _ => Desk([], None, false, {id}, {}, {id}, {}, {}, {id})
  }

  lemma StrandingStarts(o: Options, id: string, now: int)
    ensures Next(o, Stranding(id, now, 0), Stranding(id, now, 1), CommitRemote(id))
    ensures Next(o, Stranding(id, now, 1), Stranding(id, now, 2), Hook(id, now))
    ensures Next(o, Stranding(id, now, 2), Stranding(id, now, 3), StartUp([id], now))
  {
    var queue := Stranding(id, now, 2).queue;
    assert queue[0].id == id && Ids(queue) == {id};
    assert [id][..0] == [] && EnqueuedAll(queue, [], now) == queue;
    assert EnqueuedAll(queue, [id], now) == queue;
  }

  lemma StrandingStops(o: Options, id: string, now: int)
    ensures Next(o, Stranding(id, now, 3), Stranding(id, now, 4), Take(0, now))
    ensures Next(o, Stranding(id, now, 4), Stranding(id, now, 5), Stop)
    ensures Next(o, Stranding(id, now, 5), Stranding(id, now, 6), Settle(Some(Unavailable), now))
  {
    var queue := Stranding(id, now, 3).queue;
    assert IsEarliest(queue, 0) && queue[..0] + queue[1..] == [];
  }

  /** While the forwarder is stopped conservation can fail: a push that stop() cuts
      off is not queued again, and only the next start brings it back. */
  lemma StopCanStrand(o: Options, id: string, now: int)
    ensures var run := seq(7, k requires 0 <= k < 7 => Stranding(id, now, k));
            && IsRun(o, run)
            && id in run[6].outgoing && id !in Kept(run[6]) && id in run[6].stranded
  {
    hide Next;
    StrandingStarts(o, id, now);
    StrandingStops(o, id, now);
    assert forall k :: 0 <= k < 6 ==> Moves(o, Stranding(id, now, k), Stranding(id, now, k + 1)) by {
      assert Moves(o, Stranding(id, now, 0), Stranding(id, now, 1));
      assert Moves(o, Stranding(id, now, 1), Stranding(id, now, 2));
      assert Moves(o, Stranding(id, now, 2), Stranding(id, now, 3));
      assert Moves(o, Stranding(id, now, 3), Stranding(id, now, 4));
      assert Moves(o, Stranding(id, now, 4), Stranding(id, now, 5));
      assert Moves(o, Stranding(id, now, 5), Stranding(id, now, 6));
    }
  }

  lemma {:induction false} DoublingPasses(first: int, i: nat, n: nat)
    requires first >= 0 && i <= n
    ensures first * Pow2(i) <= first * Pow2(n)
    decreases n
  {
    if i < n {
      DoublingPasses(first, i, n - 1);
      assert first * Pow2(n) == 2 * (first * Pow2(n - 1));
    }
  }

  class Forwarder {
    const options: Options
    var queue: seq<Item>

    constructor (options: Options)
      ensures this.options == options && queue == []
    {
      this.options := options;
      queue := [];
    }

    /** Forwarder::backoff (forwarder.cpp:122-128). */
    method Backoff(attempts: nat) returns (wait: int)
      requires attempts > 0 && options.first >= 0
      ensures wait == Wait(options, attempts) == Min(options.first * Pow2(attempts - 1), options.max)
    {
      wait := options.first;
      var i := 1;
      while i < attempts && wait < options.max
        invariant 1 <= i <= attempts
        invariant wait == options.first * Pow2(i - 1)
      {
        assert options.first * Pow2(i) == 2 * (options.first * Pow2(i - 1));
        wait := wait * 2;
        i := i + 1;
      }
      DoublingPasses(options.first, i - 1, attempts - 1);
      wait := Min(wait, options.max);
    }

    /** Forwarder::enqueue (forwarder.cpp:69-78). */
    method Enqueue(id: string, now: int)
      modifies this
      ensures queue == Enqueued(old(queue), id, now)
      ensures if exists i :: 0 <= i < |old(queue)| && old(queue)[i].id == id then queue == old(queue)
              else |queue| == |old(queue)| + 1 && queue[..|old(queue)|] == old(queue)
                   && queue[|old(queue)|].id == id && queue[|old(queue)|].attempts == 0 && queue[|old(queue)|].due == now
    {
      for i := 0 to |queue|
        invariant queue == old(queue)
        invariant forall j :: 0 <= j < i ==> queue[j].id != id
      {
        if queue[i].id == id {
          return;
        }
      }
      queue := queue + [Item(id, 0, now, now)];
    }

    /** The loop of Forwarder::start over list_outgoing() (forwarder.cpp:84-87). */
    method EnqueueWaiting(waiting: seq<string>, now: int)
      modifies this
      ensures queue == EnqueuedAll(old(queue), waiting, now)
    {
      for i := 0 to |waiting|
        invariant queue == EnqueuedAll(old(queue), waiting[..i], now)
      {
        assert waiting[..i + 1][..i] == waiting[..i];
        Enqueue(waiting[i], now);
      }
      assert waiting[..|waiting|] == waiting;
    }

    /** The worker's choice (forwarder.cpp:216-223): the earliest item, if it is
        due. */
    method TakeDue(now: int) returns (item: Option<Item>)
      modifies this
      ensures item.Some? ==> exists k: nat ::
                && IsEarliest(old(queue), k) && item.value == old(queue)[k] && item.value.due <= now
                && queue == old(queue)[..k] + old(queue)[k + 1..]
      ensures item.None? ==> queue == old(queue) && forall i :: 0 <= i < |queue| ==> queue[i].due > now
    {
      if queue == [] {
        return None;
      }
      var k := 0;
      for i := 1 to |queue|
        invariant queue == old(queue) && 0 <= k < i
        invariant forall j :: 0 <= j < k ==> queue[k].due < queue[j].due
        invariant forall j :: k <= j < i ==> queue[k].due <= queue[j].due
      {
        if queue[i].due < queue[k].due {
          k := i;
        }
      }
      assert IsEarliest(queue, k);
      if queue[k].due > now {
        return None;
      }
      item := Some(queue[k]);
      queue := queue[..k] + queue[k + 1..];
    }

    /** What the worker does with the result of a push (forwarder.cpp:227-244). */
    method AfterPush(item: Item, result: Option<ErrCode>, stop: bool, now: int)
      requires options.first >= 0
      modifies this
      ensures queue ==
              if && result.Some? && !stop
                 && result.value !in {Validation, Auth, Forbidden, NotFound, Conflict, Gone, UnknownDestination}
              then old(queue) + [Item(item.id, item.attempts + 1,
                                      now + Min(options.first * Pow2(item.attempts), options.max), now)]
              else old(queue)
    {
      if result.Some? { TransientExactly(result.value); }
      if result.Some? && IsTransient(result.value) {
        var attempts := item.attempts + 1;
        var wait := Backoff(attempts);
        if !stop {
          queue := queue + [Item(item.id, attempts, now + wait, now)];
        }
      }
    }
  }
}
