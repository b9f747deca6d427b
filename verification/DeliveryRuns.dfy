/** Runs of the two sites from the very start: one that delivers, and two in which a destroy
    at B makes a retry hear "expired", before and after B had committed. They show that the
    delivery theorem speaks about something, and where exactly its condition matters. */
module DeliveryRuns {
  import opened Basics
  import opened FileList
  import opened Transactions
  import opened MetaCodec
  import StorageTree
  import Paths
  import Strings
  import Time
  import opened Core
  import opened Sections
  import opened Delivery

  // --- Reached worlds ---------------------------------------------------------------

  ghost predicate Reached(s: Sites, w: World) {
    exists run :: IsRun(s, run) && run[|run| - 1] == w
  }

  lemma StartReached(s: Sites)
    ensures Reached(s, Start)
  {
    assert IsRun(s, [Start]);
  }

  lemma StepReached(s: Sites, w: World, w': World, step: Step)
    requires Reached(s, w) && Next(s, w, w', step)
    ensures Reached(s, w')
  {
    hide Next;
    var run :| IsRun(s, run) && run[|run| - 1] == w;
    var longer := run + [w'];
    assert Steps(s, w, w');
    forall i | 0 <= i < |longer| - 1 ensures Steps(s, longer[i], longer[i + 1]) {
      assert i < |run| - 1 ==> longer[i] == run[i] && longer[i + 1] == run[i + 1];
    }
    assert IsRun(s, longer) && longer[|longer| - 1] == w';
  }

  // --- What whole operations do -------------------------------------------------------

  lemma CreateRuns(env: Env, op: Op)
    requires op.Create? && Refusal(env, op, NoCore).None?
    ensures var tx := CreatedTx(env, op.caller, op.id, op.request, op.now);
            && |Program(env, op, NoCore)| == 2
            && Run(NoCore, Program(env, op, NoCore)[..2]) == Core(Some(tx), Some(Folder(EncodeMeta(tx), None, StorageTree.EmptyTree)))
  {
    hide EncodeMeta, CreatedTx, Run, Refusal;
    var p := Program(env, op, NoCore);
    TwoSteps(NoCore, p, 2);
  }

  lemma ReceiveRuns(env: Env, op: Op)
    requires op.Receive? && Refusal(env, op, NoCore).None?
    ensures var tx := ReceivedTx(op.caller, op.id, op.push);
            && |Program(env, op, NoCore)| == 1
            && Run(NoCore, Program(env, op, NoCore)[..1]) == Core(Some(tx), Some(Folder(EncodeMeta(tx), None, StorageTree.EmptyTree)))
  {
    hide EncodeMeta, ReceivedTx, Run, Refusal;
    var p := Program(env, op, NoCore);
    OneStep(NoCore, p);
  }

  /** Storing the first file of an open transaction. */
  lemma FinishRuns(env: Env, op: Op, c: Core)
    requires op.Finish? && c.tx.Some? && c.folder.Some? && c.tx.value.state == Open && c.tx.value.files == []
    requires op.expected.Some? ==> op.expected.value == env.hash(op.data)
    requires c.folder.value.tree == StorageTree.EmptyTree && !StorageTree.Clash(StorageTree.EmptyTree, op.path)
    ensures var tx := c.tx.value.(files := [NewEntry(env, op.path, op.data)]);
            var t := StorageTree.Rename(StorageTree.MakeDirs(StorageTree.EmptyTree, op.path), op.path, op.data);
            && Refusal(env, op, c).None? && |Program(env, op, c)| == 4
            && Run(c, Program(env, op, c)[..4]) == Core(Some(tx), Some(c.folder.value.(meta := EncodeMeta(tx), tree := t)))
  {
    hide EncodeMeta, Run, StorageTree.Clash, StorageTree.MakeDirs, StorageTree.Rename;
    var e := NewEntry(env, op.path, op.data);
    assert Upsert([], e) == [e];
    var p := Program(env, op, c);
    FourSteps(c, p, 4);
  }

  lemma CommitRuns(env: Env, op: Op, c: Core)
    requires op.Commit? && c.tx.Some? && c.folder.Some? && c.tx.value.state == Open && MayWrite(op.caller, c.tx.value)
    requires Matches(env, c.tx.value.files, c.folder.value.tree)
    ensures var tx := c.tx.value.(state := Committed, committedAt := Some(op.now));
            && Refusal(env, op, c).None? && |Program(env, op, c)| == 3
            && Run(c, Program(env, op, c)[..3])
               == Core(Some(tx), Some(c.folder.value.(meta := EncodeMeta(tx), manifest := Some(EncodeManifest(tx.id, tx.files)))))
  {
    hide EncodeMeta, EncodeManifest, Run, Program, Refusal, Matches;
    CommitGoesAhead(env, op, c);
    CommitProgram(env, op, c);
    ThreeSteps(c, Program(env, op, c), 3);
  }

  lemma CommitGoesAhead(env: Env, op: Op, c: Core)
    requires op.Commit? && c.tx.Some? && c.folder.Some? && c.tx.value.state == Open && MayWrite(op.caller, c.tx.value)
    requires Matches(env, c.tx.value.files, c.folder.value.tree)
    ensures Refusal(env, op, c).None? && Program(env, op, c) != []
  {
    HashCheckMatches(env, c.tx.value.files, c.folder.value.tree);
    hide HashCheck, Matches, TotalBytes;
  }

  lemma DeliverRuns(env: Env, op: Op, c: Core)
    requires op.MarkDelivered? && c.tx.Some? && c.folder.Some? && c.tx.value.state == Committed
    ensures |Program(env, op, c)| == 2
    ensures var c' := Run(c, Program(env, op, c)[..2]);
            c'.tx == Some(c.tx.value.(state := Delivered, deliveredAt := Some(op.now)))
  {
    hide EncodeMeta, Run, TotalBytes;
    var p := Program(env, op, c);
    TwoSteps(c, p, 2);
  }

  /** The first half of a destroy whose delete fails. */
  lemma DestroyHalf(env: Env, c: Core)
    requires c.tx.Some? && c.folder.Some? && c.tx.value.state != Expired
    ensures |Program(env, Destroy(false), c)| == 3
    ensures var c' := Run(c, Program(env, Destroy(false), c)[..1]);
            c'.tx == Some(c.tx.value.(state := Expired)) && c' != c
  {
    hide EncodeMeta, Run;
    var p := Program(env, Destroy(false), c);
    OneStep(c, p);
  }

  // --- The cast ---------------------------------------------------------------------------

  const SENDER := Caller("v", false, false)
  const REQUEST := CreateRequest("u", "b", 0, "")
  const PATH := "a"

  /** Sites that let the sender's request through, and one file to send. */
  ghost predicate Ready(s: Sites, data: Bytes) {
    && SitesOk(s) && Paths.ValidId(s.id) && s.known == {data} && |data| < UINT64
    && s.envA.localServer != "b" && s.envA.defaultDays == 1 && s.envA.maxDays >= 0
    && s.envA.destination("u", "b") == None && s.envB.destination("u", "") == None
  }

  function Entry(s: Sites, data: Bytes): FileEntry {
    NewEntry(s.envA, PATH, data)
  }

  /** A's transaction once it is committed. */
  function Sent(s: Sites, data: Bytes): Transaction {
    CreatedTx(s.envA, SENDER, s.id, REQUEST, 0)
      .(files := [Entry(s, data)], state := Committed, committedAt := Some(0))
  }

  function Copied(s: Sites, data: Bytes): Transaction {
    ReceivedTx(PeerA(s), s.id, PushOf(Sent(s, data)))
  }

  function Stored(data: Bytes): StorageTree.Tree {
    StorageTree.Rename(StorageTree.MakeDirs(StorageTree.EmptyTree, PATH), PATH, data)
  }

  lemma PathIsFine()
    ensures Paths.ValidPath(PATH) && !StorageTree.Clash(StorageTree.EmptyTree, PATH)
  {
    assert Strings.IndexOf(PATH, '/') == 1;
    assert Strings.Split(PATH, '/') == [PATH];
  }

  lemma StoredMatches(s: Sites, env: Env, data: Bytes)
    requires env.hash == s.envA.hash
    ensures NewEntry(env, PATH, data) == Entry(s, data)
    ensures Matches(env, [Entry(s, data)], Stored(data))
  {}

  // --- A commits ------------------------------------------------------------------------------

  lemma CreateAccepted(s: Sites, data: Bytes)
    requires Ready(s, data)
    ensures Refusal(s.envA, Create(SENDER, s.id, REQUEST, 0), NoCore).None?
    ensures OpOk(Create(SENDER, s.id, REQUEST, 0), s.id)
  {
    hide Paths.ValidId, SitesOk;
    assert CommentOk("", s.envA.maxComment);
  }

  lemma ACommits(s: Sites, data: Bytes) returns (w: World)
    requires Ready(s, data)
    ensures Reached(s, w) && w == Start.(a := w.a)
    ensures w.a.tx == Some(Sent(s, data)) && w.a.folder.Some?
  {
    hide SitesOk, Paths.ValidId, Paths.ValidPath, Refusal, Program, Run, EncodeMeta, EncodeManifest, Reached, StorageTree.Clash, Matches;
    CreateAccepted(s, data);
    PathIsFine();
    StoredMatches(s, s.envA, data);
    var create, finish := Create(SENDER, s.id, REQUEST, 0), Finish(PATH, data, None);
    var commit := Commit(SENDER, 0);
    CreateRuns(s.envA, create);
    var w1 := Start.(a := Run(NoCore, Program(s.envA, create, NoCore)[..2]));
    StartReached(s);
    StepReached(s, Start, w1, LocalA(create, 2));
    FinishRuns(s.envA, finish, w1.a);
    var w2 := w1.(a := Run(w1.a, Program(s.envA, finish, w1.a)[..4]));
    StepReached(s, w1, w2, LocalA(finish, 4));
    CommitRuns(s.envA, commit, w2.a);
    w := w2.(a := Run(w2.a, Program(s.envA, commit, w2.a)[..3]));
    StepReached(s, w2, w, LocalA(commit, 3));
  }

  // --- A pushes, B receives ---------------------------------------------------------------------

  lemma ReceiveAccepted(s: Sites, data: Bytes)
    requires Ready(s, data)
    ensures Refusal(s.envB, ReceiveOp(s, PushOf(Sent(s, data))), NoCore).None?
  {
    hide Paths.ValidId, SitesOk;
    assert CommentOk("", s.envB.maxComment);
  }

  /** B as it is after the first request of the push. */
  lemma BReceives(s: Sites, data: Bytes) returns (w: World)
    requires Ready(s, data)
    ensures Reached(s, w) && w.a.tx == Some(Sent(s, data)) && w.a.folder.Some?
    ensures w.b.tx == Some(Copied(s, data)) && w.b.folder.Some?
    ensures w.b.folder.value.tree == StorageTree.EmptyTree && w.hit.None? && w.landed.None?
    ensures w.push == AwaitReceive(Sent(s, data), 0) && w.next == 1 && w.staged == {} && w.pushed.Some?
    ensures w.replies == map[0 := Fine] && w.requests == map[0 := ReceiveReq(PushOf(Sent(s, data)))]
  {
    hide SitesOk, Paths.ValidId, Refusal, Program, Run, EncodeMeta, Reached;
    var tx := Sent(s, data);
    var w0 := ACommits(s, data);
    var w1 := Send(w0, ReceiveReq(PushOf(tx)), AwaitReceive(tx, 0)).(pushed := Some(tx));
    StepReached(s, w0, w1, StartPush);
    var op := ReceiveOp(s, PushOf(tx));
    ReceiveAccepted(s, data);
    ReceiveRuns(s.envB, op);
    var b := Run(NoCore, Program(s.envB, op, NoCore)[..1]);
    w := BMoves(s, w1, b).(replies := map[0 := Fine]);
    assert Done(s.envB, op, NoCore, 1) == Fine;
    assert w1.replies[0 := Fine] == map[0 := Fine];
    StepReached(s, w1, w, Serve(0, 0, 1));
  }

  // --- The run that delivers ----------------------------------------------------------------------

  /** The upload begins. */
  lemma FileBegins(s: Sites, data: Bytes) returns (w: World)
    requires Ready(s, data)
    ensures Reached(s, w) && w.a.tx == Some(Sent(s, data)) && w.a.folder.Some?
    ensures w.b.tx == Some(Copied(s, data)) && w.b.folder.Some?
    ensures w.b.folder.value.tree == StorageTree.EmptyTree && w.hit.None? && w.landed.None?
    ensures w.push == AwaitPut(Sent(s, data), 0, 1) && w.next == 2 && w.pushed.Some?
    ensures w.staged == {Staged(Some(1), PATH, Some(Entry(s, data).sha256))}
  {
    hide SitesOk, Paths.ValidId, Paths.ValidPath, Refusal, Program, Run, EncodeMeta, Reached, StorageTree.Clash, CommittedThere;
    var tx, e := Sent(s, data), Entry(s, data);
    var w0 := BReceives(s, data);
    var w1 := w0.(push := Sending(tx, 0));
    StepReached(s, w0, w1, TakeReply);
    var w2 := Send(w1, PutReq(PATH, e.sha256), AwaitPut(tx, 0, 1));
    StepReached(s, w1, w2, SendPut);
    PathIsFine();
    PeerNamed(s);
    BeginGoesAhead(s, w2.b);
    var st := Staged(Some(1), PATH, Some(e.sha256));
    w := w2.(staged := {st});
    assert w2.staged + {st} == {st};
    StepReached(s, w2, w, Serve(1, 0, 0));
  }

  /** The file arrives. */
  lemma FileArrives(s: Sites, data: Bytes) returns (w: World)
    requires Ready(s, data)
    ensures Reached(s, w) && w.a.tx == Some(Sent(s, data)) && w.a.folder.Some?
    ensures w.b.tx == Some(Copied(s, data).(files := [Entry(s, data)])) && w.b.folder.Some?
    ensures w.b.folder.value.tree == Stored(data) && w.hit.None? && w.landed.None?
    ensures w.push == AwaitPut(Sent(s, data), 0, 1) && w.next == 2 && w.staged == {} && w.pushed.Some?
    ensures 1 in w.replies && w.replies[1] == Fine
  {
    hide SitesOk, Paths.ValidId, Paths.ValidPath, Refusal, Program, Run, EncodeMeta, Reached, StorageTree.Clash, CommittedThere;
    var tx, e := Sent(s, data), Entry(s, data);
    var st := Staged(Some(1), PATH, Some(e.sha256));
    var w3 := FileBegins(s, data);
    PathIsFine();
    PeerNamed(s);
    var op := Finish(PATH, data, Some(e.sha256));
    SameHash(s);
    FinishRuns(s.envB, op, w3.b);
    var b := Run(w3.b, Program(s.envB, op, w3.b)[..4]);
    OpenIsNotCommitted(s, b);
    w := BMoves(s, w3, b).(staged := {}, replies := w3.replies[1 := Fine]);
    assert Done(s.envB, op, w3.b, 4) == Fine && w3.staged - {st} == {};
    StoredMatches(s, s.envB, data);
    StepReached(s, w3, w, FinishStaged(st, data, 4));
  }

  lemma SameHash(s: Sites)
    requires SitesOk(s)
    ensures s.envA.hash == s.envB.hash
  {}

  lemma OpenIsNotCommitted(s: Sites, b: Core)
    ensures b.tx.Some? && b.tx.value.state == Open ==> !CommittedThere(s, b)
  {}

  lemma BeginGoesAhead(s: Sites, b: Core)
    requires b.tx.Some? && b.folder.Some? && b.tx.value.state == Open && b.tx.value.originServer == s.peer && s.peer != ""
    ensures Refusal(s.envB, Begin(PeerA(s)), b).None?
  {}

  /** A asks for the commit. */
  lemma AAsksForCommit(s: Sites, data: Bytes) returns (w: World)
    requires Ready(s, data)
    ensures Reached(s, w) && w.a.tx == Some(Sent(s, data)) && w.a.folder.Some?
    ensures w.b.tx == Some(Copied(s, data).(files := [Entry(s, data)])) && w.b.folder.Some?
    ensures w.b.folder.value.tree == Stored(data) && w.hit.None? && w.landed.None?
    ensures w.push == AwaitCommit(Sent(s, data), 2) && w.next == 3 && w.pushed.Some?
    ensures 2 in w.requests && w.requests[2] == CommitReq
  {
    hide SitesOk, Paths.ValidId, Refusal, Program, Run, EncodeMeta, EncodeManifest, Reached, Matches;
    var tx := Sent(s, data);
    var w0 := FileArrives(s, data);
    var w1 := w0.(push := Sending(tx, 1));
    StepReached(s, w0, w1, TakeReply);
    w := Send(w1, CommitReq, AwaitCommit(tx, 2));
    StepReached(s, w1, w, SendCommit);
  }

  /** B commits, and answers. */
  lemma BCommits(s: Sites, data: Bytes) returns (w: World)
    requires Ready(s, data)
    ensures Reached(s, w) && w.a.tx == Some(Sent(s, data)) && w.a.folder.Some?
    ensures FromA(s, w.b) && w.b.tx.value.state == Committed && w.b.folder.Some? && w.hit.None?
    ensures w.push == AwaitCommit(Sent(s, data), 2) && w.next == 3 && w.pushed.Some?
    ensures 2 in w.replies && w.replies[2] == Fine
  {
    hide SitesOk, Paths.ValidId, Refusal, Program, Run, EncodeMeta, EncodeManifest, Reached, Matches;
    var tx := Sent(s, data);
    var w2 := AAsksForCommit(s, data);
    var op := Commit(PeerA(s), 0);
    PeerNamed(s);
    SameHash(s);
    StoredMatches(s, s.envB, data);
    CommitRuns(s.envB, op, w2.b);
    w := BMoves(s, w2, Run(w2.b, Program(s.envB, op, w2.b)[..3])).(replies := w2.replies[2 := Fine]);
    assert Done(s.envB, op, w2.b, 3) == Fine;
    StepReached(s, w2, w, Serve(2, 0, 3));
  }

  /** There are runs that deliver, and then B has committed exactly A's list. */
  lemma SomeRunDelivers(s: Sites, data: Bytes) returns (w: World)
    requires Ready(s, data)
    ensures Reached(s, w) && w.a.tx.Some? && w.a.tx.value.state == Delivered && w.a.tx.value.files == [Entry(s, data)]
    ensures Landed(s, w, w.a.tx.value.files)
  {
    hide Ready, Program, Run, Reached, Landed;
    var w0 := BCommits(s, data);
    var w1 := w0.(push := Confirmed(Sent(s, data), Fine));
    StepReached(s, w0, w1, TakeReply);
    DeliverRuns(s.envA, MarkDelivered(0), w1.a);
    w := w1.(a := Run(w1.a, Program(s.envA, MarkDelivered(0), w1.a)[..2]), push := Idle);
    StepReached(s, w1, w, MarkDone(0, 2));
    DeliveredThen(s, data, w);
  }

  lemma DeliveredThen(s: Sites, data: Bytes, w: World)
    requires Ready(s, data) && Reached(s, w) && w.a.tx.Some? && w.a.tx.value.state == Delivered
    ensures Landed(s, w, w.a.tx.value.files) <==> !CutOff(s, w)
  {
    hide Landed, CutOff, Steps, SitesOk;
    var run :| IsRun(s, run) && run[|run| - 1] == w;
    DeliveredMeansCommittedThere(s, run);
  }

  /** So the delivery theorem is about something. */
  lemma DeliveryHappens()
    ensures exists s, w :: SitesOk(s) && Delivers(s, w)
  {
    hide Demo, SitesOk, Landed, Reached;
    DemoIsReady();
    var w := SomeRunDelivers(Demo(), [7]);
    assert Delivers(Demo(), w);
  }

  ghost predicate Delivers(s: Sites, w: World) {
    && Reached(s, w) && w.a.tx.Some? && w.a.tx.value.state == Delivered && w.a.tx.value.files != []
    && Landed(s, w, w.a.tx.value.files)
  }

  // --- Runs with a destroy at B -------------------------------------------------------------------

  /** A retry that finds a copy at B asks for its state; meanwhile B marks the copy expired and
      cannot delete it; so the push acts on "expired". */
  lemma RetryHearsExpired(s: Sites, data: Bytes, w: World) returns (w': World)
    requires Ready(s, data) && Reached(s, w) && w.push.Idle? && w.a.tx == Some(Sent(s, data)) && w.pushed.Some?
    requires FromA(s, w.b) && w.b.folder.Some? && w.b.tx.value.state != Expired && w.hit.None?
    ensures Reached(s, w') && w'.push == Confirmed(Sent(s, data), StateIs(Expired))
    ensures w'.a == w.a && w'.hit == Some(w.b) && w'.landed == w.landed
  {
    hide Paths.ValidId, Refusal, Program, Run, EncodeMeta, Reached, Sent, SitesOk;
    var tx, n := Sent(s, data), w.next;
    SentIsOutgoing(s, data);
    var op := ReceiveOp(s, PushOf(tx));
    CopyConflicts(s, data, w.b);
    var w1 := Send(w, ReceiveReq(PushOf(tx)), AwaitReceive(tx, n));
    StepReached(s, w, w1, StartPush);
    NoSteps(w.b, Program(s.envB, op, w.b));
    var w2 := BMoves(s, w1, w.b).(replies := w1.replies[n := Refused(Conflict)]);
    StepReached(s, w1, w2, Serve(n, 0, 0));
    var w3 := Send(w2, GetReq, AwaitGet(tx, n + 1));
    StepReached(s, w2, w3, TakeReply);
    w' := ExpiredIsHeard(s, tx, w3);
    LandedAlready(s, w);
  }

  /** Landing is recorded when it happens, not later. */
  lemma LandedAlready(s: Sites, w: World)
    requires SitesOk(s) && Reached(s, w) && w.hit.None?
    ensures BMoves(s, w, w.b).landed == w.landed
  {
    hide Steps, SitesOk, Good, Copy, Pushed, StagedInv, OthersInv, Known;
    var run :| IsRun(s, run) && run[|run| - 1] == w;
    RunKeeps(s, run);
  }

  lemma ExpiredIsHeard(s: Sites, tx: Transaction, w: World) returns (w': World)
    requires Reached(s, w) && w.push.AwaitGet? && w.push.tx == tx && w.push.serial in w.requests
    requires w.requests[w.push.serial] == GetReq && s.peer != ""
    requires FromA(s, w.b) && w.b.folder.Some? && w.b.tx.value.state != Expired && w.hit.None?
    ensures Reached(s, w') && w'.push == Confirmed(tx, StateIs(Expired))
    ensures w'.a == w.a && w'.hit == Some(w.b) && w'.landed == w.landed
  {
    hide Refusal, Program, Run, EncodeMeta, Reached;
    var n := w.push.serial;
    DestroyHalf(s.envB, w.b);
    var w1 := BDestroys(w, Run(w.b, Program(s.envB, Destroy(false), w.b)[..1]));
    StepReached(s, w, w1, DestroyB(false, 1));
    var w2 := w1.(replies := w1.replies[n := StateIs(Expired)]);
    assert GetReply(s, w1.b) == StateIs(Expired);
    StepReached(s, w1, w2, Serve(n, 0, 0));
    w' := w2.(push := Confirmed(tx, StateIs(Expired)));
    StepReached(s, w2, w', TakeReply);
  }

  lemma SentIsOutgoing(s: Sites, data: Bytes)
    requires Ready(s, data)
    ensures IsOutgoing(Sent(s, data))
  {}

  lemma CopyConflicts(s: Sites, data: Bytes, b: Core)
    requires Ready(s, data) && b.tx.Some?
    ensures Refusal(s.envB, ReceiveOp(s, PushOf(Sent(s, data))), b) == Some(Conflict)
    ensures s.peer != "" && Paths.ValidId(s.id)
  {
    hide Paths.ValidId;
    assert CommentOk("", s.envB.maxComment);
  }

  /** The copy is destroyed before B committed it: the push still marks its transaction
      delivered, and B has committed nothing. */
  lemma CutOffRun(s: Sites, data: Bytes) returns (w: World, w': World)
    requires Ready(s, data)
    ensures Reached(s, w) && w.push == Confirmed(Sent(s, data), StateIs(Expired)) && w.landed.None?
    ensures Reached(s, w') && w'.a.tx.Some? && w'.a.tx.value.state == Delivered
    ensures CutOff(s, w') && w'.landed.None?
  {
    hide Paths.ValidId, SitesOk, Program, Run, Reached;
    var w0 := BReceives(s, data);
    var w1 := w0.(push := Idle);
    StepReached(s, w0, w1, Abort);
    w := RetryHearsExpired(s, data, w1);
    DeliverRuns(s.envA, MarkDelivered(0), w.a);
    w' := w.(a := Run(w.a, Program(s.envA, MarkDelivered(0), w.a)[..2]), push := Idle);
    StepReached(s, w, w', MarkDone(0, 2));
  }

  /** The copy is destroyed after B committed it and the confirmation got lost: the push hears
      the same answer, and B has committed exactly A's list. */
  lemma LateDestroyRun(s: Sites, data: Bytes) returns (w: World)
    requires Ready(s, data)
    ensures Reached(s, w) && w.push == Confirmed(Sent(s, data), StateIs(Expired))
    ensures Landed(s, w, w.push.tx.files) && !CutOff(s, w)
  {
    hide Paths.ValidId, SitesOk, Program, Run, Reached, Landed;
    var w0 := BCommits(s, data);
    var w1 := w0.(push := Idle);
    StepReached(s, w0, w1, Abort);
    w := RetryHearsExpired(s, data, w1);
    ConfirmedThen(s, w);
  }

  lemma ConfirmedThen(s: Sites, w: World)
    requires SitesOk(s) && Reached(s, w) && w.push.Confirmed?
    ensures w.push.answer != StateIs(Expired) ==> Landed(s, w, w.push.tx.files)
    ensures Landed(s, w, w.push.tx.files) <==> !CutOff(s, w)
  {
    hide Landed, CutOff, Steps, SitesOk;
    var run :| IsRun(s, run) && run[|run| - 1] == w;
    AnswerIsWorth(s, run);
  }

  // --- The condition a push could check --------------------------------------------------------------

  /** Such sites exist: both hash everything to the same digest, and one file is sent. */
  function Demo(): Sites {
    var env := Env((b: Bytes) => seq(32, i => 0), "here", 1, 1, 0, (user: string, server: string) => None);
    Sites("00000000-0000-4000-8000-000000000000", env, env, "a", {[7]})
  }

  lemma DemoIsReady()
    ensures Ready(Demo(), [7])
  {
    hide Paths.ValidId;
    DemoIsId();
  }

  lemma DemoIsId()
    ensures Paths.ValidId(Demo().id)
  {
    var id := "00000000-0000-4000-8000-000000000000";
    assert |id| == 36 && id[8] == '-' && id[13] == '-' && id[18] == '-' && id[23] == '-';
    assert Paths.ValidId(id);
  }

  /** A push may act on this answer: in all runs of all sites, whenever it does, B has
      committed exactly the list that was pushed. */
  ghost predicate Trustworthy(answer: Reply) {
    forall s, w :: SitesOk(s) && Reached(s, w) && Acts(w, answer) ==> Landed(s, w, w.push.tx.files)
  }

  predicate Acts(w: World, answer: Reply) {
    w.push.Confirmed? && w.push.answer == answer
  }

  /** The exact condition: an answer can be trusted if and only if it is not "expired". The
      code takes "expired" for a confirmation as well. */
  lemma AnswerTells(answer: Reply)
    ensures Trustworthy(answer) <==> answer != StateIs(Expired)
  {
    hide Landed, Reached, SitesOk, Demo;
    if answer != StateIs(Expired) {
      forall s, w | SitesOk(s) && Reached(s, w) && Acts(w, answer) ensures Landed(s, w, w.push.tx.files) {
        ConfirmedThen(s, w);
      }
    } else {
      DemoIsReady();
      var w, _ := CutOffRun(Demo(), [7]);
      assert Acts(w, answer);
      NotLanded(Demo(), w);
    }
  }

  lemma NotLanded(s: Sites, w: World)
    requires w.landed.None? && w.push.Confirmed?
    ensures !Landed(s, w, w.push.tx.files)
  {}
}
