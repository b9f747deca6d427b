/** Two sites and a lossy network: site A's forwarder pushes one committed
    transaction to site B (src/lib/forwarder/forwarder.cpp:130-206) over B's four
    /internal routes (src/lib/api/handlers.cpp:86-109).

    Requests and replies may be lost, delayed, reordered or served again; a push may
    be cut off at any point and retried; uploads are staged at B without a lock and
    finished later, possibly long after their push was given up. Both sites' own
    users, administrators, retention jobs and other peers act on the same id in between. */
module Delivery {
  import opened Basics
  import opened FileList
  import opened PathOrder
  import opened Transactions
  import opened MetaCodec
  import StorageTree
  import Paths
  import opened Core
  import opened Sections

  datatype Request =
    | ReceiveReq(push: ReceiveRequest)
    | GetReq
    | PutReq(path: string, sha256: Digest)   // X-Checksum-SHA256 is always sent
    | CommitReq

  datatype Reply = Fine | StateIs(state: State) | Refused(code: ErrCode)

  /** An upload begun at B; from A's request `serial`, or from somebody else. */
  datatype Staged = Staged(serial: Option<nat>, path: string, expected: Option<Digest>)

  /** Where A's forwarder is in push(); `tx` is its copy of A's transaction. */
  datatype Push =
    | Idle
    | AwaitReceive(tx: Transaction, serial: nat)
    | AwaitGet(tx: Transaction, serial: nat)
    | Sending(tx: Transaction, i: nat)
    | AwaitPut(tx: Transaction, i: nat, serial: nat)
    | AwaitCommit(tx: Transaction, serial: nat)
    | Confirmed(tx: Transaction, answer: Reply)   // and what made it sure

  datatype World = World(
    a: Core,
    aGone: bool,                       // A's copy has been destroyed
    b: Core,
    hit: Option<Core>,                 // what B had when a destroy first changed it
    landed: Option<Core>,              // what B had when it committed what A pushed
    push: Push,
    next: nat,
    requests: map<nat, Request>,       // every request sent so far
    replies: map<nat, Reply>,
    staged: set<Staged>,
    pushed: Option<Transaction>)       // A's transaction when it was first pushed

  const Start := World(NoCore, false, NoCore, None, None, Idle, 0, map[], map[], {}, None)

  /** The two sites' settings; `peer` is what B calls A, `known` the byte strings that are
      uploaded anywhere in the run. */
  datatype Sites = Sites(id: string, envA: Env, envB: Env, peer: string, known: set<Bytes>)

  /** Both sites hash alike, and no two byte strings of the run collide. */
  ghost predicate SitesOk(s: Sites) {
    && s.peer != "" && s.envA.hash == s.envB.hash
    && forall x, y :: x in s.known && y in s.known && s.envA.hash(x) == s.envA.hash(y) ==> x == y
  }

  /** B's record as the pushes made it: what it is, or was until a destroy changed it. */
  function Seen(w: World): Core {
    if w.hit.Some? then w.hit.value else w.b
  }

  /** B's record becomes b', by other means than a destroy. */
  function BMoves(s: Sites, w: World, b': Core): World {
    w.(b := b', landed := if w.landed.None? && CommittedThere(s, b') then Some(b') else w.landed)
  }

  /** B's record becomes b' by a destroy or a part of one. */
  function BDestroys(w: World, b': Core): World {
    w.(b := b', hit := if w.hit.None? && b' != w.b then Some(w.b) else w.hit)
  }

  function PeerA(s: Sites): Caller {
    Caller(s.peer, true, false)
  }

  /** What status a refusal has when the peer sees it: 403 is answered as 404
      (src/lib/api/handlers.cpp:347-351). */
  function OnTheWire(code: ErrCode): ErrCode {
    if code == Forbidden then NotFound else code
  }

  /** Operations on B's copy by anybody but A: every caller except the peer A, deliveries
      only of B's own outgoing transactions. Uploads go through BeginOther and
      FinishStaged, destruction through DestroyB. */
  predicate ForeignOp(s: Sites, op: Op, b: Core) {
    match op
    case Destroy(_) => false
    case Finish(_, _, _) => false
    case MarkDelivered(_) => b.tx.Some? && IsOutgoing(b.tx.value)
    case Create(c, _, _, _) => !(c.isPeer && c.name == s.peer)
    case Receive(c, _, _) => !(c.isPeer && c.name == s.peer)
    case Begin(c) => !(c.isPeer && c.name == s.peer)
    case RemoveFile(c, _, _) => !(c.isPeer && c.name == s.peer)
    case Commit(c, _) => !(c.isPeer && c.name == s.peer)
    case SetRetention(c, _) => true
  }

  datatype Step =
    | LocalA(op: Op, k: nat)
    | LocalB(op: Op, k: nat)
    | DestroyB(byAdmin: bool, k: nat)
    | BeginOther(caller: Caller, path: string, expected: Option<Digest>)
    | StartPush
    | TakeReply
    | SendPut
    | SendCommit
    | MarkDone(now: int, k: nat)
    | Abort
    | Serve(n: nat, now: int, k: nat)
    | FinishStaged(st: Staged, data: Bytes, k: nat)

  function Done(env: Env, op: Op, c: Core, k: nat): Reply {
    if Refusal(env, op, c).Some? then Refused(OnTheWire(Refusal(env, op, c).value))
    else if k == |Program(env, op, c)| then Fine else Refused(Io)
  }

  function ReceiveOp(s: Sites, p: ReceiveRequest): Op {
    Receive(PeerA(s), s.id, p)
  }

  function PushOf(tx: Transaction): ReceiveRequest {
    ReceiveRequest(tx.sender, tx.targetUser, tx.createdAt, tx.expiresAt, tx.comment)
  }

  /** get() as A sees it: A may read only what it pushed itself. */
  function GetReply(s: Sites, b: Core): Reply {
    if b.tx.Some? && IsOriginPeer(PeerA(s), b.tx.value) then StateIs(b.tx.value.state) else Refused(NotFound)
  }

  function Send(w: World, r: Request, p: Push): World {
    w.(requests := w.requests[w.next := r], next := w.next + 1, push := p)
  }

  /** A's forwarder acting on the reply it waited for. */
  function AfterReply(w: World, r: Reply): World {
    match w.push
    case AwaitReceive(tx, _) =>
      if r == Fine then w.(push := Sending(tx, 0))
      else if r == Refused(Conflict) then Send(w, GetReq, AwaitGet(tx, w.next))
      else w.(push := Idle)
    case AwaitGet(tx, _) =>
      if r.StateIs? then w.(push := if r.state != Open then Confirmed(tx, r) else Sending(tx, 0))
      else w.(push := Idle)
    case AwaitPut(tx, i, _) => w.(push := if r == Fine then Sending(tx, i + 1) else Idle)
    case AwaitCommit(tx, _) => w.(push := if r == Fine then Confirmed(tx, r) else Idle)
    case _ => w
  }

  predicate Waiting(p: Push) {
    p.AwaitReceive? || p.AwaitGet? || p.AwaitPut? || p.AwaitCommit?
  }

  /** B serving A's request n, with its disk calls failing after k steps. */
  ghost predicate Serves(s: Sites, w: World, w': World, n: nat, now: int, k: nat)
    requires n in w.requests
  {
    match w.requests[n]
    case ReceiveReq(p) =>
      var op := ReceiveOp(s, p);
      && Paths.ValidId(s.id) && k <= |Program(s.envB, op, w.b)|
      && (k > 0 ==> w.hit.None?) // a destroyed id is not inserted again
      && w' == BMoves(s, w, Run(w.b, Program(s.envB, op, w.b)[..k]))
                 .(replies := w.replies[n := Done(s.envB, op, w.b, k)])
    case GetReq => w' == w.(replies := w.replies[n := GetReply(s, w.b)])
    case PutReq(path, sha) =>
      var no := Refusal(s.envB, Begin(PeerA(s)), w.b);
      && Paths.ValidPath(path)
      && w' == if no.Some? then w.(replies := w.replies[n := Refused(OnTheWire(no.value))])
               else w.(staged := w.staged + {Staged(Some(n), path, Some(sha))})
    case CommitReq =>
      var op := Commit(PeerA(s), now);
      && k <= |Program(s.envB, op, w.b)|
      && w' == BMoves(s, w, Run(w.b, Program(s.envB, op, w.b)[..k]))
                 .(replies := w.replies[n := Done(s.envB, op, w.b, k)])
  }

  ghost predicate Next(s: Sites, w: World, w': World, step: Step) {
    match step
    case LocalA(op, k) =>
      && OpOk(op, s.id) && !op.MarkDelivered? && k <= |Program(s.envA, op, w.a)|
      && (op.Create? || op.Receive? ==> !w.aGone) && (op.Finish? ==> op.data in s.known)
      && var a' := Run(w.a, Program(s.envA, op, w.a)[..k]);
      w' == w.(a := a', aGone := w.aGone || (w.a.tx.Some? && a'.tx.None?))
    case LocalB(op, k) =>
      && OpOk(op, s.id) && ForeignOp(s, op, w.b) && k <= |Program(s.envB, op, w.b)|
      && ((op.Create? || op.Receive?) && k > 0 ==> w.hit.None?)
      && w' == BMoves(s, w, Run(w.b, Program(s.envB, op, w.b)[..k]))
    case DestroyB(byAdmin, k) =>
      && k <= |Program(s.envB, Destroy(byAdmin), w.b)|
      && w' == BDestroys(w, Run(w.b, Program(s.envB, Destroy(byAdmin), w.b)[..k]))
    case BeginOther(caller, path, expected) =>
      && !(caller.isPeer && caller.name == s.peer) && Paths.ValidPath(path)
      && Refusal(s.envB, Begin(caller), w.b).None?
      && w' == w.(staged := w.staged + {Staged(None, path, expected)})
    case StartPush =>
      && w.push.Idle? && w.a.tx.Some? && IsOutgoing(w.a.tx.value)
      && var tx := w.a.tx.value;
      w' == Send(w, ReceiveReq(PushOf(tx)), AwaitReceive(tx, w.next))
              .(pushed := if w.pushed.Some? then w.pushed else Some(tx))
    case TakeReply =>
      && Waiting(w.push) && w.push.serial in w.replies
      && w' == AfterReply(w, w.replies[w.push.serial])
    case SendPut =>
      && w.push.Sending? && w.push.i < |w.push.tx.files|
      && var f := w.push.tx.files[w.push.i];
      w' == Send(w, PutReq(f.path, f.sha256), AwaitPut(w.push.tx, w.push.i, w.next))
    case SendCommit =>
      && w.push.Sending? && w.push.i == |w.push.tx.files|
      && w' == Send(w, CommitReq, AwaitCommit(w.push.tx, w.next))
    case MarkDone(now, k) =>
      && w.push.Confirmed? && k <= |Program(s.envA, MarkDelivered(now), w.a)|
      && w' == w.(a := Run(w.a, Program(s.envA, MarkDelivered(now), w.a)[..k]), push := Idle)
    case Abort => w' == w.(push := Idle)
    case Serve(n, now, k) => n in w.requests && Serves(s, w, w', n, now, k)
    case FinishStaged(st, data, k) =>
      && st in w.staged
      && var op := Finish(st.path, data, st.expected);
      && OpOk(op, s.id) && data in s.known && k <= |Program(s.envB, op, w.b)|
      && w' == BMoves(s, w, Run(w.b, Program(s.envB, op, w.b)[..k]))
                 .(staged := w.staged - {st},
                   replies := if st.serial.Some? then w.replies[st.serial.value := Done(s.envB, op, w.b, k)]
                              else w.replies)
  }

  ghost predicate Steps(s: Sites, w: World, w': World) {
    exists step :: Next(s, w, w', step)
  }

  ghost predicate IsRun(s: Sites, run: seq<World>) {
    && |run| > 0 && run[0] == Start
    && forall i :: 0 <= i < |run| - 1 ==> Steps(s, run[i], run[i + 1])
  }

  // --- B's copy ---------------------------------------------------------------

  predicate FromA(s: Sites, b: Core) {
    b.tx.Some? && b.tx.value.originServer == s.peer
  }

  /** B's copy, if A pushed it: only files of A's list while open, exactly A's
      list once committed, and never anything else. */
  ghost predicate Copy(s: Sites, b: Core, files: seq<FileEntry>) {
    FromA(s, b) ==>
      var t := b.tx.value;
      && (t.state == Open || t.state == Committed)
      && (forall e :: e in t.files ==> e in files)
      && (t.state == Committed ==> t.files == files)
  }

  /** B's copy only ever gains: it stays A's, keeps its files, stays committed. */
  ghost predicate Grows(s: Sites, b: Core, b': Core) {
    FromA(s, b) ==>
      && FromA(s, b')
      && (forall e :: e in b.tx.value.files ==> e in b'.tx.value.files)
      && (b.tx.value.state == Committed ==> b'.tx.value.state == Committed)
  }

  ghost predicate AllThere(s: Sites, b: Core, files: seq<FileEntry>) {
    FromA(s, b) && forall e :: e in files ==> e in b.tx.value.files
  }

  predicate CommittedThere(s: Sites, b: Core) {
    FromA(s, b) && b.tx.value.state == Committed
  }

  /** A's list was backed by bytes when it was committed. */
  ghost predicate Backed(s: Sites, files: seq<FileEntry>) {
    Sorted(files) && forall e :: e in files ==> EntryBacked(s, e)
  }

  ghost predicate EntryBacked(s: Sites, e: FileEntry) {
    exists data :: data in s.known && |data| == e.size && s.envA.hash(data) == e.sha256
  }

  /** Everything stored was uploaded in the run. */
  ghost predicate Known(s: Sites, c: Core) {
    c.folder.Some? ==> forall p :: p in c.folder.value.tree.files ==> c.folder.value.tree.files[p] in s.known
  }

  lemma SealedIsBacked(s: Sites, a: Core)
    requires Good(s.envA, s.id, a) && Known(s, a) && a.tx.Some? && Sealed(a.tx.value)
    ensures Backed(s, a.tx.value.files)
  {
    hide EncodeMeta, EncodeManifest, StorageTree.Shaped;
    var files, t := a.tx.value.files, a.folder.value.tree;
    forall e | e in files ensures EntryBacked(s, e) {
      assert EntryMatches(s.envA, e, t);
      var data := t.files[e.path];
      assert data in s.known && |data| == e.size && s.envA.hash(data) == e.sha256;
    }
  }

  lemma DoKnown(s: Sites, c: Core, m: Micro)
    requires Known(s, c) && (m.Publish? ==> m.data in s.known)
    ensures Known(s, Do(c, m))
  {
    hide EncodeMeta, EncodeManifest;
    if m.DropPayload? && c.folder.Some? {
      var t := c.folder.value.tree;
      StorageTree.PruneFiles(t.(files := t.files - {m.path}), StorageTree.Parent(m.path), m.prunes);
    }
  }

  lemma {:induction false} RunKnown(s: Sites, c: Core, ms: seq<Micro>)
    requires Known(s, c) && forall i :: 0 <= i < |ms| && ms[i].Publish? ==> ms[i].data in s.known
    ensures Known(s, Run(c, ms))
  {
    hide Known, Do;
    if ms != [] {
      RunKnown(s, c, ms[..|ms| - 1]);
      DoKnown(s, Run(c, ms[..|ms| - 1]), ms[|ms| - 1]);
    }
  }

  /** Only a finished upload stores bytes. */
  lemma PublishesItsData(env: Env, op: Op, c: Core, i: nat)
    requires i < |Program(env, op, c)| && Program(env, op, c)[i].Publish?
    ensures op.Finish? && Program(env, op, c)[i].data == op.data
  {
    hide Upsert, Erase, TotalBytes, RefusalOf, CommentOk, CreatedTx, ReceivedTx;
  }

  lemma PrefixKnown(s: Sites, env: Env, op: Op, c: Core, k: nat)
    requires Known(s, c) && (op.Finish? ==> op.data in s.known) && k <= |Program(env, op, c)|
    ensures Known(s, Run(c, Program(env, op, c)[..k]))
  {
    hide Known, Program, Run;
    var p := Program(env, op, c);
    forall i | 0 <= i < k && p[..k][i].Publish? ensures p[..k][i].data in s.known {
      PublishesItsData(env, op, c, i);
    }
    RunKnown(s, c, p[..k]);
  }

  /** An upload that carries a digest of A's list stores exactly A's entry. */
  lemma EntryIsAs(s: Sites, files: seq<FileEntry>, e: FileEntry, data: Bytes)
    requires SitesOk(s) && Backed(s, files) && e in files && data in s.known && s.envB.hash(data) == e.sha256
    ensures NewEntry(s.envB, e.path, data) == e
  {
    assert EntryBacked(s, e);
    var own :| own in s.known && |own| == e.size && s.envA.hash(own) == e.sha256;
    assert own == data;
  }

  // --- What operations do to B's record ------------------------------------------

  /** Nobody but A can change what A pushed. */
  lemma ForeignKeeps(s: Sites, op: Op, b: Core, k: nat)
    requires Good(s.envB, s.id, b) && OpOk(op, s.id) && ForeignOp(s, op, b) && s.peer != ""
    requires k <= |Program(s.envB, op, b)|
    ensures var b' := Run(b, Program(s.envB, op, b)[..k]);
            && (FromA(s, b) ==>
                  FromA(s, b') && b'.tx.value.files == b.tx.value.files && b'.tx.value.state == b.tx.value.state)
            && (!FromA(s, b) ==> !FromA(s, b'))
            && (b.tx.Some? ==> b'.tx.Some?)
  {
    hide Good, Run, EncodeMeta, EncodeManifest, Upsert, Erase, HashCheck, CommentOk, StorageTree.Unlink;
    var p := Program(s.envB, op, b);
    NoSteps(b, p);
    if k > 0 {
      OneStep(b, p);
      match op {
        case Create(_, _, _, _) => InsertProgram(s.envB, op, b); if k == 2 { TwoSteps(b, p, 2); }
        case Receive(_, _, _) => InsertProgram(s.envB, op, b);
        case Begin(_) => BeginEmpty(s.envB, op, b);
        case RemoveFile(_, _, _) => RemoveProgram(s.envB, op, b); ThreeSteps(b, p, k);
        case Commit(_, _) => CommitProgram(s.envB, op, b); ThreeSteps(b, p, k);
        case MarkDelivered(_) => DeliverProgram(s.envB, op, b); TwoSteps(b, p, k);
        case SetRetention(_, _) => DeliverProgram(s.envB, op, b); TwoSteps(b, p, k);
      }
    }
  }

  lemma CommitDoes(s: Sites, now: int, b: Core, k: nat)
    requires Good(s.envB, s.id, b) && k <= |Program(s.envB, Commit(PeerA(s), now), b)|
    ensures var op := Commit(PeerA(s), now);
            var b' := Run(b, Program(s.envB, op, b)[..k]);
            && (k == 0 ==> b' == b)
            && (k > 0 ==> FromA(s, b) && b.tx.value.state == Open && b'.tx.Some?
                          && b'.tx.value.files == b.tx.value.files && b'.tx.value.originServer == s.peer
                          && b'.tx.value.state == if k == 1 then Open else Committed)
            && (Done(s.envB, op, b, k) == Fine ==> k == 3)
  {
    hide Good, Run, EncodeMeta, EncodeManifest, HashCheck, Matches, Refusal;
    var op := Commit(PeerA(s), now);
    var p := Program(s.envB, op, b);
    NoSteps(b, p);
    if Refusal(s.envB, op, b).None? { CommitAccepted(s.envB, op, b); }
    if k > 0 {
      CommitProgram(s.envB, op, b);
      GoodParts(s.envB, s.id, b);
      ThreeSteps(b, p, k);
    }
  }

  lemma CommitAccepted(env: Env, op: Op, b: Core)
    requires op.Commit? && Refusal(env, op, b).None?
    ensures |Program(env, op, b)| == 3
  {
    hide HashCheck;
  }

  lemma ReceiveDoes(s: Sites, p: ReceiveRequest, b: Core, k: nat)
    requires Good(s.envB, s.id, b) && k <= |Program(s.envB, ReceiveOp(s, p), b)|
    ensures var op := ReceiveOp(s, p);
            var b' := Run(b, Program(s.envB, op, b)[..k]);
            && (k == 0 ==> b' == b)
            && (k > 0 ==> b.tx.None? && FromA(s, b') && b'.tx.value.files == [] && b'.tx.value.state == Open)
            && (Done(s.envB, op, b, k) == Fine ==> k == 1)
  {
    hide EncodeMeta, CommentOk, StorageTree.Shaped, Run;
    var op := ReceiveOp(s, p);
    var prog := Program(s.envB, op, b);
    NoSteps(b, prog);
    if k > 0 {
      OneStep(b, prog);
      InsertProgram(s.envB, op, b);
    }
  }

  lemma FinishDoes(s: Sites, op: Op, b: Core, k: nat)
    requires Good(s.envB, s.id, b) && op.Finish? && k <= |Program(s.envB, op, b)|
    ensures var b' := Run(b, Program(s.envB, op, b)[..k]);
            && (k < 3 ==> b'.tx == b.tx)
            && (k > 0 ==> b.tx.Some? && b.tx.value.state == Open
                          && (op.expected.Some? ==> op.expected.value == s.envB.hash(op.data)))
            && (k >= 3 ==> b'.tx == Some(b.tx.value.(files := Upsert(b.tx.value.files, NewEntry(s.envB, op.path, op.data)))))
            && (Done(s.envB, op, b, k) == Fine ==> k == 4)
  {
    hide Good, Run, EncodeMeta, EncodeManifest, Upsert, Refusal, StorageTree.MakeDirs, StorageTree.Rename;
    var p := Program(s.envB, op, b);
    NoSteps(b, p);
    if Refusal(s.envB, op, b).None? { FinishAccepted(s.envB, op, b); }
    if k > 0 {
      FinishProgram(s.envB, op, b);
      GoodParts(s.envB, s.id, b);
      FourSteps(b, p, k);
    }
  }

  lemma FinishAccepted(env: Env, op: Op, b: Core)
    requires op.Finish? && Refusal(env, op, b).None?
    ensures |Program(env, op, b)| == 4
  {
    hide StorageTree.Clash, Upsert;
  }

  /** A finished upload of A's keeps B's copy inside A's list and loses nothing. */
  lemma FinishCopies(s: Sites, op: Op, b: Core, k: nat, files: seq<FileEntry>, e: FileEntry)
    requires SitesOk(s) && Backed(s, files) && Good(s.envB, s.id, b) && Copy(s, b, files) && FromA(s, b)
    requires e in files && op.Finish? && op.path == e.path && op.expected == Some(e.sha256) && op.data in s.known
    requires k <= |Program(s.envB, op, b)|
    ensures var b' := Run(b, Program(s.envB, op, b)[..k]);
            && Copy(s, b', files) && Grows(s, b, b')
            && (Done(s.envB, op, b, k) == Fine ==> FromA(s, b') && e in b'.tx.value.files)
  {
    hide Good, Run, Upsert, Program, SitesOk, Backed, Done;
    FinishDoes(s, op, b, k);
    if k >= 3 {
      EntryIsAs(s, files, e, op.data);
      CopySorted(s, b);
      UpsertMembers(b.tx.value.files, e);
      BackedSorted(s, files);
      forall x | x in b.tx.value.files && x.path == e.path ensures x == e {
        SamePathSameEntry(files, x, e);
      }
    }
  }

  lemma CopySorted(s: Sites, b: Core)
    requires Good(s.envB, s.id, b) && b.tx.Some?
    ensures Sorted(b.tx.value.files)
  {}

  lemma BackedSorted(s: Sites, files: seq<FileEntry>)
    requires Backed(s, files)
    ensures Sorted(files)
  {}

  /** A commit at B that finds every file of the list commits exactly the list. */
  lemma CommitCopies(s: Sites, now: int, b: Core, k: nat, files: seq<FileEntry>)
    requires Sorted(files) && Good(s.envB, s.id, b) && Copy(s, b, files) && AllThere(s, b, files)
    requires k <= |Program(s.envB, Commit(PeerA(s), now), b)|
    ensures var op := Commit(PeerA(s), now);
            var b' := Run(b, Program(s.envB, op, b)[..k]);
            && Copy(s, b', files) && Grows(s, b, b')
            && (Done(s.envB, op, b, k) == Fine ==> CommittedThere(s, b'))
  {
    hide Good, Run, Program, Done;
    CommitDoes(s, now, b, k);
    CopySorted(s, b);
    SortedUnique(b.tx.value.files, files);
  }

  // --- B after a destroy ----------------------------------------------------------

  /** Gone, or marked expired. */
  predicate Dead(b: Core) {
    b.tx.Some? ==> b.tx.value.state == Expired
  }

  lemma DeadRefuses(env: Env, op: Op, b: Core)
    requires Dead(b) && !op.Destroy? && (op.Create? || op.Receive? ==> b.tx.Some?)
    ensures Program(env, op, b) == []
  {
    hide Upsert, Erase, TotalBytes, HashCheck, CommentOk;
  }

  /** A destroyed record never comes back to life. */
  lemma DeadStays(s: Sites, op: Op, b: Core, k: nat)
    requires Good(s.envB, s.id, b) && Dead(b) && k <= |Program(s.envB, op, b)|
    requires op.Create? || op.Receive? ==> k == 0
    ensures var b' := Run(b, Program(s.envB, op, b)[..k]); Dead(b') && (FromA(s, b') ==> FromA(s, b))
  {
    hide Good, Run, Program, EncodeMeta;
    var p := Program(s.envB, op, b);
    NoSteps(b, p);
    if k > 0 && !op.Destroy? {
      DeadRefuses(s.envB, op, b);
    } else if k > 0 {
      DestroyProgram(s.envB, op, b);
      TwoSteps(b, p, k);
    }
  }

  /** Any part of a destroy leaves the record as it was, or dead. */
  lemma DestroyKills(s: Sites, byAdmin: bool, b: Core, k: nat)
    requires Good(s.envB, s.id, b) && k <= |Program(s.envB, Destroy(byAdmin), b)|
    ensures var b' := Run(b, Program(s.envB, Destroy(byAdmin), b)[..k]);
            b' == b || (Dead(b') && (FromA(s, b') ==> FromA(s, b)))
  {
    hide Good, Run, Program, EncodeMeta;
    var op := Destroy(byAdmin);
    var p := Program(s.envB, op, b);
    NoSteps(b, p);
    if k > 0 {
      DestroyProgram(s.envB, op, b);
      GoodParts(s.envB, s.id, b);
      if |p| == 2 { TwoSteps(b, p, k); } else { ThreeSteps(b, p, k); }
    }
  }

  // --- The invariant -----------------------------------------------------------

  predicate Listed(files: seq<FileEntry>, path: string, sha: Digest) {
    exists e :: e in files && e.path == path && e.sha256 == sha
  }

  /** What a request in flight already guarantees about B. */
  ghost predicate RequestInv(s: Sites, v: Core, files: seq<FileEntry>, r: Request) {
    match r
    case PutReq(path, sha) => Listed(files, path, sha)
    case CommitReq => AllThere(s, v, files)
    case _ => true
  }

  /** What the answer to a question about the copy's state proves. */
  ghost predicate AnswerInv(s: Sites, v: Core, hit: bool, state: State) {
    && FromA(s, v) && state != Delivered
    && (state == Committed ==> CommittedThere(s, v))
    && (state == Expired ==> hit)
  }

  /** What a reply proves about B, now and from then on. */
  ghost predicate ReplyInv(s: Sites, v: Core, hit: bool, files: seq<FileEntry>, r: Request, reply: Reply) {
    && (reply == Fine ==>
          match r
          case ReceiveReq(_) => FromA(s, v)
          case PutReq(path, sha) =>
            FromA(s, v) && exists e :: e in files && e.path == path && e.sha256 == sha && e in v.tx.value.files
          case CommitReq => CommittedThere(s, v)
          case GetReq => true)
    && (reply.StateIs? && r.GetReq? ==> AnswerInv(s, v, hit, reply.state))
  }

  /** What a push knows that is about to mark its transaction delivered. */
  ghost predicate Sure(s: Sites, v: Core, hit: bool, answer: Reply) {
    && FromA(s, v)
    && (answer == Fine ==> CommittedThere(s, v))
    && (answer != Fine ==> answer.StateIs? && answer.state != Open && AnswerInv(s, v, hit, answer.state))
  }

  /** Where the push may be, given what B has. */
  ghost predicate PushInv(s: Sites, w: World, files: seq<FileEntry>) {
    && (!w.push.Idle? ==> w.push.tx.files == files)
    && (Waiting(w.push) ==> w.push.serial in w.requests)
    && (w.push.AwaitReceive? ==> w.requests[w.push.serial].ReceiveReq?)
    && (w.push.AwaitGet? ==> w.requests[w.push.serial].GetReq?)
    && (w.push.Sending? || w.push.AwaitPut? ==> SentSoFar(s, Seen(w), files, w.push.i))
    && (w.push.AwaitPut? ==>
          && w.push.i < |files|
          && w.requests[w.push.serial] == PutReq(files[w.push.i].path, files[w.push.i].sha256))
    && (w.push.AwaitCommit? ==> w.requests[w.push.serial].CommitReq?)
    && (w.push.Confirmed? ==> Sure(s, Seen(w), w.hit.Some?, w.push.answer))
  }

  ghost predicate SentSoFar(s: Sites, v: Core, files: seq<FileEntry>, i: nat) {
    i <= |files| && FromA(s, v) && forall j :: 0 <= j < i ==> files[j] in v.tx.value.files
  }

  /** Uploads begun by A belong to what A pushed, with path and digest of their
      request. */
  ghost predicate StagedInv(s: Sites, w: World) {
    forall st :: st in w.staged && st.serial.Some? ==>
      && FromA(s, Seen(w))
      && st.serial.value in w.requests && w.requests[st.serial.value].PutReq?
      && st.path == w.requests[st.serial.value].path
      && st.expected == Some(w.requests[st.serial.value].sha256)
  }

  /** Uploads begun by others belong to a transaction that A did not push. */
  ghost predicate OthersInv(s: Sites, w: World) {
    forall st :: st in w.staged && st.serial.None? ==> Seen(w).tx.Some? && !FromA(s, Seen(w))
  }

  ghost predicate TalkInv(s: Sites, w: World, files: seq<FileEntry>) {
    && (forall n :: n in w.requests ==> n < w.next && RequestInv(s, Seen(w), files, w.requests[n]))
    && (forall n :: n in w.replies ==>
          n in w.requests && ReplyInv(s, Seen(w), w.hit.Some?, files, w.requests[n], w.replies[n]))
  }

  ghost predicate SiteA(s: Sites, w: World, files: seq<FileEntry>) {
    && (w.a.tx.Some? ==> w.a.tx.value.files == files && w.a.tx.value.state != Open)
    && (w.a.tx.None? ==> w.aGone)
    && (w.a.tx.Some? && w.a.tx.value.state == Delivered ==>
          FromA(s, Seen(w)) && (w.hit.None? ==> CommittedThere(s, Seen(w))))
  }

  ghost predicate Pushed(s: Sites, w: World, files: seq<FileEntry>) {
    && Backed(s, files) && SiteA(s, w, files) && Copy(s, Seen(w), files)
    && TalkInv(s, w, files) && PushInv(s, w, files)
  }

  ghost predicate NotPushed(s: Sites, w: World) {
    && w.push.Idle? && w.requests == map[] && w.replies == map[]
    && !FromA(s, Seen(w))
    && (w.a.tx.Some? ==> w.a.tx.value.state != Delivered)
  }

  /** After a destroy has changed B's record it is dead. */
  ghost predicate HitInv(s: Sites, w: World) {
    w.hit.Some? ==> Dead(w.b) && (FromA(s, w.b) ==> FromA(s, w.hit.value))
  }

  /** The history of B's commit agrees with what was seen of B. */
  ghost predicate LandedInv(s: Sites, w: World) {
    && (w.landed.Some? <==> CommittedThere(s, Seen(w)))
    && (w.landed.Some? ==>
          && Good(s.envB, s.id, w.landed.value) && CommittedThere(s, w.landed.value)
          && w.landed.value.tx.value.files == Seen(w).tx.value.files)
  }

  ghost predicate Inv(s: Sites, w: World) {
    && Good(s.envA, s.id, w.a) && Good(s.envB, s.id, w.b) && Known(s, w.a)
    && (w.aGone ==> w.a.tx.None?)
    && StagedInv(s, w) && OthersInv(s, w) && HitInv(s, w) && LandedInv(s, w)
    && (w.pushed.None? ==> NotPushed(s, w))
    && (w.pushed.Some? ==> Pushed(s, w, w.pushed.value.files))
  }

  // --- Every step keeps it ---------------------------------------------------------

  /** When what was seen of B only gains, everything known about it stays known. */
  lemma GrowsKeeps(s: Sites, w: World, w': World, files: seq<FileEntry>)
    requires Pushed(s, w, files) && w' == w.(b := w'.b, hit := w'.hit, landed := w'.landed)
    requires Grows(s, Seen(w), Seen(w')) && Copy(s, Seen(w'), files)
    requires w.hit.Some? ==> w'.hit.Some?
    requires w.hit.None? && w'.hit.Some? ==> Seen(w') == Seen(w)
    ensures Pushed(s, w', files)
  {
    hide Backed, Seen;
    var v, v' := Seen(w), Seen(w');
    forall n | n in w'.replies ensures ReplyInv(s, v', w'.hit.Some?, files, w'.requests[n], w'.replies[n]) {
      assert ReplyInv(s, v, w.hit.Some?, files, w.requests[n], w.replies[n]);
    }
    forall n | n in w'.requests ensures RequestInv(s, v', files, w'.requests[n]) {
      assert RequestInv(s, v, files, w.requests[n]);
    }
  }

  /** B's record only gains, and stays whose it is. */
  ghost predicate BOk(s: Sites, b: Core, b': Core) {
    Grows(s, b, b') && (b.tx.Some? ==> b'.tx.Some? && (!FromA(s, b) ==> !FromA(s, b')))
  }

  /** A change of B's record by anything but a destroy. */
  lemma BMovesKeeps(s: Sites, w: World, b': Core)
    requires Inv(s, w) && Good(s.envB, s.id, b')
    requires w.hit.None? ==>
               && BOk(s, w.b, b')
               && (w.pushed.Some? ==> Copy(s, b', w.pushed.value.files))
               && (w.pushed.None? ==> !FromA(s, b'))
    requires w.hit.Some? ==> Dead(b') && (FromA(s, b') ==> FromA(s, w.b))
    ensures Inv(s, BMoves(s, w, b'))
  {
    hide Good, Pushed, Copy;
    var w' := BMoves(s, w, b');
    if w.pushed.Some? {
      var files := w.pushed.value.files;
      PushedCopy(s, w, files);
      if w.hit.Some? { GrowsSelf(s, Seen(w)); }
      GrowsKeeps(s, w, w', files);
      LandedStays(s, w, b', files);
    }
  }

  lemma GrowsSelf(s: Sites, v: Core)
    ensures Grows(s, v, v)
  {}

  lemma LandedStays(s: Sites, w: World, b': Core, files: seq<FileEntry>)
    requires LandedInv(s, w) && Copy(s, Seen(w), files) && Good(s.envB, s.id, b')
    requires w.hit.None? ==> Grows(s, w.b, b') && Copy(s, b', files)
    requires w.hit.Some? ==> Dead(b')
    ensures LandedInv(s, BMoves(s, w, b'))
  {
    hide Good;
  }

  /** B answered request n. */
  lemma ReplyKeeps(s: Sites, w: World, n: nat, reply: Reply)
    requires Inv(s, w) && w.pushed.Some? && n in w.requests
    requires ReplyInv(s, Seen(w), w.hit.Some?, w.pushed.value.files, w.requests[n], reply)
    ensures Inv(s, w.(replies := w.replies[n := reply]))
  {
    hide Good, Backed, Copy, Known, RequestInv, ReplyInv, CommittedThere;
    var w' := w.(replies := w.replies[n := reply]);
    forall m | m in w'.replies
      ensures m in w'.requests
              && ReplyInv(s, Seen(w), w.hit.Some?, w.pushed.value.files, w'.requests[m], w'.replies[m])
    {
      if m != n { assert m in w.replies; }
    }
    assert Pushed(s, w', w.pushed.value.files);
  }

  lemma StagedKeeps(s: Sites, w: World, staged: set<Staged>)
    requires Inv(s, w)
    requires StagedInv(s, w.(staged := staged)) && OthersInv(s, w.(staged := staged))
    ensures Inv(s, w.(staged := staged))
  {
    hide Good, Backed, Copy, Known, RequestInv, ReplyInv, CommittedThere, StagedInv, OthersInv;
    if w.pushed.Some? { assert Pushed(s, w.(staged := staged), w.pushed.value.files); }
  }

  lemma LocalAKeeps(s: Sites, w: World, w': World, op: Op, k: nat)
    requires Inv(s, w) && Next(s, w, w', LocalA(op, k))
    ensures Inv(s, w')
  {
    hide Good, Run, Program, OpOk, Backed, Copy, FromA, RequestInv, ReplyInv, Known, CommittedThere;
    EveryPrefixIsGood(s.envA, s.id, op, w.a, k);
    PrefixFrozen(s.envA, s.id, op, w.a, k);
    PrefixKnown(s, s.envA, op, w.a, k);
  }

  lemma LocalBKeeps(s: Sites, w: World, w': World, op: Op, k: nat)
    requires Inv(s, w) && SitesOk(s) && Next(s, w, w', LocalB(op, k))
    ensures Inv(s, w')
  {
    hide Good, Run, Program, OpOk, Pushed, SitesOk, BMoves, LandedInv;
    PeerNamed(s);
    EveryPrefixIsGood(s.envB, s.id, op, w.b, k);
    if w.hit.Some? {
      DeadStays(s, op, w.b, k);
    } else {
      ForeignKeeps(s, op, w.b, k);
      if w.pushed.Some? { PushedCopy(s, w, w.pushed.value.files); }
    }
    BMovesKeeps(s, w, Run(w.b, Program(s.envB, op, w.b)[..k]));
  }

  lemma DestroyBKeeps(s: Sites, w: World, w': World, byAdmin: bool, k: nat)
    requires Inv(s, w) && Next(s, w, w', DestroyB(byAdmin, k))
    ensures Inv(s, w')
  {
    hide Good, Run, Program, Pushed, Copy;
    EveryPrefixIsGood(s.envB, s.id, Destroy(byAdmin), w.b, k);
    DestroyKills(s, byAdmin, w.b, k);
    if w.hit.Some? { DeadStays(s, Destroy(byAdmin), w.b, k); }
    assert Seen(w') == Seen(w);
    if w.pushed.Some? {
      PushedCopy(s, w, w.pushed.value.files);
      GrowsSelf(s, Seen(w));
      GrowsKeeps(s, w, w', w.pushed.value.files);
    }
  }

  lemma PeerNamed(s: Sites)
    requires SitesOk(s)
    ensures s.peer != ""
  {}

  lemma PushedCopy(s: Sites, w: World, files: seq<FileEntry>)
    requires Pushed(s, w, files)
    ensures Copy(s, Seen(w), files) && Backed(s, files)
  {}

  lemma BeginOtherKeeps(s: Sites, w: World, w': World, caller: Caller, path: string, expected: Option<Digest>)
    requires Inv(s, w) && SitesOk(s) && Next(s, w, w', BeginOther(caller, path, expected))
    ensures Inv(s, w')
  {
    hide Good, Pushed, SitesOk, LandedInv;
    PeerNamed(s);
    if w.hit.Some? { BeginDead(s.envB, caller, w.b); }
    StagedKeeps(s, w, w'.staged);
  }

  lemma BeginDead(env: Env, caller: Caller, b: Core)
    requires Dead(b)
    ensures Refusal(env, Begin(caller), b).Some?
  {}

  /** Only the push moved on. */
  lemma RePush(s: Sites, w: World, p: Push, files: seq<FileEntry>)
    requires Pushed(s, w, files) && PushInv(s, w.(push := p), files)
    ensures Pushed(s, w.(push := p), files)
  {
    hide Backed, Copy, RequestInv, ReplyInv, PushInv;
  }

  /** The push sent a request. */
  lemma SendPushed(s: Sites, w: World, r: Request, p: Push, files: seq<FileEntry>)
    requires Pushed(s, w, files) && RequestInv(s, Seen(w), files, r) && PushInv(s, Send(w, r, p), files)
    ensures Pushed(s, Send(w, r, p), files)
  {
    hide Backed, Copy, RequestInv, ReplyInv, PushInv;
    var w' := Send(w, r, p);
    forall n | n in w'.requests ensures n < w'.next && RequestInv(s, Seen(w'), files, w'.requests[n]) {
      if n != w.next { assert n in w.requests; }
    }
    assert forall n :: n in w'.replies ==> n in w.requests && w'.requests[n] == w.requests[n];
  }

  /** Sending leaves everything else of the invariant alone. */
  lemma SentInv(s: Sites, w: World, w': World, r: Request, p: Push)
    requires Inv(s, w) && w' == Send(w, r, p).(pushed := w'.pushed) && w'.pushed.Some?
    requires w.pushed.Some? ==> w'.pushed == w.pushed
    requires Pushed(s, w', w'.pushed.value.files)
    ensures Inv(s, w')
  {
    hide Good, Pushed, Known, CommittedThere;
    forall st | st in w'.staged && st.serial.Some? ensures st.serial.value in w.requests && st.serial.value != w.next {
      StagedSent(s, w, st);
    }
  }

  lemma StagedSent(s: Sites, w: World, st: Staged)
    requires Inv(s, w) && st in w.staged && st.serial.Some?
    ensures st.serial.value in w.requests && st.serial.value < w.next
  {
    hide Good;
  }

  lemma StartPushKeeps(s: Sites, w: World, w': World)
    requires Inv(s, w) && Next(s, w, w', StartPush)
    ensures Inv(s, w')
  {
    hide Good, Copy, Backed, FromA, Known, CommittedThere;
    SealedIsBacked(s, w.a);
    var tx, files := w.a.tx.value, w'.pushed.value.files;
    var r, p := ReceiveReq(PushOf(tx)), AwaitReceive(tx, w.next);
    if w.pushed.None? {
      NotACopy(s, Seen(w), files);
      assert Pushed(s, w, files);
    }
    SendPushed(s, w, r, p, files);
    assert w' == Send(w, r, p).(pushed := w'.pushed);
    PushedIsFree(s, Send(w, r, p), w'.pushed, files);
    SentInv(s, w, w', r, p);
  }

  lemma PushedIsFree(s: Sites, w: World, pushed: Option<Transaction>, files: seq<FileEntry>)
    requires Pushed(s, w, files)
    ensures Pushed(s, w.(pushed := pushed), files)
  {
    hide Backed, Copy, RequestInv, ReplyInv;
  }

  lemma NotACopy(s: Sites, b: Core, files: seq<FileEntry>)
    ensures !FromA(s, b) ==> Copy(s, b, files)
  {}

  lemma TakeReplyKeeps(s: Sites, w: World, w': World)
    requires Inv(s, w) && Next(s, w, w', TakeReply)
    ensures Inv(s, w')
  {
    hide Good, Copy, Backed, RequestInv, StagedInv, OthersInv, Known, HitInv, LandedInv, Seen, FromA;
    SameSeen(w, w');
    var n, files := w.push.serial, w.pushed.value.files;
    var reply := w.replies[n];
    assert ReplyInv(s, Seen(w), w.hit.Some?, files, w.requests[n], reply);
    if w.push.AwaitReceive? && reply == Refused(Conflict) {
      assert RequestInv(s, Seen(w), files, GetReq) by { GetIsFree(s, Seen(w), files); }
      SendPushed(s, w, GetReq, AwaitGet(w.push.tx, w.next), files);
      SentInv(s, w, w', GetReq, AwaitGet(w.push.tx, w.next));
    } else {
      if w.push.AwaitPut? && reply == Fine {
        PutConfirmed(s, w, files);
      }
      assert w' == w.(push := w'.push);
      RePush(s, w, w'.push, files);
      MovedInv(s, w, w'.push);
    }
  }

  lemma MovedInv(s: Sites, w: World, p: Push)
    requires Inv(s, w) && w.pushed.Some? && Pushed(s, w.(push := p), w.pushed.value.files)
    ensures Inv(s, w.(push := p))
  {
    hide Good, Pushed, Known, CommittedThere;
  }

  lemma GetIsFree(s: Sites, v: Core, files: seq<FileEntry>)
    ensures RequestInv(s, v, files, GetReq)
  {}

  lemma PutConfirmed(s: Sites, w: World, files: seq<FileEntry>)
    requires Pushed(s, w, files) && w.push.AwaitPut? && w.push.serial in w.replies && w.replies[w.push.serial] == Fine
    ensures SentSoFar(s, Seen(w), files, w.push.i + 1)
  {
    var n, f := w.push.serial, files[w.push.i];
    assert ReplyInv(s, Seen(w), w.hit.Some?, files, w.requests[n], w.replies[n]);
    var e :| e in files && e.path == f.path && e.sha256 == f.sha256 && e in Seen(w).tx.value.files;
    SamePathSameEntry(files, e, f);
  }

  lemma SendKeeps(s: Sites, w: World, w': World, step: Step)
    requires Inv(s, w) && (step.SendPut? || step.SendCommit?) && Next(s, w, w', step)
    ensures Inv(s, w')
  {
    hide Good, Copy, Backed, StagedInv, OthersInv, Known, HitInv, LandedInv, Seen;
    var files := w.pushed.value.files;
    var r, p;
    if step.SendPut? {
      var f := files[w.push.i];
      r, p := PutReq(f.path, f.sha256), AwaitPut(w.push.tx, w.push.i, w.next);
      assert f in files && Listed(files, f.path, f.sha256);
    } else {
      r, p := CommitReq, AwaitCommit(w.push.tx, w.next);
      forall e | e in files ensures e in Seen(w).tx.value.files {
        var j :| 0 <= j < |files| && files[j] == e;
      }
    }
    SameSeen(w, Send(w, r, p));
    SendPushed(s, w, r, p, files);
    SentInv(s, w, w', r, p);
  }

  lemma SameSeen(w: World, w': World)
    requires w'.b == w.b && w'.hit == w.hit
    ensures Seen(w') == Seen(w)
  {}

  lemma MarkDoneKeeps(s: Sites, w: World, w': World, now: int, k: nat)
    requires Inv(s, w) && Next(s, w, w', MarkDone(now, k))
    ensures Inv(s, w')
  {
    hide Good, Run, Program, Backed, Copy, RequestInv, ReplyInv, Known;
    EveryPrefixIsGood(s.envA, s.id, MarkDelivered(now), w.a, k);
    PrefixFrozen(s.envA, s.id, MarkDelivered(now), w.a, k);
    PrefixKnown(s, s.envA, MarkDelivered(now), w.a, k);
    SureIsEnough(s, w);
  }

  /** A push that is sure of an answer other than "expired" knows of a commit; and one told
      "expired" knows of a destroy. */
  lemma SureIsEnough(s: Sites, w: World)
    requires w.push.Confirmed? && Sure(s, Seen(w), w.hit.Some?, w.push.answer)
    ensures FromA(s, Seen(w)) && (w.hit.None? ==> CommittedThere(s, Seen(w)))
    ensures w.push.answer != StateIs(Expired) ==> CommittedThere(s, Seen(w))
  {}

  lemma ServeKeeps(s: Sites, w: World, w': World, n: nat, now: int, k: nat)
    requires Inv(s, w) && SitesOk(s) && Next(s, w, w', Serve(n, now, k))
    ensures Inv(s, w')
  {
    hide Good, Pushed, StagedInv, OthersInv, SitesOk, HitInv, LandedInv, Known;
    match w.requests[n] {
      case ReceiveReq(p) => ServeReceive(s, w, w', n, now, k);
      case GetReq => ServeGet(s, w, w', n, now, k);
      case PutReq(_, _) => ServePut(s, w, w', n, now, k);
      case CommitReq => ServeCommit(s, w, w', n, now, k);
    }
  }

  lemma ServeReceive(s: Sites, w: World, w': World, n: nat, now: int, k: nat)
    requires Inv(s, w) && SitesOk(s) && n in w.requests && w.requests[n].ReceiveReq? && Serves(s, w, w', n, now, k)
    ensures Inv(s, w')
  {
    hide Good, Run, Program, Pushed, Done, SitesOk, BMoves, LandedInv, Backed, StagedInv, OthersInv;
    var files := w.pushed.value.files;
    var op := ReceiveOp(s, w.requests[n].push);
    var b' := Run(w.b, Program(s.envB, op, w.b)[..k]);
    EveryPrefixIsGood(s.envB, s.id, op, w.b, k);
    ReceiveDoes(s, w.requests[n].push, w.b, k);
    PushedCopy(s, w, files);
    if w.hit.Some? { DeadStays(s, op, w.b, k); }
    BMovesKeeps(s, w, b');
    DoneIsNoState(s.envB, op, w.b, k);
    BMovesParts(s, w, b');
    ReplyKeeps(s, BMoves(s, w, b'), n, Done(s.envB, op, w.b, k));
  }

  lemma BMovesParts(s: Sites, w: World, b': Core)
    ensures var w' := BMoves(s, w, b');
            && w'.b == b' && w'.hit == w.hit && w'.requests == w.requests && w'.replies == w.replies
            && w'.pushed == w.pushed && w'.staged == w.staged
            && Seen(w') == if w.hit.Some? then w.hit.value else b'
  {}

  lemma DoneIsNoState(env: Env, op: Op, c: Core, k: nat)
    ensures !Done(env, op, c, k).StateIs?
  {}

  lemma ServeGet(s: Sites, w: World, w': World, n: nat, now: int, k: nat)
    requires Inv(s, w) && SitesOk(s) && n in w.requests && w.requests[n].GetReq? && Serves(s, w, w', n, now, k)
    ensures Inv(s, w')
  {
    hide Good, Pushed, SitesOk, Backed, LandedInv, StagedInv, OthersInv;
    var files := w.pushed.value.files;
    PushedCopy(s, w, files);
    ReplyKeeps(s, w, n, GetReply(s, w.b));
  }

  lemma ServePut(s: Sites, w: World, w': World, n: nat, now: int, k: nat)
    requires Inv(s, w) && SitesOk(s) && n in w.requests && w.requests[n].PutReq? && Serves(s, w, w', n, now, k)
    ensures Inv(s, w')
  {
    hide Good, Refusal, SitesOk, Pushed, Backed, LandedInv;
    var no := Refusal(s.envB, Begin(PeerA(s)), w.b);
    if no.Some? {
      ReplyKeeps(s, w, n, Refused(OnTheWire(no.value)));
    } else {
      BeginAccepted(s, w.b);
      if w.hit.Some? { BeginDead(s.envB, PeerA(s), w.b); }
      StagedKeeps(s, w, w'.staged);
    }
  }

  lemma BeginAccepted(s: Sites, b: Core)
    requires Refusal(s.envB, Begin(PeerA(s)), b).None?
    ensures FromA(s, b)
  {}

  lemma ServeCommit(s: Sites, w: World, w': World, n: nat, now: int, k: nat)
    requires Inv(s, w) && SitesOk(s) && n in w.requests && w.requests[n].CommitReq? && Serves(s, w, w', n, now, k)
    ensures Inv(s, w')
  {
    hide Good, Run, Program, Done, SitesOk, Pushed, BMoves, LandedInv, StagedInv, OthersInv;
    var files := w.pushed.value.files;
    var op := Commit(PeerA(s), now);
    var b' := Run(w.b, Program(s.envB, op, w.b)[..k]);
    EveryPrefixIsGood(s.envB, s.id, op, w.b, k);
    PushedCopy(s, w, files);
    PushedRequest(s, w, files, n);
    CommitDoes(s, now, w.b, k);
    if w.hit.Some? { DeadStays(s, op, w.b, k); } else { CommitCopies(s, now, w.b, k, files); }
    hide Backed;
    BMovesKeeps(s, w, b');
    DoneIsNoState(s.envB, op, w.b, k);
    BMovesParts(s, w, b');
    ReplyKeeps(s, BMoves(s, w, b'), n, Done(s.envB, op, w.b, k));
  }

  lemma PushedRequest(s: Sites, w: World, files: seq<FileEntry>, n: nat)
    requires Pushed(s, w, files) && n in w.requests
    ensures RequestInv(s, Seen(w), files, w.requests[n])
  {}

  lemma FinishKeeps(s: Sites, w: World, w': World, st: Staged, data: Bytes, k: nat)
    requires Inv(s, w) && SitesOk(s) && Next(s, w, w', FinishStaged(st, data, k))
    ensures Inv(s, w')
  {
    hide Good, Run, Program, Done, SitesOk, Pushed, BMoves;
    var b' := Run(w.b, Program(s.envB, Finish(st.path, data, st.expected), w.b)[..k]);
    FinishStep(s, w, w', st, data, k);
    FinishMoves(s, w, st, data, k);
    BMovesParts(s, w, b');
    StagedLess(s, BMoves(s, w, b'), st);
    if st.serial.Some? {
      var reply := Done(s.envB, Finish(st.path, data, st.expected), w.b, k);
      ReplyKeeps(s, BMoves(s, w, b').(staged := w.staged - {st}), st.serial.value, reply);
    }
  }

  lemma StagedLess(s: Sites, w: World, st: Staged)
    requires Inv(s, w)
    ensures Inv(s, w.(staged := w.staged - {st}))
  {
    hide Good, Pushed, LandedInv, Known;
    StagedKeeps(s, w, w.staged - {st});
  }

  /** What a finished upload does to B, and what its answer proves if A sent it. */
  lemma FinishMoves(s: Sites, w: World, st: Staged, data: Bytes, k: nat)
    requires Inv(s, w) && SitesOk(s) && st in w.staged && data in s.known
    requires OpOk(Finish(st.path, data, st.expected), s.id)
    requires k <= |Program(s.envB, Finish(st.path, data, st.expected), w.b)|
    ensures var op := Finish(st.path, data, st.expected);
            var w1 := BMoves(s, w, Run(w.b, Program(s.envB, op, w.b)[..k]));
            Inv(s, w1) && (st.serial.Some? ==> FinishAnswer(s, w, w1, st.serial.value, Done(s.envB, op, w.b, k)))
  {
    hide *;
    if w.hit.Some? {
      FinishOnDead(s, w, st, data, k);
    } else if st.serial.None? {
      OthersFinish(s, w, st, data, k);
    } else {
      OwnFinish(s, w, st, data, k);
    }
  }

  lemma FinishStep(s: Sites, w: World, w': World, st: Staged, data: Bytes, k: nat)
    requires Next(s, w, w', FinishStaged(st, data, k))
    ensures st in w.staged && data in s.known && OpOk(Finish(st.path, data, st.expected), s.id)
    ensures k <= |Program(s.envB, Finish(st.path, data, st.expected), w.b)|
  {
    hide Run, Program, Done, BMoves, OpOk;
  }

  ghost predicate FinishAnswer(s: Sites, w: World, w1: World, n: nat, reply: Reply) {
    && w.pushed.Some? && n in w.requests
    && ReplyInv(s, Seen(w1), w1.hit.Some?, w.pushed.value.files, w.requests[n], reply)
  }

  lemma FinishOnDead(s: Sites, w: World, st: Staged, data: Bytes, k: nat)
    requires Inv(s, w) && w.hit.Some? && st in w.staged && OpOk(Finish(st.path, data, st.expected), s.id)
    requires k <= |Program(s.envB, Finish(st.path, data, st.expected), w.b)|
    ensures var op := Finish(st.path, data, st.expected);
            var w1 := BMoves(s, w, Run(w.b, Program(s.envB, op, w.b)[..k]));
            Inv(s, w1) && (st.serial.Some? ==> FinishAnswer(s, w, w1, st.serial.value, Done(s.envB, op, w.b, k)))
  {
    hide Good, Run, Program, Done, Pushed, BMoves, LandedInv, Known, OpOk;
    var op := Finish(st.path, data, st.expected);
    var b' := Run(w.b, Program(s.envB, op, w.b)[..k]);
    EveryPrefixIsGood(s.envB, s.id, op, w.b, k);
    DeadStays(s, op, w.b, k);
    FinishDoes(s, op, w.b, k);
    DoneIsNoState(s.envB, op, w.b, k);
    BMovesKeeps(s, w, b');
    BMovesParts(s, w, b');
    if st.serial.Some? { OwnIsPushed(s, w, st.serial.value); }
  }

  lemma OthersFinish(s: Sites, w: World, st: Staged, data: Bytes, k: nat)
    requires Inv(s, w) && w.hit.None? && st in w.staged && st.serial.None?
    requires OpOk(Finish(st.path, data, st.expected), s.id)
    requires k <= |Program(s.envB, Finish(st.path, data, st.expected), w.b)|
    ensures Inv(s, BMoves(s, w, Run(w.b, Program(s.envB, Finish(st.path, data, st.expected), w.b)[..k])))
  {
    hide Good, Run, Program, Done, Pushed, BMoves, LandedInv, Known, OpOk, Upsert;
    var op := Finish(st.path, data, st.expected);
    EveryPrefixIsGood(s.envB, s.id, op, w.b, k);
    FinishDoes(s, op, w.b, k);
    BMovesKeeps(s, w, Run(w.b, Program(s.envB, op, w.b)[..k]));
  }

  lemma OwnFinish(s: Sites, w: World, st: Staged, data: Bytes, k: nat)
    requires Inv(s, w) && SitesOk(s) && w.hit.None? && st in w.staged && st.serial.Some? && data in s.known
    requires OpOk(Finish(st.path, data, st.expected), s.id)
    requires k <= |Program(s.envB, Finish(st.path, data, st.expected), w.b)|
    ensures var op := Finish(st.path, data, st.expected);
            var w1 := BMoves(s, w, Run(w.b, Program(s.envB, op, w.b)[..k]));
            Inv(s, w1) && FinishAnswer(s, w, w1, st.serial.value, Done(s.envB, op, w.b, k))
  {
    hide Good, Run, Program, Done, Pushed, BMoves, LandedInv, Known, OpOk, Copy;
    var op := Finish(st.path, data, st.expected);
    var b' := Run(w.b, Program(s.envB, op, w.b)[..k]);
    EveryPrefixIsGood(s.envB, s.id, op, w.b, k);
    OwnCopies(s, w, st, data, k);
    DoneIsNoState(s.envB, op, w.b, k);
    BMovesKeeps(s, w, b');
    BMovesParts(s, w, b');
  }

  lemma OwnCopies(s: Sites, w: World, st: Staged, data: Bytes, k: nat)
    requires Inv(s, w) && SitesOk(s) && w.hit.None? && st in w.staged && st.serial.Some? && data in s.known
    requires k <= |Program(s.envB, Finish(st.path, data, st.expected), w.b)|
    ensures var op := Finish(st.path, data, st.expected);
            var b' := Run(w.b, Program(s.envB, op, w.b)[..k]);
            && w.pushed.Some? && BOk(s, w.b, b') && Copy(s, b', w.pushed.value.files)
            && st.serial.value in w.requests && w.requests[st.serial.value].PutReq?
            && (Done(s.envB, op, w.b, k) == Fine ==>
                  && FromA(s, b')
                  && exists e :: e in w.pushed.value.files && e.path == w.requests[st.serial.value].path
                                 && e.sha256 == w.requests[st.serial.value].sha256 && e in b'.tx.value.files)
  {
    hide Good, Run, Program, Done, SitesOk, Pushed, Upsert, Backed, Copy, LandedInv, Known;
    var op := Finish(st.path, data, st.expected);
    var n := st.serial.value;
    OwnIsPushed(s, w, n);
    var files := w.pushed.value.files;
    PushedCopy(s, w, files);
    PushedRequest(s, w, files, n);
    var e :| e in files && e.path == st.path && e.sha256 == w.requests[n].sha256;
    FinishCopies(s, op, w.b, k, files, e);
  }

  lemma OwnIsPushed(s: Sites, w: World, n: nat)
    requires Inv(s, w) && n in w.requests
    ensures w.pushed.Some?
  {
    hide Good, Pushed, LandedInv;
  }

  lemma StepKeeps(s: Sites, w: World, w': World, step: Step)
    requires Inv(s, w) && SitesOk(s) && Next(s, w, w', step)
    ensures Inv(s, w')
  {
    hide Good, SitesOk, StagedInv, OthersInv, NotPushed, Inv, Next;
    match step
    case LocalA(op, k) => LocalAKeeps(s, w, w', op, k);
    case LocalB(op, k) => LocalBKeeps(s, w, w', op, k);
    case DestroyB(byAdmin, k) => DestroyBKeeps(s, w, w', byAdmin, k);
    case BeginOther(caller, path, expected) => BeginOtherKeeps(s, w, w', caller, path, expected);
    case StartPush => StartPushKeeps(s, w, w');
    case TakeReply => TakeReplyKeeps(s, w, w');
    case SendPut => SendKeeps(s, w, w', step);
    case SendCommit => SendKeeps(s, w, w', step);
    case MarkDone(now, k) => MarkDoneKeeps(s, w, w', now, k);
    case Abort => AbortKeeps(s, w, w');
    case Serve(n, now, k) => ServeKeeps(s, w, w', n, now, k);
    case FinishStaged(st, data, k) => FinishKeeps(s, w, w', st, data, k);
  }

  lemma AbortKeeps(s: Sites, w: World, w': World)
    requires Inv(s, w) && Next(s, w, w', Abort)
    ensures Inv(s, w')
  {
    hide Good, Backed, Copy, Known, CommittedThere;
  }

  lemma StartInv(s: Sites)
    ensures Inv(s, Start)
  {
    NoCoreGood(s.envA, s.id);
    NoCoreGood(s.envB, s.id);
    assert !FromA(s, NoCore);
  }

  lemma {:induction false} RunKeeps(s: Sites, run: seq<World>)
    requires SitesOk(s) && IsRun(s, run)
    ensures Inv(s, run[|run| - 1])
  {
    hide Next, SitesOk, Inv;
    if |run| == 1 {
      StartInv(s);
    } else {
      var n := |run|;
      RunKeeps(s, run[..n - 1]);
      assert Steps(s, run[n - 2], run[n - 1]);
      var step :| Next(s, run[n - 2], run[n - 1], step);
      StepKeeps(s, run[n - 2], run[n - 1], step);
    }
  }

  // --- What delivery means -------------------------------------------------------------

  /** B has committed what A pushed, at some time, with exactly this list, and the bytes it
      had stored then match the list. */
  ghost predicate Landed(s: Sites, w: World, files: seq<FileEntry>) {
    && w.landed.Some? && CommittedThere(s, w.landed.value) && w.landed.value.folder.Some?
    && w.landed.value.tx.value.files == files
    && Matches(s.envB, files, w.landed.value.folder.value.tree)
  }

  /** A destroy at B struck A's copy while it was still open. */
  predicate CutOff(s: Sites, w: World) {
    w.hit.Some? && FromA(s, w.hit.value) && w.hit.value.tx.value.state == Open
  }

  lemma LandedExactly(s: Sites, w: World)
    requires Inv(s, w) && w.pushed.Some? && FromA(s, Seen(w)) && (w.hit.None? ==> CommittedThere(s, Seen(w)))
    ensures Landed(s, w, w.pushed.value.files) <==> !CutOff(s, w)
    ensures CommittedThere(s, Seen(w)) ==> Landed(s, w, w.pushed.value.files)
  {
    hide EncodeMeta, EncodeManifest, StorageTree.Shaped, StagedInv, OthersInv, Backed, TalkInv, PushInv, Known, FieldsOk;
  }

  /** Two-site delivery safety: in every run, with lost, late and repeated requests and
      replies, aborted pushes, retries, destroys and any other activity at both sites, whenever
      A's transaction is delivered, B has committed it, as pushed by A, with exactly A's list
      of paths, sizes and digests and with bytes that match it, if and only if no destroy at B
      had struck the copy while it was still open. */
  lemma DeliveredMeansCommittedThere(s: Sites, run: seq<World>)
    requires SitesOk(s) && IsRun(s, run)
    requires run[|run| - 1].a.tx.Some? && run[|run| - 1].a.tx.value.state == Delivered
    ensures var w := run[|run| - 1]; Landed(s, w, w.a.tx.value.files) <==> !CutOff(s, w)
  {
    hide Next, SitesOk, Good, Landed, StagedInv, OthersInv, Copy, Backed, TalkInv, PushInv, Known;
    var w := run[|run| - 1];
    RunKeeps(s, run);
    LandedExactly(s, w);
  }

  /** And while B has not destroyed anything, it holds the committed copy, bytes and all. */
  lemma DeliveredIsStillThere(s: Sites, run: seq<World>)
    requires SitesOk(s) && IsRun(s, run) && run[|run| - 1].hit.None?
    requires run[|run| - 1].a.tx.Some? && run[|run| - 1].a.tx.value.state == Delivered
    ensures var w := run[|run| - 1];
            && CommittedThere(s, w.b) && w.b.folder.Some?
            && w.b.tx.value.files == w.a.tx.value.files
            && Matches(s.envB, w.b.tx.value.files, w.b.folder.value.tree)
  {
    hide Next, SitesOk, EncodeMeta, EncodeManifest, StorageTree.Shaped, StagedInv, OthersInv, Backed, TalkInv, PushInv;
    RunKeeps(s, run);
  }

  /** What the answer on which a push acts is worth: unless it is "expired", B has committed
      exactly the list that was pushed. */
  lemma AnswerIsWorth(s: Sites, run: seq<World>)
    requires SitesOk(s) && IsRun(s, run) && run[|run| - 1].push.Confirmed?
    ensures var w := run[|run| - 1];
            && (w.push.answer != StateIs(Expired) ==> Landed(s, w, w.push.tx.files))
            && (Landed(s, w, w.push.tx.files) <==> !CutOff(s, w))
  {
    hide Next, SitesOk, Good, Landed, StagedInv, OthersInv, Copy, Backed, TalkInv, Known;
    var w := run[|run| - 1];
    RunKeeps(s, run);
    SureIsEnough(s, w);
    LandedExactly(s, w);
  }
}
