/** From whom, to whom and of when: what lands at the other site is the sender's transaction,
    and its addressee can read it there. */
module Letters {
  import opened Basics
  import opened FileList
  import opened Transactions
  import opened MetaCodec
  import StorageTree
  import Rights
  import Listing
  import opened Core
  import opened Sections
  import opened Delivery

  /** The same letter: id, sender, addressee, comment and time of writing. */
  predicate SameLetter(a: Transaction, b: Transaction) {
    b.id == a.id && b.sender == a.sender && b.targetUser == a.targetUser && b.comment == a.comment
    && b.createdAt == a.createdAt
  }

  /** B's record is A's letter, for a user of B. */
  predicate Arrived(a: Transaction, b: Core) {
    b.tx.Some? && SameLetter(a, b.tx.value) && b.tx.value.targetServer == ""
  }

  predicate Announces(r: Request, a: Transaction) {
    r.ReceiveReq? ==>
      r.push.sender == a.sender && r.push.targetUser == a.targetUser && r.push.comment == a.comment
      && r.push.createdAt == a.createdAt
  }

  ghost predicate LetterInv(s: Sites, w: World) {
    w.pushed.Some? ==>
      var a := w.pushed.value;
      && a.id == s.id
      && (w.a.tx.Some? ==> SameLetter(a, w.a.tx.value))
      && (forall n :: n in w.requests ==> Announces(w.requests[n], a))
      && (FromA(s, Seen(w)) ==> Arrived(a, Seen(w)))
      && (w.landed.Some? ==> Arrived(a, w.landed.value))
  }

  // --- Site A ---------------------------------------------------------------------------------

  lemma AKeeps(s: Sites, w: World, w': World, op: Op, k: nat)
    requires Inv(s, w) && LetterInv(s, w) && OpOk(op, s.id) && k <= |Program(s.envA, op, w.a)|
    requires op.Create? || op.Receive? ==> !w.aGone
    requires w'.a == Run(w.a, Program(s.envA, op, w.a)[..k])
    requires w' == w.(a := w'.a, aGone := w'.aGone, push := w'.push)
    ensures LetterInv(s, w')
  {
    hide Good, Run, Program, OpOk, Announces, TalkInv, PushInv, Copy, Backed, StagedInv, OthersInv, LandedInv;
    PrefixFrozen(s.envA, s.id, op, w.a, k);
  }

  lemma StartKeeps(s: Sites, w: World, w': World)
    requires Inv(s, w) && LetterInv(s, w) && Next(s, w, w', StartPush)
    ensures LetterInv(s, w')
  {
    hide Good, TalkInv, PushInv, Copy, Backed, StagedInv, OthersInv, Known, HitInv, Arrived;
    GoodParts(s.envA, s.id, w.a);
    var tx := w.a.tx.value;
    assert Announces(ReceiveReq(PushOf(tx)), tx);
    if w.pushed.Some? {
      AnnouncesSame(ReceiveReq(PushOf(tx)), tx, w.pushed.value);
      hide Announces, SameLetter;
      assert forall n :: n in w'.requests ==> n == w.next || (n in w.requests && w'.requests[n] == w.requests[n]);
    }
  }

  lemma AnnouncesSame(r: Request, tx: Transaction, a: Transaction)
    requires Announces(r, tx) && SameLetter(a, tx)
    ensures Announces(r, a)
  {}

  // --- Site B -----------------------------------------------------------------------------------

  lemma BKeeps(s: Sites, w: World, b': Core)
    requires LetterInv(s, w) && w.pushed.Some?
    requires w.hit.None? ==>
               && (w.b.tx.Some? && b'.tx.Some? ==> SameIdentity(w.b.tx.value, b'.tx.value))
               && (w.b.tx.None? && FromA(s, b') ==> Arrived(w.pushed.value, b'))
    requires w.hit.Some? ==> Dead(b')
    ensures LetterInv(s, BMoves(s, w, b'))
  {
    hide Announces;
  }

  lemma OpKeeps(s: Sites, w: World, op: Op, k: nat)
    requires Inv(s, w) && LetterInv(s, w) && w.pushed.Some? && OpOk(op, s.id) && k <= |Program(s.envB, op, w.b)|
    requires op.Create? || op.Receive? ==> k == 0 || w.hit.None?
    requires w.hit.None? && w.b.tx.None? && FromA(s, Run(w.b, Program(s.envB, op, w.b)[..k])) ==>
               Arrived(w.pushed.value, Run(w.b, Program(s.envB, op, w.b)[..k]))
    ensures LetterInv(s, BMoves(s, w, Run(w.b, Program(s.envB, op, w.b)[..k])))
  {
    hide Good, Run, Program, OpOk, BMoves, Pushed, LetterInv, Arrived, StagedInv, OthersInv, LandedInv;
    PrefixFrozen(s.envB, s.id, op, w.b, k);
    if w.hit.Some? { DeadStays(s, op, w.b, k); }
    BKeeps(s, w, Run(w.b, Program(s.envB, op, w.b)[..k]));
  }

  /** A record that was not there is A's only if A's request made it. */
  lemma OnlyReceiveMakes(s: Sites, op: Op, b: Core, k: nat)
    requires Good(s.envB, s.id, b) && OpOk(op, s.id) && b.tx.None? && !op.Create? && !op.Receive?
    requires k <= |Program(s.envB, op, b)|
    ensures !FromA(s, Run(b, Program(s.envB, op, b)[..k]))
  {
    hide Good, Run, Program, OpOk;
    PrefixFrozen(s.envB, s.id, op, b, k);
  }

  lemma ReceiveArrives(s: Sites, p: ReceiveRequest, b: Core, k: nat, a: Transaction)
    requires Good(s.envB, s.id, b) && OpOk(ReceiveOp(s, p), s.id) && b.tx.None?
    requires k <= |Program(s.envB, ReceiveOp(s, p), b)| && Announces(ReceiveReq(p), a) && a.id == s.id
    ensures var b' := Run(b, Program(s.envB, ReceiveOp(s, p), b)[..k]); b'.tx.Some? ==> Arrived(a, b')
  {
    hide Good, Run, Program, OpOk, Refusal;
    var op := ReceiveOp(s, p);
    NothingStored(s.envB, s.id, b);
    NoSteps(b, Program(s.envB, op, b));
    if k > 0 {
      InsertProgram(s.envB, op, b);
      Rights.StartedIsNotRefused(s.envB, op, b);
      Rights.ReceiveDoes(s.envB, s.id, op);
    }
  }

  lemma ServeKeeps(s: Sites, w: World, w': World, n: nat, now: int, k: nat)
    requires Inv(s, w) && LetterInv(s, w) && Next(s, w, w', Serve(n, now, k))
    ensures LetterInv(s, w')
  {
    hide Inv, Run, Program, BMoves, Arrived, SameLetter, Announces, Refusal, Done;
    PushedIsThere(s, w, n);
    match w.requests[n] {
      case ReceiveReq(p) =>
        var b' := Run(w.b, Program(s.envB, ReceiveOp(s, p), w.b)[..k]);
        ServeReceiveKeeps(s, w, n, p, k);
        BMovesParts(s, w, b');
        RepliesAreFree(s, BMoves(s, w, b'), w'.replies, w.staged);
      case GetReq => RepliesAreFree(s, w, w'.replies, w'.staged);
      case PutReq(_, _) => RepliesAreFree(s, w, w'.replies, w'.staged);
      case CommitReq =>
        var b' := Run(w.b, Program(s.envB, Commit(PeerA(s), now), w.b)[..k]);
        ServeCommitKeeps(s, w, now, k);
        BMovesParts(s, w, b');
        RepliesAreFree(s, BMoves(s, w, b'), w'.replies, w.staged);
    }
  }

  lemma RepliesAreFree(s: Sites, w: World, replies: map<nat, Reply>, staged: set<Staged>)
    requires LetterInv(s, w)
    ensures LetterInv(s, w.(replies := replies, staged := staged))
  {
    hide Arrived, SameLetter, Announces;
  }

  lemma ServeReceiveKeeps(s: Sites, w: World, n: nat, p: ReceiveRequest, k: nat)
    requires Inv(s, w) && LetterInv(s, w) && w.pushed.Some? && n in w.requests && w.requests[n] == ReceiveReq(p)
    requires OpOk(ReceiveOp(s, p), s.id) && k <= |Program(s.envB, ReceiveOp(s, p), w.b)| && (k > 0 ==> w.hit.None?)
    ensures LetterInv(s, BMoves(s, w, Run(w.b, Program(s.envB, ReceiveOp(s, p), w.b)[..k])))
  {
    hide Good, Run, Program, BMoves, Arrived, SameLetter, Pushed, StagedInv, OthersInv, LandedInv, HitInv, Known, OpOk;
    if w.hit.None? && w.b.tx.None? { ReceiveArrives(s, p, w.b, k, w.pushed.value); }
    OpKeeps(s, w, ReceiveOp(s, p), k);
  }

  lemma ServeCommitKeeps(s: Sites, w: World, now: int, k: nat)
    requires Inv(s, w) && LetterInv(s, w) && w.pushed.Some? && k <= |Program(s.envB, Commit(PeerA(s), now), w.b)|
    ensures LetterInv(s, BMoves(s, w, Run(w.b, Program(s.envB, Commit(PeerA(s), now), w.b)[..k])))
  {
    hide Good, Run, Program, BMoves, Arrived, SameLetter, Pushed, StagedInv, OthersInv, LandedInv, HitInv, Known;
    var op := Commit(PeerA(s), now);
    if w.b.tx.None? { OnlyReceiveMakes(s, op, w.b, k); }
    OpKeeps(s, w, op, k);
  }

  lemma PushedIsThere(s: Sites, w: World, n: nat)
    requires Inv(s, w) && n in w.requests
    ensures w.pushed.Some?
  {
    hide Good, Pushed, LandedInv;
  }

  lemma LocalBKeeps(s: Sites, w: World, w': World, op: Op, k: nat)
    requires Inv(s, w) && LetterInv(s, w) && SitesOk(s) && Next(s, w, w', LocalB(op, k))
    ensures LetterInv(s, w')
  {
    hide Good, Run, Program, BMoves, Arrived, StagedInv, OthersInv, LandedInv, HitInv, Known, OpOk, Pushed, SitesOk;
    PeerNamed(s);
    var b' := Run(w.b, Program(s.envB, op, w.b)[..k]);
    BMovesParts(s, w, b');
    if w.pushed.Some? {
      ForeignKeeps(s, op, w.b, k);
      OpKeeps(s, w, op, k);
    }
  }

  lemma FinishKeeps(s: Sites, w: World, w': World, st: Staged, data: Bytes, k: nat)
    requires Inv(s, w) && LetterInv(s, w) && Next(s, w, w', FinishStaged(st, data, k))
    ensures LetterInv(s, w')
  {
    hide Good, Run, Program, BMoves, Arrived, StagedInv, OthersInv, LandedInv, HitInv, Known, OpOk, Pushed, Done;
    var op := Finish(st.path, data, st.expected);
    BMovesParts(s, w, Run(w.b, Program(s.envB, op, w.b)[..k]));
    if w.pushed.Some? {
      if w.b.tx.None? { OnlyReceiveMakes(s, op, w.b, k); }
      OpKeeps(s, w, op, k);
    }
  }

  lemma DestroyKeeps(s: Sites, w: World, w': World, byAdmin: bool, k: nat)
    requires LetterInv(s, w) && Next(s, w, w', DestroyB(byAdmin, k))
    ensures LetterInv(s, w')
  {
    hide Run, Program, Arrived, Announces;
    assert Seen(w') == Seen(w);
  }

  lemma StepKeeps(s: Sites, w: World, w': World, step: Step)
    requires Inv(s, w) && LetterInv(s, w) && SitesOk(s) && Next(s, w, w', step)
    ensures LetterInv(s, w')
  {
    hide Inv, SitesOk, Program, Run, Arrived, SameLetter, OpOk, LetterInv;
    match step
    case LocalA(op, k) => AKeeps(s, w, w', op, k);
    case LocalB(op, k) => LocalBKeeps(s, w, w', op, k);
    case DestroyB(byAdmin, k) => DestroyKeeps(s, w, w', byAdmin, k);
    case StartPush => StartKeeps(s, w, w');
    case MarkDone(now, k) => DeliverIsOk(s, now); AKeeps(s, w, w', MarkDelivered(now), k);
    case Serve(n, now, k) => ServeKeeps(s, w, w', n, now, k);
    case FinishStaged(st, data, k) => FinishKeeps(s, w, w', st, data, k);
    case _ => QuietKeeps(s, w, w', step);
  }

  lemma QuietKeeps(s: Sites, w: World, w': World, step: Step)
    requires LetterInv(s, w) && Next(s, w, w', step)
    requires step.BeginOther? || step.TakeReply? || step.SendPut? || step.SendCommit? || step.Abort?
    ensures LetterInv(s, w')
  {
    hide Program, Run, Arrived, SameLetter, OpOk, Refusal;
    assert w'.pushed == w.pushed && w'.a == w.a && w'.landed == w.landed && Seen(w') == Seen(w);
  }

  lemma DeliverIsOk(s: Sites, now: int)
    ensures OpOk(MarkDelivered(now), s.id)
  {}

  lemma {:induction false} RunKeepsLetter(s: Sites, run: seq<World>)
    requires SitesOk(s) && IsRun(s, run)
    ensures LetterInv(s, run[|run| - 1])
  {
    hide Next, SitesOk, LetterInv, Inv;
    if |run| == 1 {
      NothingWritten(s);
    } else {
      var n := |run|;
      RunKeepsLetter(s, run[..n - 1]);
      RunKeeps(s, run[..n - 1]);
      assert Steps(s, run[n - 2], run[n - 1]);
      var step :| Next(s, run[n - 2], run[n - 1], step);
      StepKeeps(s, run[n - 2], run[n - 1], step);
    }
  }

  lemma NothingWritten(s: Sites)
    ensures LetterInv(s, Start)
  {}

  // --- The theorems --------------------------------------------------------------------------------

  /** In every run, what B has landed is what A pushed: the same id, sender, addressee, comment
      and time of writing, for a user of B, and marked as coming from A. */
  lemma LandedIsTheLetter(s: Sites, run: seq<World>)
    requires SitesOk(s) && IsRun(s, run) && run[|run| - 1].landed.Some?
    ensures var w := run[|run| - 1];
            && w.pushed.Some? && w.landed.value.tx.Some?
            && var a, b := w.pushed.value, w.landed.value.tx.value;
            && b.id == a.id && b.sender == a.sender && b.targetUser == a.targetUser && b.comment == a.comment
            && b.createdAt == a.createdAt && b.targetServer == "" && b.originServer == s.peer
            && (w.a.tx.Some? ==> w.a.tx.value.sender == b.sender && w.a.tx.value.targetUser == b.targetUser
                                 && w.a.tx.value.comment == b.comment && w.a.tx.value.createdAt == b.createdAt)
  {
    hide Next, SitesOk, Good, Pushed, StagedInv, OthersInv, Known;
    RunKeeps(s, run);
    RunKeepsLetter(s, run);
  }

  /** So the user A's sender wrote to can read it at B, and so can A; but no other peer, and no
      user who is neither that addressee nor a member of the addressed group. */
  lemma AddresseeReads(s: Sites, run: seq<World>, reader: Caller, member: Listing.Membership)
    requires SitesOk(s) && IsRun(s, run) && run[|run| - 1].landed.Some?
    ensures run[|run| - 1].pushed.Some? && run[|run| - 1].landed.value.tx.Some?
    ensures var a, b := run[|run| - 1].pushed.value, run[|run| - 1].landed.value.tx.value;
            Listing.Get(map[s.id := b], reader, member, s.id) ==
            if (if reader.isPeer then reader.name == s.peer
                else reader.name == a.targetUser || member(reader.name, a.targetUser))
            then Ok(b) else Err(Forbidden)
  {
    hide Next, Good, Pushed, StagedInv, OthersInv, Known;
    PeerNamed(s);
    LandedIsTheLetter(s, run);
    RunKeeps(s, run);
  }

  // --- What a peer can see ---------------------------------------------------------------------------

  /** get() over the wire is get() with forbidden told as not found. */
  lemma GetIsGet(s: Sites, b: Core, member: Listing.Membership)
    requires s.peer != ""
    ensures var index := if b.tx.Some? then map[s.id := b.tx.value] else map[];
            var r := Listing.Get(index, Caller(s.peer, true, false), member, s.id);
            GetReply(s, b) == if r.Ok? then StateIs(r.value.state)
                              else Refused(if r.code == Forbidden then NotFound else r.code)
  {}

  /** In every run, a request of A about a transaction that A did not push, be it B's own or
      another peer's, is answered as if there were none, and does nothing; only a push of the same
      id learns that it is taken. */
  lemma OthersAreUnseen(s: Sites, run: seq<World>, w': World, n: nat, now: int, k: nat)
    requires SitesOk(s) && IsRun(s, run) && Next(s, run[|run| - 1], w', Serve(n, now, k))
    requires !FromA(s, run[|run| - 1].b) && !run[|run| - 1].requests[n].ReceiveReq?
    ensures var w := run[|run| - 1]; w' == w.(replies := w.replies[n := Refused(NotFound)])
  {
    hide SitesOk, Good, Pushed, StagedInv, OthersInv, Known, LandedInv, HitInv, Run, Program, BMoves, Refusal, CommittedThere;
    var w := run[|run| - 1];
    PeerNamed(s);
    RunKeeps(s, run);
    ForbiddenToPeer(s, Begin(PeerA(s)), w.b);
    ForbiddenToPeer(s, Commit(PeerA(s), now), w.b);
    NoSteps(w.b, Program(s.envB, Commit(PeerA(s), now), w.b));
    NothingLands(s, w);
  }

  lemma ForbiddenToPeer(s: Sites, op: Op, b: Core)
    requires s.peer != "" && !FromA(s, b) && (op.Begin? || op.Commit?) && op.caller == PeerA(s)
    ensures Refusal(s.envB, op, b) in {Some(NotFound), Some(Forbidden)} && Program(s.envB, op, b) == []
  {}

  lemma NothingLands(s: Sites, w: World)
    ensures !FromA(s, w.b) ==> BMoves(s, w, w.b) == w
  {}
}
