/** A transaction's record, its state machine and who may do what with it
    (src/lib/transaction/transaction.hpp, state_machine.cpp and the predicates
    at the top of service.cpp). */
module Transactions {
  import opened Basics
  import opened FileList

  datatype State = Open | Committed | Delivered | Expired

  datatype Transaction = Transaction(
    id: string,
    sender: string,
    targetUser: string,
    targetServer: string, // empty = the target user is on this server
    originServer: string, // empty = created here, else the peer that pushed it
    comment: string,
    state: State,
    createdAt: int,
    expiresAt: int,
    committedAt: Option<int>,
    deliveredAt: Option<int>,
    files: seq<FileEntry>)

  predicate CanTransition(from: State, to: State) {
    match from
    case Open => to == Committed || to == Expired
    case Committed => to == Delivered || to == Expired
    case Delivered => to == Expired
    case Expired => false
  }

  function CheckTransition(from: State, to: State): Option<ErrCode> {
    if CanTransition(from, to) then None
    else if from == Expired then Some(Gone) else Some(Conflict)
  }

  function RequireMutable(state: State): Option<ErrCode> {
    match state
    case Open => None
    case Committed => Some(Conflict)
    case Delivered => Some(Conflict)
    case Expired => Some(Gone)
  }

  function Rank(state: State): nat {
    match state
    case Open => 0
    case Committed => 1
    case Delivered => 2
    case Expired => 3
  }

  /** Every allowed transition moves forward, and an expired transaction has
      nowhere to go. */
  lemma TransitionsMoveForward(from: State, to: State)
    ensures CanTransition(from, to) ==> Rank(from) < Rank(to)
    ensures CheckTransition(from, to) == Some(Gone) <==> from == Expired
    ensures RequireMutable(from) == None <==> CanTransition(from, Committed)
  {}

  /** The allowed transitions, exactly: forward ones, but a transaction is not delivered
      before it is committed. The refusal says whether it is too late for good. */
  lemma TransitionsExactly(from: State, to: State)
    ensures CanTransition(from, to) <==> Rank(from) < Rank(to) && !(from == Open && to == Delivered)
    ensures CheckTransition(from, to) ==
            if CanTransition(from, to) then None else if from == Expired then Some(Gone) else Some(Conflict)
    ensures RequireMutable(from) == if from == Open then None else if from == Expired then Some(Gone) else Some(Conflict)
  {}

  datatype Caller = Caller(name: string, isPeer: bool, isAdmin: bool)

  predicate IsSender(c: Caller, tx: Transaction) {
    !c.isPeer && tx.originServer == "" && c.name == tx.sender
  }

  predicate IsTarget(c: Caller, tx: Transaction, member: (string, string) -> bool) {
    !c.isPeer && tx.targetServer == "" && (c.name == tx.targetUser || member(c.name, tx.targetUser))
  }

  predicate IsOriginPeer(c: Caller, tx: Transaction) {
    c.isPeer && tx.originServer != "" && c.name == tx.originServer
  }

  predicate MayWrite(c: Caller, tx: Transaction) {
    IsSender(c, tx) || IsOriginPeer(c, tx)
  }

  predicate MayRead(c: Caller, tx: Transaction, member: (string, string) -> bool) {
    IsSender(c, tx) || IsOriginPeer(c, tx) || (IsTarget(c, tx, member) && tx.state != Open)
  }

  predicate IsOutgoing(tx: Transaction) {
    tx.originServer == "" && tx.targetServer != "" && tx.state == Committed
  }

  function TotalBytes(files: seq<FileEntry>): nat {
    if files == [] then 0 else files[0].size + TotalBytes(files[1..])
  }

  /** The total adds up: over parts, and to the size of a single file. */
  lemma {:induction false} TotalAddsUp(a: seq<FileEntry>, b: seq<FileEntry>, e: FileEntry)
    ensures TotalBytes(a + b) == TotalBytes(a) + TotalBytes(b)
    ensures TotalBytes([e]) == e.size
  {
    assert [e][1..] == [];
    if a == [] {
      assert a + b == b;
    } else {
      TotalAddsUp(a[1..], b, e);
      assert (a + b)[1..] == a[1..] + b;
    }
  }
}
