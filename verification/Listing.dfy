/** Listings (service.cpp:271-298 and 354-366, repository.cpp:82-101): what a caller is
    shown of the index, and in which order. The index is a hash map, so its entries come
    in any order; the listing does not depend on it. */
module Listing {
  import opened Basics
  import opened PathOrder
  import opened Transactions

  type Index = map<string, Transaction>

  type Membership = (string, string) -> bool

  ghost predicate Keyed(index: Index) {
    forall id :: id in index ==> index[id].id == id
  }

  /** Whose listing: a user's outbox or inbox, or the forwarder's work. */
  datatype Selection = Outbox(caller: Caller) | Inbox(caller: Caller) | Outgoing

  predicate Selected(sel: Selection, tx: Transaction, member: Membership) {
    match sel
    case Outbox(caller) => !caller.isPeer && IsSender(caller, tx)
    case Inbox(caller) => !caller.isPeer && IsTarget(caller, tx, member) && tx.state in {Committed, Delivered}
    case Outgoing => IsOutgoing(tx)
  }

  /** The sort order: newest first for users, longest committed first for the forwarder,
      then by id. */
  predicate Before(sel: Selection, a: Transaction, b: Transaction) {
    if sel == Outgoing then
      if a.committedAt != b.committedAt then OptionLess(a.committedAt, b.committedAt) else Less(a.id, b.id)
    else
      if a.createdAt != b.createdAt then a.createdAt > b.createdAt else Less(a.id, b.id)
  }

  /** std::optional comparison: no value comes first. */
  predicate OptionLess(a: Option<int>, b: Option<int>) {
    b.Some? && (a.None? || a.value < b.value)
  }

  lemma BeforeIsStrict(sel: Selection, a: Transaction, b: Transaction)
    ensures !(Before(sel, a, b) && Before(sel, b, a))
    ensures a.id != b.id ==> Before(sel, a, b) || Before(sel, b, a)
  {
    Total(a.id, b.id);
    Irreflexive(a.id);
    if Less(a.id, b.id) && Less(b.id, a.id) {
      Transitive(a.id, b.id, a.id);
    }
  }

  lemma BeforeIsTransitive(sel: Selection, a: Transaction, b: Transaction, c: Transaction)
    requires Before(sel, a, b) && Before(sel, b, c)
    ensures Before(sel, a, c)
  {
    if Less(a.id, b.id) && Less(b.id, c.id) {
      Transitive(a.id, b.id, c.id);
    }
  }

  ghost predicate Ordered(sel: Selection, txs: seq<Transaction>) {
    forall i, j :: 0 <= i < j < |txs| ==> Before(sel, txs[i], txs[j])
  }

  /** txs shows exactly the selected entries of the index. */
  ghost predicate Shows(index: Index, sel: Selection, member: Membership, txs: seq<Transaction>) {
    forall tx :: tx in txs <==> tx.id in index && index[tx.id] == tx && Selected(sel, tx, member)
  }

  ghost predicate DistinctIds(txs: seq<Transaction>) {
    forall i, j :: 0 <= i < j < |txs| ==> txs[i].id != txs[j].id
  }

  // --- std::ranges::sort, as far as a strict order fixes it ------------------------------

  function Insert(sel: Selection, sorted: seq<Transaction>, tx: Transaction): seq<Transaction> {
    if sorted == [] then [tx]
    else if Before(sel, tx, sorted[0]) then [tx] + sorted
    else [sorted[0]] + Insert(sel, sorted[1..], tx)
  }

  function Sort(sel: Selection, txs: seq<Transaction>): seq<Transaction> {
    if txs == [] then [] else Insert(sel, Sort(sel, txs[1..]), txs[0])
  }

  lemma {:induction false} InsertAdds(sel: Selection, sorted: seq<Transaction>, tx: Transaction)
    ensures multiset(Insert(sel, sorted, tx)) == multiset(sorted) + multiset{tx}
  {
    hide Before;
    if sorted != [] {
      assert sorted == [sorted[0]] + sorted[1..];
      if !Before(sel, tx, sorted[0]) {
        InsertAdds(sel, sorted[1..], tx);
        assert Insert(sel, sorted, tx) == [sorted[0]] + Insert(sel, sorted[1..], tx);
      }
    }
  }

  lemma {:induction false} InsertOrders(sel: Selection, sorted: seq<Transaction>, tx: Transaction)
    requires Ordered(sel, sorted) && forall x :: x in sorted ==> x.id != tx.id
    ensures Ordered(sel, Insert(sel, sorted, tx))
  {
    hide Before;
    var r := Insert(sel, sorted, tx);
    if sorted == [] {
    } else if Before(sel, tx, sorted[0]) {
      forall i, j | 0 <= i < j < |r| ensures Before(sel, r[i], r[j]) {
        if i == 0 && j > 1 {
          BeforeIsTransitive(sel, tx, sorted[0], r[j]);
        }
      }
    } else {
      var rest := Insert(sel, sorted[1..], tx);
      InsertOrders(sel, sorted[1..], tx);
      InsertAdds(sel, sorted[1..], tx);
      BeforeIsStrict(sel, tx, sorted[0]);
      forall j | 0 <= j < |rest| ensures Before(sel, sorted[0], rest[j]) {
        assert rest[j] in multiset(rest);
        if rest[j] != tx {
          assert rest[j] in sorted[1..];
        }
      }
    }
  }

  lemma {:induction false} SortSorts(sel: Selection, txs: seq<Transaction>)
    requires DistinctIds(txs)
    ensures Ordered(sel, Sort(sel, txs)) && multiset(Sort(sel, txs)) == multiset(txs)
  {
    hide Before;
    if txs != [] {
      SortSorts(sel, txs[1..]);
      var rest := Sort(sel, txs[1..]);
      forall x | x in rest ensures x.id != txs[0].id {
        assert x in multiset(rest);
      }
      InsertOrders(sel, rest, txs[0]);
      InsertAdds(sel, rest, txs[0]);
      assert txs == [txs[0]] + txs[1..];
    }
  }

  // --- The result is a function of the index -----------------------------------------------

  lemma FirstIsFirst(sel: Selection, a: seq<Transaction>, b: seq<Transaction>)
    requires a != [] && b != [] && Ordered(sel, a) && Ordered(sel, b)
    requires forall tx :: tx in a <==> tx in b
    ensures a[0] == b[0]
  {
    hide Before;
    assert a[0] in b && b[0] in a;
    BeforeIsStrict(sel, a[0], b[0]);
  }

  lemma {:induction false} OrderedIsUnique(sel: Selection, a: seq<Transaction>, b: seq<Transaction>)
    requires Ordered(sel, a) && Ordered(sel, b)
    requires forall tx :: tx in a <==> tx in b
    ensures a == b
  {
    hide Before;
    assert b != [] ==> b[0] in b;
    if a != [] {
      assert a[0] in b;
      FirstIsFirst(sel, a, b);
      NotAgain(sel, a);
      NotAgain(sel, b);
      forall tx ensures tx in a[1..] <==> tx in b[1..] {
        assert tx in a <==> tx == a[0] || tx in a[1..];
        assert tx in b <==> tx == b[0] || tx in b[1..];
      }
      OrderedIsUnique(sel, a[1..], b[1..]);
      assert a == [a[0]] + a[1..] && b == [b[0]] + b[1..];
    }
  }

  lemma NotAgain(sel: Selection, a: seq<Transaction>)
    requires a != [] && Ordered(sel, a)
    ensures a[0] !in a[1..]
  {
    hide Before;
    BeforeIsStrict(sel, a[0], a[0]);
    forall i | 1 <= i < |a| ensures a[i] != a[0] {
      assert Before(sel, a[0], a[i]);
    }
  }

  /** A listing depends on the stored transactions alone: whichever orders two runs of the
      loop meet the map's entries in, the sorted results are the same sequence. */
  lemma ListingIsUnique(index: Index, sel: Selection, member: Membership, a: seq<Transaction>, b: seq<Transaction>)
    requires DistinctIds(a) && Shows(index, sel, member, a)
    requires DistinctIds(b) && Shows(index, sel, member, b)
    ensures Sort(sel, a) == Sort(sel, b)
  {
    hide Before, Selected;
    SortSorts(sel, a);
    SortSorts(sel, b);
    var x, y := Sort(sel, a), Sort(sel, b);
    forall tx ensures tx in x <==> tx in y {
      assert tx in x <==> tx in multiset(x);
      assert tx in y <==> tx in multiset(y);
    }
    OrderedIsUnique(sel, x, y);
  }

  // --- Reading one transaction ----------------------------------------------------------------

  /** TransactionService::get (service.cpp:271-281). */
  function Get(index: Index, caller: Caller, member: Membership, id: string): Result<Transaction> {
    if id !in index then Err(NotFound)
    else if !MayRead(caller, index[id], member) then Err(Forbidden)
    else Ok(index[id])
  }

  /** Who can read a stored transaction: the peer that pushed it; of the users, the one who
      created it here in every state, and, once it is not open any more, the addressed user of
      this server and the members of the addressed group. Everybody else is refused. */
  lemma ReadersExactly(index: Index, caller: Caller, member: Membership, id: string)
    ensures id !in index ==> Get(index, caller, member, id) == Err(NotFound)
    ensures id in index ==>
              var tx := index[id];
              Get(index, caller, member, id) ==
              if (if caller.isPeer then tx.originServer != "" && caller.name == tx.originServer
                  else || (tx.originServer == "" && caller.name == tx.sender)
                       || (&& tx.targetServer == "" && tx.state != Open
                           && (caller.name == tx.targetUser || member(caller.name, tx.targetUser))))
              then Ok(tx) else Err(Forbidden)
  {}

  /** In particular: a user who is neither sender, nor addressee, nor a member is refused in
      every state; so is a peer that did not push it; an addressee who did not send it is refused
      if and only if it is open; and the sender never is. */
  lemma ReadersInParticular(index: Index, caller: Caller, member: Membership, tx: Transaction)
    requires tx.id in index && index[tx.id] == tx
    ensures (&& !caller.isPeer && caller.name != tx.sender && caller.name != tx.targetUser
             && !member(caller.name, tx.targetUser)) ==> Get(index, caller, member, tx.id) == Err(Forbidden)
    ensures caller.isPeer && caller.name != tx.originServer ==> Get(index, caller, member, tx.id) == Err(Forbidden)
    ensures !caller.isPeer && tx.targetServer == "" && caller.name == tx.targetUser && caller.name != tx.sender ==>
              (Get(index, caller, member, tx.id) == Err(Forbidden) <==> tx.state == Open)
    ensures !caller.isPeer && tx.originServer == "" && caller.name == tx.sender ==>
              Get(index, caller, member, tx.id) == Ok(tx)
  {
    ReadersExactly(index, caller, member, tx.id);
  }

  /** What Ordered means: newest first for users, longest committed first for the forwarder,
      and among equals the smaller id first. */
  lemma OrderedIs(sel: Selection, txs: seq<Transaction>, i: nat, j: nat)
    requires Ordered(sel, txs) && i < j < |txs|
    ensures sel != Outgoing ==>
              || txs[i].createdAt > txs[j].createdAt
              || (txs[i].createdAt == txs[j].createdAt && Less(txs[i].id, txs[j].id))
    ensures sel == Outgoing && txs[i].committedAt.Some? && txs[j].committedAt.Some? ==>
              || txs[i].committedAt.value < txs[j].committedAt.value
              || (txs[i].committedAt == txs[j].committedAt && Less(txs[i].id, txs[j].id))
  {
    assert Before(sel, txs[i], txs[j]);
  }

  /** Everything listed to a caller can be read by that caller; and what a target can read
      is listed while it is committed or delivered. */
  lemma ListedIsReadable(index: Index, caller: Caller, member: Membership, outbox: bool, txs: seq<Transaction>)
    requires var sel := if outbox then Outbox(caller) else Inbox(caller); Shows(index, sel, member, txs)
    ensures forall tx :: tx in txs ==> Get(index, caller, member, tx.id) == Ok(tx)
    ensures Keyed(index) && !outbox ==>
              forall id :: id in index && IsTarget(caller, index[id], member)
                           && Get(index, caller, member, id).Ok? && index[id].state in {Committed, Delivered}
                           ==> index[id] in txs
  {}

  // --- The loops --------------------------------------------------------------------------------

  /** TransactionRepository::find_if: meets the entries in any order. */
  method FindIf(index: Index, sel: Selection, member: Membership) returns (out: seq<Transaction>)
    requires Keyed(index)
    ensures DistinctIds(out) && Shows(index, sel, member, out)
  {
    hide Selected;
    out := [];
    var rest := index.Keys;
    while rest != {}
      invariant rest <= index.Keys && DistinctIds(out)
      invariant forall i :: 0 <= i < |out| ==> out[i].id in index && out[i].id !in rest
      invariant forall tx :: tx in out <==>
                  tx.id in index && tx.id !in rest && index[tx.id] == tx && Selected(sel, tx, member)
      decreases |rest|
    {
      var id :| id in rest;
      rest := rest - {id};
      if Selected(sel, index[id], member) {
        out := out + [index[id]];
      }
    }
  }

  datatype Box = In | Out

  /** TransactionService::list (service.cpp:283-298). */
  method List(index: Index, caller: Caller, box: Box, member: Membership) returns (txs: seq<Transaction>)
    requires Keyed(index)
    ensures var sel := if box == Out then Outbox(caller) else Inbox(caller);
            Ordered(sel, txs) && Shows(index, sel, member, txs)
    ensures forall tx :: tx in txs <==>
              && tx.id in index && index[tx.id] == tx && !caller.isPeer
              && (box == Out ==> tx.originServer == "" && tx.sender == caller.name)
              && (box == In ==> && tx.targetServer == "" && (tx.state == Committed || tx.state == Delivered)
                                && (caller.name == tx.targetUser || member(caller.name, tx.targetUser)))
  {
    hide Before;
    var sel := if box == Out then Outbox(caller) else Inbox(caller);
    if caller.isPeer {
      return [];
    }
    var found := FindIf(index, sel, member);
    SortShows(index, sel, member, found);
    txs := Sort(sel, found);
  }

  /** TransactionService::list_outgoing (service.cpp:354-365). */
  method ListOutgoing(index: Index, member: Membership) returns (ids: seq<string>)
    requires Keyed(index)
    ensures forall id :: id in ids <==>
              id in index && index[id].originServer == "" && index[id].targetServer != "" && index[id].state == Committed
    ensures forall i, j :: 0 <= i < j < |ids| ==>
              ids[i] in index && ids[j] in index && Before(Outgoing, index[ids[i]], index[ids[j]])
  {
    hide Before, Shows, Ordered, DistinctIds;
    var found := FindIf(index, Outgoing, member);
    var txs := Sort(Outgoing, found);
    SortShows(index, Outgoing, member, found);
    ids := [];
    for i := 0 to |txs|
      invariant |ids| == i && forall k :: 0 <= k < i ==> ids[k] == txs[k].id
    {
      ids := ids + [txs[i].id];
    }
    OutgoingIds(index, member, txs, ids);
  }

  lemma SortShows(index: Index, sel: Selection, member: Membership, found: seq<Transaction>)
    requires DistinctIds(found) && Shows(index, sel, member, found)
    ensures Ordered(sel, Sort(sel, found)) && Shows(index, sel, member, Sort(sel, found))
  {
    hide Before, Selected;
    SortSorts(sel, found);
    var txs := Sort(sel, found);
    forall tx ensures tx in txs <==> tx in found {
      assert tx in txs <==> tx in multiset(txs);
    }
  }

  lemma OutgoingIds(index: Index, member: Membership, txs: seq<Transaction>, ids: seq<string>)
    requires Keyed(index) && Ordered(Outgoing, txs) && Shows(index, Outgoing, member, txs)
    requires |ids| == |txs| && forall k :: 0 <= k < |ids| ==> ids[k] == txs[k].id
    ensures forall id :: id in ids <==> id in index && IsOutgoing(index[id])
    ensures forall i, j :: 0 <= i < j < |ids| ==>
              ids[i] in index && ids[j] in index && Before(Outgoing, index[ids[i]], index[ids[j]])
  {
    hide Before, IsOutgoing;
    forall id | id in index && IsOutgoing(index[id]) ensures id in ids {
      var k :| 0 <= k < |txs| && txs[k] == index[id];
      assert ids[k] == id;
    }
    forall k | 0 <= k < |ids| ensures ids[k] in index && index[ids[k]] == txs[k] && IsOutgoing(txs[k]) {
      assert txs[k] in txs;
    }
  }
}
