/** Who may do what, and what it then does: the laws of the service's operations in terms of
    callers and records, for every operation and every fault. */
module Rights {
  import opened Basics
  import opened FileList
  import opened Transactions
  import opened StorageTree
  import opened MetaCodec
  import opened Core
  import opened Sections

  /** The caller is the user who created the transaction here, or the peer that pushed it. */
  predicate Wrote(c: Caller, tx: Transaction) {
    if c.isPeer then tx.originServer != "" && c.name == tx.originServer
    else tx.originServer == "" && c.name == tx.sender
  }

  // --- When an operation goes ahead ----------------------------------------------------------

  lemma CreateGoesAhead(env: Env, op: Op, c: Core)
    requires op.Create?
    ensures var r := op.request;
            var server := if r.targetServer == env.localServer then "" else r.targetServer;
            var days := if r.days == 0 then env.defaultDays else r.days;
            Refusal(env, op, c).None? <==>
              && !op.caller.isPeer && r.targetUser != "" && 0 <= r.days <= env.maxDays
              && CommentOk(r.comment, env.maxComment) && env.destination(r.targetUser, server).None?
              && 1 <= days <= 3650 && c.tx.None?
  {
    hide CommentOk;
  }

  lemma ReceiveGoesAhead(env: Env, op: Op, c: Core)
    requires op.Receive?
    ensures Refusal(env, op, c).None? <==>
              && op.caller.isPeer && op.push.sender != "" && op.push.targetUser != ""
              && op.push.createdAt < op.push.expiresAt
              && CommentOk(op.push.comment, env.maxComment) && env.destination(op.push.targetUser, "").None?
              && c.tx.None?
  {
    hide CommentOk;
  }

  lemma RetentionGoesAhead(env: Env, op: Op, c: Core)
    requires op.SetRetention?
    ensures Refusal(env, op, c).None? <==>
              && op.caller.isAdmin && 1 <= op.days <= env.maxDays && op.days <= 3650
              && c.tx.Some? && c.tx.value.state != Expired
  {}

  /** Uploads, removals and commits are for the writer of an open transaction; uploads meet no
      clash and carry the promised digest, removals name a file that is listed and stored, and
      commits find every listed file as it was uploaded. */
  lemma WritingGoesAhead(env: Env, op: Op, c: Core)
    requires c.tx.Some? && c.folder.Some? && Shaped(c.folder.value.tree)
    requires op.Begin? || op.Finish? || op.RemoveFile? || op.Commit?
    ensures var tx, t := c.tx.value, c.folder.value.tree;
            Refusal(env, op, c).None? <==>
              && tx.state == Open
              && (!op.Finish? ==> Wrote(op.caller, tx))
              && (op.Finish? ==> op.expected.None? || op.expected.value == env.hash(op.data))
              && (op.Finish? ==> !FileInTheWay(t, op.path) && !Leftover(t, op.path))
              && (op.RemoveFile? ==> op.path in t.files && exists e :: e in tx.files && e.path == op.path)
              && (op.Commit? ==> forall e :: e in tx.files ==>
                    e.path in t.files && |t.files[e.path]| == e.size && env.hash(t.files[e.path]) == e.sha256)
  {
    hide Shaped, Clash, FileInTheWay, Leftover;
    if op.Finish? { ClashExactly(c.folder.value.tree, op.path); }
    if op.RemoveFile? { FoundIsListed(c.tx.value.files, op.path); }
    if op.Commit? { HashCheckMatches(env, c.tx.value.files, c.folder.value.tree); }
    hide HashCheck, FindLinear;
  }

  lemma {:induction false} FoundIsListed(files: seq<FileEntry>, path: string)
    ensures FindLinear(files, path) < |files| <==> exists e :: e in files && e.path == path
  {
    if files != [] {
      FoundIsListed(files[1..], path);
      assert files == [files[0]] + files[1..];
      assert files[0] in files;
    }
  }

  /** What a refused operation is told; an unknown id is not found by anything that needs one. */
  lemma RefusalsSay(env: Env, op: Op, c: Core)
    ensures c.tx.None? && !op.Create? && !op.Receive? && !op.SetRetention? ==> Refusal(env, op, c) == Some(NotFound)
    ensures c.tx.Some? && c.folder.Some? ==>
            var state := c.tx.value.state;
            && (op.Begin? || op.RemoveFile? || op.Commit? ==>
                  (Refusal(env, op, c) == Some(Forbidden) <==> !Wrote(op.caller, c.tx.value)))
            && (op.Begin? || op.RemoveFile? || op.Commit? || op.Finish? ==>
                  && (Refusal(env, op, c) == Some(Gone) ==> state == Expired)
                  && (state != Open && Refusal(env, op, c) != Some(Forbidden) ==>
                        Refusal(env, op, c) == Some(if state == Expired then Gone else Conflict)))
            && (op.MarkDelivered? ==>
                  Refusal(env, op, c) == if state == Committed then None
                                         else if state == Expired then Some(Gone) else Some(Conflict))
            && (op.Destroy? ==> Refusal(env, op, c).None?)
            && (op.Create? || op.Receive? ==> Refusal(env, op, c).Some?)
  {
    hide Clash, FindLinear, CommentOk;
    if op.Commit? && c.tx.Some? && c.folder.Some? { HashCheckCodes(env, c.tx.value.files, c.folder.value.tree); }
    hide HashCheck;
  }

  /** Why an upload or a removal of the writer is refused while the transaction is open. */
  lemma UploadsAreTold(env: Env, op: Op, c: Core)
    requires c.tx.Some? && c.folder.Some? && c.tx.value.state == Open && Shaped(c.folder.value.tree)
    requires op.Finish? || (op.RemoveFile? && Wrote(op.caller, c.tx.value))
    ensures var t := c.folder.value.tree;
            && (op.Finish? ==>
                  var broken := op.expected.Some? && op.expected.value != env.hash(op.data);
                  && (Refusal(env, op, c) == Some(Integrity) <==> broken)
                  && (Refusal(env, op, c) == Some(Conflict) <==>
                        !broken && (FileInTheWay(t, op.path) || Leftover(t, op.path))))
            && (op.RemoveFile? ==>
                  (Refusal(env, op, c) == Some(NotFound) <==>
                     !(op.path in t.files && exists e :: e in c.tx.value.files && e.path == op.path)))
  {
    hide StorageTree.Clash, FindLinear, Leftover, FileInTheWay;
    if op.Finish? { ClashExactly(c.folder.value.tree, op.path); }
    if op.RemoveFile? { FoundIsListed(c.tx.value.files, op.path); }
  }

  /** Why a new transaction is refused: strangers first, then malformed requests, then what the
      directory says of the destination, and a known id last. */
  lemma NewcomersAreTold(env: Env, op: Op, c: Core)
    requires op.Create? || op.Receive?
    ensures var user := if op.Create? then op.request.targetUser else op.push.targetUser;
            var comment := if op.Create? then op.request.comment else op.push.comment;
            var server := if op.Create? && op.request.targetServer != env.localServer then op.request.targetServer else "";
            var fine := && user != "" && CommentOk(comment, env.maxComment)
                        && (op.Create? ==> 0 <= op.request.days <= env.maxDays)
                        && (op.Receive? ==> op.push.sender != "" && op.push.createdAt < op.push.expiresAt);
            if op.caller.isPeer != op.Receive? then Refusal(env, op, c) == Some(Forbidden)
            else if !fine then Refusal(env, op, c) == Some(Validation)
            else if env.destination(user, server).Some? then Refusal(env, op, c) == env.destination(user, server)
            else Refusal(env, op, c) in {None, Some(Validation), Some(Conflict)}
                 && (Refusal(env, op, c) == Some(Conflict) ==> c.tx.Some?)
                 && (c.tx.Some? ==> Refusal(env, op, c).Some?)
  {
    hide CommentOk;
  }

  /** The first entry that does not match decides: not found if its file is missing, else an
      integrity error. */
  lemma {:induction false} HashCheckCodes(env: Env, files: seq<FileEntry>, t: Tree)
    ensures HashCheck(env, files, t) in {None, Some(NotFound), Some(Integrity)}
    ensures forall i :: 0 <= i < |files| && !EntryMatches(env, files[i], t)
                        && (forall j :: 0 <= j < i ==> EntryMatches(env, files[j], t)) ==>
              HashCheck(env, files, t) == Some(if files[i].path in t.files then Integrity else NotFound)
  {
    hide EntryMatches;
    if files != [] {
      var rest := files[1..];
      HashCheckCodes(env, rest, t);
      MissingDoesNotMatch(env, files[0], t);
      forall i | 0 <= i < |files| && !EntryMatches(env, files[i], t)
                 && (forall j :: 0 <= j < i ==> EntryMatches(env, files[j], t))
        ensures HashCheck(env, files, t) == Some(if files[i].path in t.files then Integrity else NotFound)
      {
        if i > 0 {
          assert EntryMatches(env, files[0], t);
          assert rest[i - 1] == files[i];
          forall j | 0 <= j < i - 1 ensures EntryMatches(env, rest[j], t) { assert rest[j] == files[j + 1]; }
        }
      }
    }
  }

  lemma MissingDoesNotMatch(env: Env, e: FileEntry, t: Tree)
    ensures EntryMatches(env, e, t) ==> e.path in t.files
  {}

  // --- Comments ----------------------------------------------------------------------------------

  /** The UTF-8 bytes of a code point (section 3 of RFC 3629). */
  function Utf8(cp: int): string
    requires 0 <= cp < 0x110000
  {
    if cp < 0x80 then [cp as char]
    else if cp < 0x800 then [(0xC0 + cp / 0x40) as char, Continuation(cp)]
    else if cp < 0x10000 then [(0xE0 + cp / 0x1000) as char, Continuation(cp / 0x40), Continuation(cp)]
    else [(0xF0 + cp / 0x40000) as char, Continuation(cp / 0x1000), Continuation(cp / 0x40), Continuation(cp)]
  }

  function Continuation(bits: nat): char {
    (0x80 + bits % 0x40) as char
  }

  ghost predicate CodePointsIn(cps: seq<int>) {
    forall i :: 0 <= i < |cps| ==> 0 <= cps[i] < 0x110000
  }

  function Utf8All(cps: seq<int>): string
    requires CodePointsIn(cps)
  {
    if cps == [] then "" else Utf8All(cps[..|cps| - 1]) + Utf8(cps[|cps| - 1])
  }

  predicate Uncontrolled(text: string) {
    forall i :: 0 <= i < |text| ==> ' ' <= text[i] && text[i] != '\U{7f}'
  }

  lemma {:induction false} CodePointsAdd(a: string, b: string)
    ensures CodePoints(a + b) == CodePoints(a) + CodePoints(b)
  {
    if b == "" {
      assert a + b == a;
    } else {
      CodePointsAdd(a, b[..|b| - 1]);
      assert (a + b)[..|a + b| - 1] == a + b[..|b| - 1];
    }
  }

  lemma OneCodePoint(cp: int)
    requires 0 <= cp < 0x110000
    ensures CodePoints(Utf8(cp)) == 1
    ensures Uncontrolled(Utf8(cp)) <==> cp >= 32 && cp != 127
  {
    var u := Utf8(cp);
    LeadThenRest(u);
    assert cp < 0x80 ==> u[0] as int == cp;
  }

  predicate Continues(c: char) {
    0x80 <= c as int < 0xC0
  }

  lemma {:induction false} LeadThenRest(u: string)
    requires 1 <= |u| && !Continues(u[0]) && forall i :: 1 <= i < |u| ==> Continues(u[i])
    ensures CodePoints(u) == 1
  {
    var front, last := u[..|u| - 1], u[|u| - 1];
    if |u| > 1 {
      LeadThenRest(front);
    }
    OneMore(front, last);
    assert u == front + [last];
  }

  lemma OneMore(text: string, c: char)
    ensures CodePoints(text + [c]) == CodePoints(text) + if 0x80 <= c as int < 0xC0 then 0 else 1
  {
    assert (text + [c])[..|text|] == text;
  }

  lemma UncontrolledBoth(a: string, b: string)
    ensures Uncontrolled(a + b) <==> Uncontrolled(a) && Uncontrolled(b)
  {
    assert forall i :: 0 <= i < |a| ==> (a + b)[i] == a[i];
    assert forall i :: 0 <= i < |b| ==> (a + b)[|a| + i] == b[i];
  }

  predicate NoControl(cps: seq<int>) {
    forall i :: 0 <= i < |cps| ==> cps[i] >= 32 && cps[i] != 127
  }

  lemma {:induction false} Counted(cps: seq<int>)
    requires CodePointsIn(cps)
    ensures CodePoints(Utf8All(cps)) == |cps|
    ensures Uncontrolled(Utf8All(cps)) <==> NoControl(cps)
  {
    hide Utf8, CodePoints, Uncontrolled;
    if cps == [] {
      NothingCounted();
    } else {
      var front, last := cps[..|cps| - 1], cps[|cps| - 1];
      Counted(front);
      OneCodePoint(last);
      CodePointsAdd(Utf8All(front), Utf8(last));
      UncontrolledBoth(Utf8All(front), Utf8(last));
    }
  }

  lemma NothingCounted()
    ensures CodePoints("") == 0 && Uncontrolled("")
  {}

  /** A comment is fine exactly if it has at most so many code points, none of them a control
      character: letters outside ASCII count once, however many bytes they take. */
  lemma CommentsAreCounted(cps: seq<int>, max: nat)
    requires CodePointsIn(cps)
    ensures CodePoints(Utf8All(cps)) == |cps|
    ensures CommentOk(Utf8All(cps), max) <==> |cps| <= max && forall i :: 0 <= i < |cps| ==> cps[i] >= 32 && cps[i] != 127
  {
    hide Utf8All, CodePoints;
    Counted(cps);
  }

  // --- Nothing changes without the right to change it -----------------------------------------

  /** What a stored record may become, through any prefix of any operation, and by whom. */
  ghost predicate ByRight(env: Env, op: Op, tx: Transaction, tx': Transaction) {
    && (tx'.expiresAt != tx.expiresAt ==>
          && op.SetRetention? && op.caller.isAdmin && 1 <= op.days <= env.maxDays && op.days <= 3650
          && tx'.expiresAt == tx.createdAt + op.days * 86400)
    && (tx'.files != tx.files ==> tx.state == Open && (op.Finish? || (op.RemoveFile? && Wrote(op.caller, tx))))
    && (tx'.state != tx.state ==>
          || (tx'.state == Committed && tx.state == Open && op.Commit? && Wrote(op.caller, tx))
          || (tx'.state == Delivered && tx.state == Committed && op.MarkDelivered?)
          || (tx'.state == Expired && op.Destroy?))
    && (tx'.committedAt != tx.committedAt ==> op.Commit? && tx'.committedAt == Some(op.now))
    && (tx'.deliveredAt != tx.deliveredAt ==> op.MarkDelivered? && tx'.deliveredAt == Some(op.now))
  }

  /** Through any prefix of any operation a stored record changes only by right: its expiry by
      an administrator and to so many days after the creation, its files and its commit by its
      writer while it is open, its delivery by the forwarder, and it goes only by a destroy. */
  lemma ChangesAreByRight(env: Env, id: string, op: Op, c: Core, k: nat)
    requires Good(env, id, c) && OpOk(op, id) && c.tx.Some? && k <= |Program(env, op, c)|
    ensures var c' := Run(c, Program(env, op, c)[..k]);
            && (c'.tx.None? ==> op.Destroy?)
            && (c'.tx.Some? ==> ByRight(env, op, c.tx.value, c'.tx.value))
  {
    hide Good, Run, Program, OpOk, EncodeMeta, EncodeManifest, Upsert, Erase, MakeDirs, Rename, Unlink, Refusal;
    var p := Program(env, op, c);
    NoSteps(c, p);
    if k > 0 {
      OneStep(c, p);
      GoodParts(env, id, c);
      StartedIsNotRefused(env, op, c);
      match op {
        case Create(_, _, _, _) => InsertProgram(env, op, c);
        case Receive(_, _, _) => InsertProgram(env, op, c);
        case Begin(_) => BeginEmpty(env, op, c);
        case Finish(_, _, _) => FinishProgram(env, op, c); FourSteps(c, p, k);
        case RemoveFile(_, _, _) => RemoveProgram(env, op, c); ThreeSteps(c, p, k);
        case Commit(_, _) => CommitProgram(env, op, c); ThreeSteps(c, p, k);
        case MarkDelivered(_) => DeliverProgram(env, op, c); TwoSteps(c, p, k);
        case SetRetention(_, _) => DeliverProgram(env, op, c); TwoSteps(c, p, k); RetentionGoesAhead(env, op, c);
        case Destroy(_) =>
          DestroyProgram(env, op, c);
          if |p| == 2 { TwoSteps(c, p, k); } else { ThreeSteps(c, p, k); }
      }
    }
  }

  lemma StartedIsNotRefused(env: Env, op: Op, c: Core)
    ensures Program(env, op, c) != [] ==> Refusal(env, op, c).None?
  {}

  // --- What an operation that goes through does --------------------------------------------------

  function Whole(env: Env, op: Op, c: Core): Core {
    Run(c, Program(env, op, c)[..|Program(env, op, c)|])
  }

  /** The new transaction is the caller's, to whom and for how long it was asked for. */
  lemma CreateDoes(env: Env, id: string, op: Op)
    requires op.Create? && OpOk(op, id) && Refusal(env, op, NoCore).None?
    ensures var c', r := Whole(env, op, NoCore), op.request;
            && c'.tx.Some? && c'.folder.Some? && c'.folder.value.tree == EmptyTree
            && var tx := c'.tx.value;
            && tx.id == id && tx.sender == op.caller.name && tx.targetUser == r.targetUser && tx.comment == r.comment
            && tx.targetServer == (if r.targetServer == env.localServer then "" else r.targetServer)
            && tx.originServer == "" && tx.state == Open && tx.files == []
            && tx.createdAt == op.now && tx.committedAt == None && tx.deliveredAt == None
            && tx.expiresAt == op.now + (if r.days == 0 then env.defaultDays else r.days) * 86400
  {
    hide EncodeMeta, Run, Refusal;
    TwoSteps(NoCore, Program(env, op, NoCore), 2);
  }

  /** A pushed transaction is from whom, to whom and of when the peer says, and the peer's. */
  lemma ReceiveDoes(env: Env, id: string, op: Op)
    requires op.Receive? && OpOk(op, id) && Refusal(env, op, NoCore).None?
    ensures var c', r := Whole(env, op, NoCore), op.push;
            && c'.tx.Some? && c'.folder.Some? && c'.folder.value.tree == EmptyTree
            && var tx := c'.tx.value;
            && tx.id == id && tx.sender == r.sender && tx.targetUser == r.targetUser && tx.comment == r.comment
            && tx.targetServer == "" && tx.originServer == op.caller.name && tx.state == Open && tx.files == []
            && tx.createdAt == r.createdAt && tx.committedAt == None && tx.deliveredAt == None
            && tx.expiresAt == r.expiresAt
  {
    hide EncodeMeta, Run, Refusal;
    OneStep(NoCore, Program(env, op, NoCore));
  }

  /** The file is listed with its size and digest and stored with its bytes; every other entry
      and every other file stays. */
  lemma FinishDoes(env: Env, id: string, op: Op, c: Core)
    requires Good(env, id, c) && op.Finish? && OpOk(op, id) && Refusal(env, op, c).None? && c.tx.Some?
    ensures var c' := Whole(env, op, c);
            && c.folder.Some? && c'.tx.Some? && c'.folder.Some?
            && c'.tx.value == c.tx.value.(files := c'.tx.value.files)
            && (forall e :: e in c'.tx.value.files <==>
                  if e.path == op.path then e == FileEntry(op.path, |op.data|, env.hash(op.data))
                  else e in c.tx.value.files)
            && c'.folder.value.tree.files == c.folder.value.tree.files[op.path := op.data]
  {
    hide Good, EncodeMeta, EncodeManifest, Run, Refusal, Upsert, Clash;
    GoodParts(env, id, c);
    assert Sorted(c.tx.value.files);
    FinishProgram(env, op, c);
    FourSteps(c, Program(env, op, c), 4);
    UpsertMembers(c.tx.value.files, NewEntry(env, op.path, op.data));
  }

  /** The file is neither listed nor stored any more; every other one stays. */
  lemma RemoveDoes(env: Env, id: string, op: Op, c: Core)
    requires Good(env, id, c) && op.RemoveFile? && Refusal(env, op, c).None? && c.tx.Some?
    ensures var c' := Whole(env, op, c);
            && c.folder.Some? && c'.tx.Some? && c'.folder.Some?
            && c'.tx.value == c.tx.value.(files := c'.tx.value.files)
            && (forall e :: e in c'.tx.value.files <==> e in c.tx.value.files && e.path != op.path)
            && c'.folder.value.tree.files == c.folder.value.tree.files - {op.path}
  {
    hide Good, EncodeMeta, EncodeManifest, Run, Refusal, Erase, Unlink, FindLinear;
    GoodParts(env, id, c);
    assert Sorted(c.tx.value.files);
    RemoveProgram(env, op, c);
    ThreeSteps(c, Program(env, op, c), 3);
    EraseMembers(c.tx.value.files, op.path);
    UnlinkShaped(c.folder.value.tree, op.path, op.prunes);
  }

  /** Commit, delivery and retention change the state, its time or the expiry, and nothing else
      of the record; a destroy leaves nothing. */
  lemma OthersDo(env: Env, id: string, op: Op, c: Core)
    requires Good(env, id, c) && Refusal(env, op, c).None? && c.tx.Some?
    requires op.Commit? || op.MarkDelivered? || op.SetRetention? || op.Destroy?
    ensures var c', tx := Whole(env, op, c), c.tx.value;
            && (op.Commit? ==> c'.tx == Some(tx.(state := Committed, committedAt := Some(op.now))))
            && (op.MarkDelivered? ==> c'.tx == Some(tx.(state := Delivered, deliveredAt := Some(op.now))))
            && (op.SetRetention? ==> c'.tx == Some(tx.(expiresAt := tx.createdAt + op.days * 86400)))
            && (op.Destroy? ==> c'.tx.None? && c'.folder.None?)
  {
    hide Good, EncodeMeta, EncodeManifest, Run, Refusal, TotalBytes, Program, Matches;
    GoodParts(env, id, c);
    GoesOn(env, op, c);
    var p := Program(env, op, c);
    if op.Commit? {
      CommitProgram(env, op, c);
      ThreeSteps(c, p, 3);
    } else if op.Destroy? {
      DestroyProgram(env, op, c);
      if |p| == 2 { TwoSteps(c, p, 2); } else { ThreeSteps(c, p, 3); }
    } else {
      DeliverProgram(env, op, c);
      TwoSteps(c, p, 2);
    }
  }

  lemma GoesOn(env: Env, op: Op, c: Core)
    requires Refusal(env, op, c).None? && (op.Commit? || op.MarkDelivered? || op.SetRetention? || op.Destroy?)
    ensures Program(env, op, c) != []
  {
    hide TotalBytes, HashCheck;
  }
}
