/** What the server holds about one transaction id, and what each service
    operation does to it, step by step.

    An operation reads the record, decides, and then performs a short program of
    micro steps: single disk calls that either happen or fail, and log records.
    A failed call ends the operation, so a fault leaves a prefix of the program
    done (src/lib/transaction/service.cpp, repository.cpp). */
module Core {
  import opened Basics
  import opened FileList
  import opened Transactions
  import opened Paths
  import opened StorageTree
  import opened MetaCodec
  import Time

  /** One transactions/<id>/ folder. */
  datatype Folder = Folder(meta: Json, manifest: Option<Json>, tree: Tree)

  /** The index entry of one id and its folder on disk. */
  datatype Core = Core(tx: Option<Transaction>, folder: Option<Folder>)

  const NoCore := Core(None, None)

  /** Business log events about one id, with the fields a reader of the log
      could rebuild the transaction from. */
  datatype Event =
    | TxCreated
    | FileAdded(entry: FileEntry)
    | FileRemoved(path: string)
    | CommittedEv(count: nat, bytes: nat)
    | ReceivedEv(count: nat, bytes: nat)
    | Forwarded(count: nat, bytes: nat)
    | ExpiredEv
    | AdminDeleted
    | RetentionChanged(days: int)

  datatype Micro =
    | MkDirs(path: string)
    | Publish(path: string, data: Bytes)      // rename of the staged upload
    | DropPayload(path: string, prunes: nat)
    | SaveManifest(files: seq<FileEntry>)
    | SaveMeta(tx: Transaction)
    | Insert(tx: Transaction)
    | RemoveAll
    | Record(event: Event)

  /** Everything outside the module: the digest function, the configuration and
      the answers of other components. */
  datatype Env = Env(
    hash: Bytes -> Digest,
    localServer: string,
    defaultDays: int,
    maxDays: int,
    maxComment: nat,
    destination: (string, string) -> Option<ErrCode>)

  datatype CreateRequest = CreateRequest(targetUser: string, targetServer: string, days: int, comment: string)

  datatype ReceiveRequest = ReceiveRequest(
    sender: string, targetUser: string, createdAt: int, expiresAt: int, comment: string)

  datatype Op =
    | Create(caller: Caller, id: string, request: CreateRequest, now: int)
    | Receive(caller: Caller, id: string, push: ReceiveRequest)
    | Begin(caller: Caller)
    | Finish(path: string, data: Bytes, expected: Option<Digest>)
    | RemoveFile(caller: Caller, path: string, prunes: nat)
    | Commit(caller: Caller, now: int)
    | MarkDelivered(now: int)
    | Destroy(byAdmin: bool)
    | SetRetention(caller: Caller, days: int)

  // --- Micro steps ----------------------------------------------------------

  function Do(c: Core, m: Micro): Core {
    match m
    case Insert(tx) =>
      if c.tx.None? && c.folder.None? then Core(Some(tx), Some(Folder(EncodeMeta(tx), None, EmptyTree))) else c
    case RemoveAll => NoCore
    case Record(_) => c
    case SaveMeta(tx) =>
      if c.tx.Some? && c.folder.Some? then Core(Some(tx), Some(c.folder.value.(meta := EncodeMeta(tx)))) else c
    case _ =>
      if c.folder.None? then c
      else
        var f := c.folder.value;
        match m
        case MkDirs(p) => c.(folder := Some(f.(tree := MakeDirs(f.tree, p))))
        case Publish(p, data) => c.(folder := Some(f.(tree := Rename(f.tree, p, data))))
        case DropPayload(p, n) => c.(folder := Some(f.(tree := Unlink(f.tree, p, n))))
        case SaveManifest(files) =>
          c.(folder := Some(f.(manifest := Some(EncodeManifest(if c.tx.Some? then c.tx.value.id else "", files)))))
        case _ => c
  }

  function Run(c: Core, ms: seq<Micro>): Core {
    if ms == [] then c else Do(Run(c, ms[..|ms| - 1]), ms[|ms| - 1])
  }

  // --- What an operation is refused with, if it is --------------------------

  /** check_comment (transaction.cpp:24-43): no control characters, at most
      `max` bytes that are not UTF-8 continuation bytes. */
  function CodePoints(comment: string): nat {
    if comment == "" then 0
    else CodePoints(comment[..|comment| - 1]) + (if 0x80 <= comment[|comment| - 1] as int < 0xC0 then 0 else 1)
  }

  predicate CommentOk(comment: string, max: nat) {
    (forall i :: 0 <= i < |comment| ==> ' ' <= comment[i] && comment[i] != '\U{7f}')
    && CodePoints(comment) <= max
  }

  function EffectiveDays(env: Env, days: int): int {
    if days == 0 then env.defaultDays else days
  }

  function DestinationServer(env: Env, server: string): string {
    if server == env.localServer then "" else server
  }

  predicate EntryMatches(env: Env, e: FileEntry, t: Tree) {
    e.path in t.files && |t.files[e.path]| == e.size && env.hash(t.files[e.path]) == e.sha256
  }

  /** The re-hash of commit (service.cpp:242-248): the first entry that is not
      on disk, or whose bytes changed, decides. */
  function HashCheck(env: Env, files: seq<FileEntry>, t: Tree): Option<ErrCode> {
    if files == [] then None
    else if files[0].path !in t.files then Some(NotFound)
    else if !EntryMatches(env, files[0], t) then Some(Integrity)
    else HashCheck(env, files[1..], t)
  }

  function Refusal(env: Env, op: Op, c: Core): Option<ErrCode> {
    match op
    case Create(caller, _, req, now) =>
      if caller.isPeer then Some(Forbidden)
      else if req.targetUser == "" || req.days < 0 || req.days > env.maxDays then Some(Validation)
      else if !CommentOk(req.comment, env.maxComment) then Some(Validation)
      else if env.destination(req.targetUser, DestinationServer(env, req.targetServer)).Some? then
        env.destination(req.targetUser, DestinationServer(env, req.targetServer))
      else if Time.ExpiresAt(now, EffectiveDays(env, req.days)).Err? then Some(Validation)
      else if c.tx.Some? then Some(Conflict) else None
    case Receive(caller, _, p) =>
      if !caller.isPeer then Some(Forbidden)
      else if p.sender == "" || p.targetUser == "" || p.expiresAt <= p.createdAt then Some(Validation)
      else if !CommentOk(p.comment, env.maxComment) then Some(Validation)
      else if env.destination(p.targetUser, "").Some? then env.destination(p.targetUser, "")
      else if c.tx.Some? then Some(Conflict) else None
    case SetRetention(caller, days) =>
      if !caller.isAdmin then Some(Forbidden)
      else if days < 1 || days > env.maxDays then Some(Validation)
      else if c.tx.None? then Some(NotFound)
      else if c.tx.value.state == Expired then Some(Gone)
      else if Time.ExpiresAt(c.tx.value.createdAt, days).Err? then Some(Validation) else None
    case _ =>
      if c.tx.None? || c.folder.None? then Some(NotFound)
      else RefusalOf(env, op, c.tx.value, c.folder.value.tree)
  }

  function RefusalOf(env: Env, op: Op, tx: Transaction, t: Tree): Option<ErrCode> {
    match op
    case Begin(caller) => if !MayWrite(caller, tx) then Some(Forbidden) else RequireMutable(tx.state)
    case Finish(path, data, expected) =>
      if RequireMutable(tx.state).Some? then RequireMutable(tx.state)
      else if expected.Some? && expected.value != env.hash(data) then Some(Integrity)
      else if Clash(t, path) then Some(Conflict) else None
    case RemoveFile(caller, path, _) =>
      if !MayWrite(caller, tx) then Some(Forbidden)
      else if RequireMutable(tx.state).Some? then RequireMutable(tx.state)
      else if FindLinear(tx.files, path) == |tx.files| || path !in t.files then Some(NotFound) else None
    case Commit(caller, _) =>
      if !MayWrite(caller, tx) then Some(Forbidden)
      else if CheckTransition(tx.state, Committed).Some? then CheckTransition(tx.state, Committed)
      else HashCheck(env, tx.files, t)
    case MarkDelivered(_) => CheckTransition(tx.state, Delivered)
    case _ => None
  }

  // --- Programs --------------------------------------------------------------

  function NewEntry(env: Env, path: string, data: Bytes): FileEntry {
    FileEntry(path, |data|, env.hash(data))
  }

  function CreatedTx(env: Env, caller: Caller, id: string, req: CreateRequest, now: int): Transaction {
    Transaction(id, caller.name, req.targetUser, DestinationServer(env, req.targetServer), "", req.comment, Open,
                now, now + EffectiveDays(env, req.days) * Time.DAY, None, None, [])
  }

  function ReceivedTx(caller: Caller, id: string, p: ReceiveRequest): Transaction {
    Transaction(id, p.sender, p.targetUser, "", caller.name, p.comment, Open, p.createdAt, p.expiresAt, None, None, [])
  }

  /** The micro steps of an operation that is not refused, in order. */
  function Program(env: Env, op: Op, c: Core): seq<Micro> {
    if Refusal(env, op, c).Some? then []
    else
      match op
      case Create(caller, id, req, now) => [Insert(CreatedTx(env, caller, id, req, now)), Record(TxCreated)]
      case Receive(caller, id, p) => [Insert(ReceivedTx(caller, id, p))]
      case SetRetention(_, days) =>
        var tx := c.tx.value;
        [SaveMeta(tx.(expiresAt := tx.createdAt + days * Time.DAY)), Record(RetentionChanged(days))]
      case _ => ProgramOf(env, op, c.tx.value)
  }

  function ProgramOf(env: Env, op: Op, tx: Transaction): seq<Micro> {
    match op
    case Finish(path, data, _) =>
      var e := NewEntry(env, path, data);
      [MkDirs(path), Publish(path, data), SaveMeta(tx.(files := Upsert(tx.files, e))), Record(FileAdded(e))]
    case RemoveFile(_, path, prunes) =>
      [DropPayload(path, prunes), SaveMeta(tx.(files := Erase(tx.files, path))), Record(FileRemoved(path))]
    case Commit(caller, now) =>
      var n, bytes := |tx.files|, TotalBytes(tx.files);
      [SaveManifest(tx.files), SaveMeta(tx.(state := Committed, committedAt := Some(now))),
       Record(if IsOriginPeer(caller, tx) then ReceivedEv(n, bytes) else CommittedEv(n, bytes))]
    case MarkDelivered(now) =>
      [SaveMeta(tx.(state := Delivered, deliveredAt := Some(now))),
       Record(Forwarded(|tx.files|, TotalBytes(tx.files)))]
    case Destroy(byAdmin) =>
      (if tx.state == Expired then [] else [SaveMeta(tx.(state := Expired))])
      + [RemoveAll, Record(if byAdmin then AdminDeleted else ExpiredEv)]
    case _ => []
  }

  // --- What holds of every stored transaction --------------------------------

  ghost predicate Matches(env: Env, files: seq<FileEntry>, t: Tree) {
    forall e :: e in files ==> EntryMatches(env, e, t)
  }

  /** The index and the disk agree: the folder exists exactly when the id is
      known, and its meta.json is the encoding of the index entry. */
  ghost predicate IndexIsDisk(c: Core) {
    (c.tx.Some? <==> c.folder.Some?) && (c.tx.Some? ==> c.folder.value.meta == EncodeMeta(c.tx.value))
  }

  predicate Sealed(tx: Transaction) {
    tx.state == Committed || tx.state == Delivered
  }

  /** A committed or delivered transaction: its entries match the stored bytes in
      size and digest, its manifest lists exactly them. */
  ghost predicate Intact(env: Env, c: Core) {
    c.tx.Some? && c.folder.Some? && Sealed(c.tx.value) ==>
      && Matches(env, c.tx.value.files, c.folder.value.tree)
      && c.folder.value.manifest == Some(EncodeManifest(c.tx.value.id, c.tx.value.files))
      && c.tx.value.committedAt.Some?
  }

  ghost predicate Good(env: Env, id: string, c: Core) {
    && IndexIsDisk(c)
    && (c.tx.Some? ==> c.tx.value.id == id && FieldsOk(c.tx.value) && Shaped(c.folder.value.tree))
    && Intact(env, c)
  }

  /** What the C++ types already guarantee of an operation's arguments: a
      validated id and path, sizes below 2^64, and callers that carry a name. */
  predicate OpOk(op: Op, id: string) {
    match op
    case Create(caller, i, _, _) => i == id && ValidId(id) && caller.name != ""
    case Receive(_, i, _) => i == id && ValidId(id)
    case Finish(path, data, _) => ValidPath(path) && |data| < UINT64
    case _ => true
  }

  // --- Facts about programs --------------------------------------------------

  lemma {:induction false} HashCheckMatches(env: Env, files: seq<FileEntry>, t: Tree)
    ensures HashCheck(env, files, t).None? <==> Matches(env, files, t)
  {
    if files != [] {
      HashCheckMatches(env, files[1..], t);
      assert files == [files[0]] + files[1..];
      assert files[0] in files;
      assert forall e :: e in files[1..] ==> e in files;
    }
  }

  lemma UpsertFieldsOk(env: Env, tx: Transaction, path: string, data: Bytes)
    requires FieldsOk(tx) && ValidPath(path) && |data| < UINT64
    ensures FieldsOk(tx.(files := Upsert(tx.files, NewEntry(env, path, data))))
  {
    var e := NewEntry(env, path, data);
    assert EntryOk(e);
    hide EntryOk;
    UpsertMembers(tx.files, e);
    var r := Upsert(tx.files, e);
    forall i | 0 <= i < |r| ensures EntryOk(r[i]) {
      assert r[i] in r;
    }
  }

  lemma EraseFieldsOk(tx: Transaction, path: string)
    requires FieldsOk(tx)
    ensures FieldsOk(tx.(files := Erase(tx.files, path)))
  {
    hide EntryOk;
    EraseMembers(tx.files, path);
    var r := Erase(tx.files, path);
    forall i | 0 <= i < |r| ensures EntryOk(r[i]) {
      assert r[i] in r;
    }
  }

  lemma RunStep(c: Core, ms: seq<Micro>, k: nat)
    requires k < |ms|
    ensures Run(c, ms[..k + 1]) == Do(Run(c, ms[..k]), ms[k])
  {
    assert ms[..k + 1][..k] == ms[..k];
  }

  /** Rewriting meta.json keeps everything, provided a record that becomes
      sealed is backed by the disk. */
  lemma SaveGood(env: Env, id: string, c: Core, tx: Transaction)
    requires Good(env, id, c) && c.tx.Some? && tx.id == id && FieldsOk(tx)
    requires Sealed(tx) ==> Intact(env, Core(Some(tx), c.folder))
    ensures Good(env, id, Do(c, SaveMeta(tx)))
    ensures Do(c, SaveMeta(tx)).tx == Some(tx)
    ensures Do(c, SaveMeta(tx)).folder == Some(c.folder.value.(meta := EncodeMeta(tx)))
  {
    hide EncodeMeta, EncodeManifest, FieldsOk, Shaped;
  }

  function TreeAfter(t: Tree, m: Micro): Tree {
    match m
    case MkDirs(p) => MakeDirs(t, p)
    case Publish(p, data) => Rename(t, p, data)
    case DropPayload(p, n) => Unlink(t, p, n)
    case _ => t
  }

  predicate IsDiskStep(m: Micro) {
    m.MkDirs? || m.Publish? || m.DropPayload? || m.SaveManifest?
  }

  /** Payload and manifest changes keep everything while the record is open. */
  lemma OpenDiskGood(env: Env, id: string, c: Core, m: Micro)
    requires Good(env, id, c) && c.tx.Some? && c.tx.value.state == Open
    requires IsDiskStep(m) && Shaped(TreeAfter(c.folder.value.tree, m))
    ensures Good(env, id, Do(c, m)) && Do(c, m).tx == c.tx
    ensures Do(c, m).folder.Some? && Do(c, m).folder.value.tree == TreeAfter(c.folder.value.tree, m)
    ensures m.SaveManifest? ==> Do(c, m).folder.value.manifest == Some(EncodeManifest(id, m.files))
  {
    hide EncodeMeta, EncodeManifest, FieldsOk, Shaped, MakeDirs, Rename, Unlink;
  }

  lemma GoodParts(env: Env, id: string, c: Core)
    requires Good(env, id, c) && c.tx.Some?
    ensures c.folder.Some? && c.tx.value.id == id && FieldsOk(c.tx.value) && Shaped(c.folder.value.tree)
    ensures Sealed(c.tx.value) ==> Intact(env, c)
  {}

  // --- Every prefix of every program is good ----------------------------------

  lemma FinishProgram(env: Env, op: Op, c: Core)
    requires op.Finish? && Program(env, op, c) != []
    ensures c.tx.Some? && c.folder.Some? && c.tx.value.state == Open && !Clash(c.folder.value.tree, op.path)
    ensures var e := NewEntry(env, op.path, op.data);
            Program(env, op, c) == [MkDirs(op.path), Publish(op.path, op.data),
                                    SaveMeta(c.tx.value.(files := Upsert(c.tx.value.files, e))), Record(FileAdded(e))]
    ensures op.expected.Some? ==> op.expected.value == env.hash(op.data)
  {
    hide Clash, Upsert;
  }

  lemma FinishPrefix(env: Env, id: string, op: Op, c: Core, k: nat)
    requires Good(env, id, c) && OpOk(op, id) && op.Finish? && k <= |Program(env, op, c)|
    ensures Good(env, id, Run(c, Program(env, op, c)[..k]))
  {
    hide Program, Good, Do, Run, EncodeMeta, FieldsOk, Shaped, MakeDirs, Rename, Upsert, ValidPath, ParentIsFile;
    var p := Program(env, op, c);
    if k > 0 {
      FinishProgram(env, op, c);
      GoodParts(env, id, c);
      var tx, t := c.tx.value, c.folder.value.tree;
      StoreShaped(t, op.path, op.data);
      UpsertFieldsOk(env, tx, op.path, op.data);
      OpenDiskGood(env, id, c, p[0]);
      OpenDiskGood(env, id, Do(c, p[0]), p[1]);
      SaveGood(env, id, Do(Do(c, p[0]), p[1]), p[2].tx);
      FourSteps(c, p, k);
      RecordKeeps(Do(Do(Do(c, p[0]), p[1]), p[2]), p[3]);
    } else {
      NoSteps(c, p);
    }
  }

  lemma RecordKeeps(c: Core, m: Micro)
    requires m.Record?
    ensures Do(c, m) == c
  {}

  lemma FourSteps(c: Core, p: seq<Micro>, k: nat)
    requires |p| == 4 && 0 < k <= 4
    ensures Run(c, p[..k]) == match k
                              case 1 => Do(c, p[0])
                              case 2 => Do(Do(c, p[0]), p[1])
                              case 3 => Do(Do(Do(c, p[0]), p[1]), p[2])
                              case _ => Do(Do(Do(Do(c, p[0]), p[1]), p[2]), p[3])
  {
    hide Do;
    RunStep(c, p, 0);
    RunStep(c, p, 1);
    RunStep(c, p, 2);
    RunStep(c, p, 3);
  }

  lemma ThreeSteps(c: Core, p: seq<Micro>, k: nat)
    requires |p| == 3 && 0 < k <= 3
    ensures Run(c, p[..k]) == match k
                              case 1 => Do(c, p[0])
                              case 2 => Do(Do(c, p[0]), p[1])
                              case _ => Do(Do(Do(c, p[0]), p[1]), p[2])
  {
    hide Do;
    RunStep(c, p, 0);
    RunStep(c, p, 1);
    RunStep(c, p, 2);
  }

  lemma TwoSteps(c: Core, p: seq<Micro>, k: nat)
    requires |p| == 2 && 0 < k <= 2
    ensures Run(c, p[..k]) == if k == 1 then Do(c, p[0]) else Do(Do(c, p[0]), p[1])
  {
    hide Do;
    RunStep(c, p, 0);
    RunStep(c, p, 1);
  }

  lemma RemoveProgram(env: Env, op: Op, c: Core)
    requires op.RemoveFile? && Program(env, op, c) != []
    ensures c.tx.Some? && c.folder.Some? && c.tx.value.state == Open && MayWrite(op.caller, c.tx.value)
    ensures Program(env, op, c) == [DropPayload(op.path, op.prunes),
                                    SaveMeta(c.tx.value.(files := Erase(c.tx.value.files, op.path))),
                                    Record(FileRemoved(op.path))]
  {
    hide Erase, FindLinear;
  }

  lemma RemovePrefix(env: Env, id: string, op: Op, c: Core, k: nat)
    requires Good(env, id, c) && op.RemoveFile? && k <= |Program(env, op, c)|
    ensures Good(env, id, Run(c, Program(env, op, c)[..k]))
  {
    hide Program, Good, Do, Run, EncodeMeta, FieldsOk, Shaped, Unlink, Erase;
    var p := Program(env, op, c);
    if k > 0 {
      RemoveProgram(env, op, c);
      GoodParts(env, id, c);
      UnlinkShaped(c.folder.value.tree, op.path, op.prunes);
      EraseFieldsOk(c.tx.value, op.path);
      OpenDiskGood(env, id, c, p[0]);
      SaveGood(env, id, Do(c, p[0]), p[1].tx);
      ThreeSteps(c, p, k);
      RecordKeeps(Do(Do(c, p[0]), p[1]), p[2]);
    } else {
      NoSteps(c, p);
    }
  }

  lemma CommitProgram(env: Env, op: Op, c: Core)
    requires op.Commit? && Program(env, op, c) != []
    ensures c.tx.Some? && c.folder.Some? && c.tx.value.state == Open && MayWrite(op.caller, c.tx.value)
    ensures Matches(env, c.tx.value.files, c.folder.value.tree)
    ensures var tx, p := c.tx.value, Program(env, op, c);
            |p| == 3 && p[0] == SaveManifest(tx.files)
            && p[1] == SaveMeta(tx.(state := Committed, committedAt := Some(op.now))) && p[2].Record?
            && (p[2].event.CommittedEv? || p[2].event.ReceivedEv?)
  {
    HashCheckMatches(env, c.tx.value.files, c.folder.value.tree);
    hide HashCheck, Matches, TotalBytes;
  }

  lemma CommitPrefix(env: Env, id: string, op: Op, c: Core, k: nat)
    requires Good(env, id, c) && op.Commit? && k <= |Program(env, op, c)|
    ensures Good(env, id, Run(c, Program(env, op, c)[..k]))
  {
    var p := Program(env, op, c);
    if k > 0 {
      CommitProgram(env, op, c);
      GoodParts(env, id, c);
      var c1 := Do(c, p[0]);
      assert FieldsOk(p[1].tx);
      hide Program, Good, Do, Run, EncodeMeta, FieldsOk, Shaped, Matches;
      OpenDiskGood(env, id, c, p[0]);
      SaveGood(env, id, c1, p[1].tx);
      ThreeSteps(c, p, k);
      RecordKeeps(Do(c1, p[1]), p[2]);
    }
  }

  lemma DeliverProgram(env: Env, op: Op, c: Core)
    requires (op.MarkDelivered? || op.SetRetention?) && Program(env, op, c) != []
    ensures c.tx.Some?
    ensures var tx, p := c.tx.value, Program(env, op, c);
            |p| == 2 && p[1].Record? && p[0].SaveMeta?
            && (op.MarkDelivered? ==> tx.state == Committed && p[1].event.Forwarded?
                                      && p[0].tx == tx.(state := Delivered, deliveredAt := Some(op.now)))
            && (op.SetRetention? ==> tx.state != Expired && p[1].event.RetentionChanged?
                                     && p[0].tx == tx.(expiresAt := tx.createdAt + op.days * Time.DAY))
  {
    hide TotalBytes;
  }

  lemma DeliverPrefix(env: Env, id: string, op: Op, c: Core, k: nat)
    requires Good(env, id, c) && (op.MarkDelivered? || op.SetRetention?) && k <= |Program(env, op, c)|
    ensures Good(env, id, Run(c, Program(env, op, c)[..k]))
  {
    var p := Program(env, op, c);
    if k > 0 {
      DeliverProgram(env, op, c);
      GoodParts(env, id, c);
      assert FieldsOk(p[0].tx);
      hide Program, Good, Do, Run, EncodeMeta, FieldsOk, Shaped, Matches;
      SaveGood(env, id, c, p[0].tx);
      TwoSteps(c, p, k);
      RecordKeeps(Do(c, p[0]), p[1]);
    }
  }

  lemma DestroyProgram(env: Env, op: Op, c: Core)
    requires op.Destroy? && Program(env, op, c) != []
    ensures c.tx.Some?
    ensures var tx, p := c.tx.value, Program(env, op, c);
            var n := |p|;
            && (tx.state == Expired ==> n == 2)
            && (tx.state != Expired ==> n == 3 && p[0] == SaveMeta(tx.(state := Expired)))
            && p[n - 2] == RemoveAll && p[n - 1].Record? && (p[n - 1].event.ExpiredEv? || p[n - 1].event.AdminDeleted?)
  {}

  lemma DestroyPrefix(env: Env, id: string, op: Op, c: Core, k: nat)
    requires Good(env, id, c) && op.Destroy? && k <= |Program(env, op, c)|
    ensures Good(env, id, Run(c, Program(env, op, c)[..k]))
  {
    hide Program, Good, Run, EncodeMeta, Shaped, FilesOk, ValidId;
    var p := Program(env, op, c);
    if k > 0 {
      DestroyProgram(env, op, c);
      GoodParts(env, id, c);
      NoCoreGood(env, id);
      if c.tx.value.state == Expired {
        TwoSteps(c, p, k);
      } else {
        assert FieldsOk(p[0].tx);
        SaveGood(env, id, c, p[0].tx);
        ThreeSteps(c, p, k);
      }
    } else {
      NoSteps(c, p);
    }
  }

  lemma NothingStored(env: Env, id: string, c: Core)
    requires Good(env, id, c) && c.tx.None?
    ensures c == NoCore
  {}

  lemma NoCoreGood(env: Env, id: string)
    ensures Good(env, id, NoCore)
  {}

  lemma InsertProgram(env: Env, op: Op, c: Core)
    requires (op.Create? || op.Receive?) && Program(env, op, c) != []
    ensures c.tx.None?
    ensures var p := Program(env, op, c);
            && p[0] == Insert(if op.Create? then CreatedTx(env, op.caller, op.id, op.request, op.now)
                              else ReceivedTx(op.caller, op.id, op.push))
            && (op.Create? ==> |p| == 2 && p[1] == Record(TxCreated) && op.request.targetUser != "")
            && (op.Receive? ==> |p| == 1 && op.caller.isPeer && op.push.sender != "" && op.push.targetUser != "")
  {
    hide CommentOk, CreatedTx, ReceivedTx, Time.ExpiresAt;
  }

  lemma InsertGood(env: Env, id: string, c: Core, tx: Transaction)
    requires Good(env, id, c) && c.tx.None? && tx.id == id && FieldsOk(tx) && tx.state == Open
    ensures Good(env, id, Do(c, Insert(tx))) && Do(c, Insert(tx)).tx == Some(tx)
  {
    hide EncodeMeta, FieldsOk;
    assert Shaped(EmptyTree);
  }

  lemma InsertPrefix(env: Env, id: string, op: Op, c: Core, k: nat)
    requires Good(env, id, c) && OpOk(op, id) && (op.Create? || op.Receive?) && k <= |Program(env, op, c)|
    ensures Good(env, id, Run(c, Program(env, op, c)[..k]))
  {
    hide Program, Good, Do, Run, FieldsOk, ValidId, CreatedTx, ReceivedTx;
    var p := Program(env, op, c);
    if k > 0 {
      InsertProgram(env, op, c);
      NewTxOk(env, id, op);
      InsertGood(env, id, c, p[0].tx);
      OneStep(c, p);
      if k == 2 {
        TwoSteps(c, p, 2);
        RecordKeeps(Do(c, p[0]), p[1]);
      }
    } else {
      NoSteps(c, p);
    }
  }

  lemma NewTxOk(env: Env, id: string, op: Op)
    requires OpOk(op, id)
    ensures op.Create? && op.request.targetUser != "" ==>
              var tx := CreatedTx(env, op.caller, op.id, op.request, op.now);
              tx.id == id && FieldsOk(tx) && tx.state == Open
    ensures op.Receive? && op.push.sender != "" && op.push.targetUser != "" ==>
              var tx := ReceivedTx(op.caller, op.id, op.push); tx.id == id && FieldsOk(tx) && tx.state == Open
  {}

  lemma NoSteps(c: Core, p: seq<Micro>)
    ensures Run(c, p[..0]) == c
  {}

  lemma OneStep(c: Core, p: seq<Micro>)
    requires |p| >= 1
    ensures Run(c, p[..1]) == Do(c, p[0])
  {
    RunStep(c, p, 0);
  }

  /** Whatever operation runs, and whichever of its disk calls fails, the index
      still equals the disk, the stored record is well formed, and a committed or
      delivered transaction still matches its bytes and its manifest. */
  lemma EveryPrefixIsGood(env: Env, id: string, op: Op, c: Core, k: nat)
    requires Good(env, id, c) && OpOk(op, id) && k <= |Program(env, op, c)|
    ensures Good(env, id, Run(c, Program(env, op, c)[..k]))
  {
    hide Good, Run;
    match op
    case Create(_, _, _, _) => InsertPrefix(env, id, op, c, k);
    case Receive(_, _, _) => InsertPrefix(env, id, op, c, k);
    case Begin(_) => BeginPrefix(env, id, op, c, k);
    case Finish(_, _, _) => FinishPrefix(env, id, op, c, k);
    case RemoveFile(_, _, _) => RemovePrefix(env, id, op, c, k);
    case Commit(_, _) => CommitPrefix(env, id, op, c, k);
    case MarkDelivered(_) => DeliverPrefix(env, id, op, c, k);
    case Destroy(_) => DestroyPrefix(env, id, op, c, k);
    case SetRetention(_, _) => DeliverPrefix(env, id, op, c, k);
  }

  lemma BeginPrefix(env: Env, id: string, op: Op, c: Core, k: nat)
    requires Good(env, id, c) && op.Begin? && k <= |Program(env, op, c)|
    ensures Good(env, id, Run(c, Program(env, op, c)[..k]))
  {}
}
