/** TransactionService over TransactionRepository and FileStore as one object
    with an in-memory index, a disk and a business log
    (src/lib/transaction/service.cpp, repository.cpp, src/lib/storage/).

    Every method is proved to perform exactly the program of its operation, up to
    the disk call that fails. `failAt` is the number of the first disk call of the
    method that fails; calls are counted in the order the code makes them. */
module Service {
  import opened Basics
  import opened FileList
  import opened Transactions
  import opened Paths
  import opened StorageTree
  import opened MetaCodec
  import opened Core
  import Sections
  import Time

  /** The log records among some micro steps. */
  function Records(id: string, ms: seq<Micro>): seq<(string, Event)> {
    if ms == [] then []
    else
      var front, last := Records(id, ms[..|ms| - 1]), ms[|ms| - 1];
      if last.Record? then front + [(id, last.event)] else front
  }

  lemma RecordsStep(id: string, ms: seq<Micro>, k: nat)
    requires k < |ms|
    ensures Records(id, ms[..k + 1]) == Records(id, ms[..k]) + (if ms[k].Record? then [(id, ms[k].event)] else [])
  {
    assert ms[..k + 1][..k] == ms[..k];
  }

  /** Programs record once, as their last step. */
  lemma {:induction false} RecordsOnce(id: string, ms: seq<Micro>, k: nat)
    requires k <= |ms| && forall i :: 0 <= i < |ms| - 1 ==> !ms[i].Record?
    ensures Records(id, ms[..k]) == if k == |ms| > 0 && ms[k - 1].Record? then [(id, ms[k - 1].event)] else []
    decreases k
  {
    if k > 0 {
      RecordsOnce(id, ms, k - 1);
      RecordsStep(id, ms, k - 1);
    }
  }

  /** How an operation ends after k of its micro steps: refused, failed in the
      middle, or done. A log record never fails. */
  predicate Ends<T>(env: Env, op: Op, c: Core, k: nat, r: Result<T>) {
    var no, p := Refusal(env, op, c), Program(env, op, c);
    && k <= |p|
    && (no.Some? ==> r == Err(no.value))
    && (no.None? && k == |p| ==> r.Ok?)
    && (k < |p| ==> r == Err(Io) && !p[k].Record?)
  }

  /** All of a server's state, as a value. */
  datatype Snapshot = Snapshot(index: map<string, Transaction>, disk: map<string, Folder>, log: seq<(string, Event)>)

  function At(st: Snapshot, id: string): Core {
    Core(if id in st.index then Some(st.index[id]) else None, if id in st.disk then Some(st.disk[id]) else None)
  }

  ghost predicate AllGood(env: Env, st: Snapshot) {
    forall id: string :: Good(env, id, At(st, id))
  }

  /** From `before` to `after`: the first k micro steps of op's program on id, the
      log records among them, and nothing else. */
  ghost predicate Performed(env: Env, op: Op, id: string, k: nat, before: Snapshot, after: Snapshot) {
    var c := At(before, id);
    var p := Program(env, op, c);
    && k <= |p|
    && At(after, id) == Run(c, p[..k])
    && OthersSame(id, before, after)
    && after.log == before.log + Records(id, p[..k])
  }

  ghost predicate OthersSame(id: string, before: Snapshot, after: Snapshot) {
    forall j: string :: j != id ==> At(after, j) == At(before, j)
  }

  /** Performing a prefix of a program keeps the whole store good. */
  lemma PerformedKeeps(env: Env, op: Op, id: string, k: nat, before: Snapshot, after: Snapshot)
    requires AllGood(env, before) && OpOk(op, id) && Performed(env, op, id, k, before, after)
    ensures AllGood(env, after)
  {
    hide Good, Run, Program, OpOk;
    EveryPrefixIsGood(env, id, op, At(before, id), k);
    forall j: string ensures Good(env, j, At(after, j)) {
      if j != id { assert At(after, j) == At(before, j); }
    }
  }

  lemma GoodAt(env: Env, st: Snapshot, id: string)
    requires AllGood(env, st)
    ensures Good(env, id, At(st, id))
  {}

  /** The first i entries match: what entry i decides. */
  lemma {:induction false} HashCheckAt(env: Env, files: seq<FileEntry>, t: Tree, i: nat)
    requires i < |files| && HashCheck(env, files[..i], t).None?
    ensures HashCheck(env, files[..i + 1], t) ==
            if files[i].path !in t.files then Some(NotFound)
            else if !EntryMatches(env, files[i], t) then Some(Integrity) else None
    ensures files[i].path !in t.files || !EntryMatches(env, files[i], t) ==>
              HashCheck(env, files, t) == HashCheck(env, files[..i + 1], t)
  {
    hide EntryMatches;
    assert files[..i + 1][0] == files[0];
    if i > 0 {
      assert files[..i][1..] == files[1..][..i - 1] && files[..i + 1][1..] == files[1..][..i];
      HashCheckAt(env, files[1..], t, i - 1);
    } else {
      assert files[..1][1..] == [];
    }
  }

  /** A mismatch among the first entries is found however many follow. */
  lemma {:induction false} HashCheckFront(env: Env, files: seq<FileEntry>, t: Tree, i: nat, n: nat)
    requires i <= |files| && n <= |files|
    ensures HashCheck(env, files[..i], t).Some? && i <= n ==> HashCheck(env, files[..n], t).Some?
  {
    hide EntryMatches;
    if i > 0 && i <= n {
      assert files[..i][0] == files[0] && files[..n][0] == files[0];
      assert files[..i][1..] == files[1..][..i - 1] && files[..n][1..] == files[1..][..n - 1];
      HashCheckFront(env, files[1..], t, i - 1, n - 1);
    }
  }

  lemma UnknownRefused(env: Env, op: Op, c: Core)
    requires op.Finish? && c.tx.None?
    ensures Refusal(env, op, c) == Some(NotFound)
  {}

  lemma RefusedDoesNothing(env: Env, op: Op, c: Core)
    requires Refusal(env, op, c).Some?
    ensures Program(env, op, c) == []
  {}

  /** What a finish is refused for, in order. */
  lemma FinishRefusal(env: Env, op: Op, c: Core)
    requires op.Finish? && c.tx.Some? && c.folder.Some?
    ensures var state, t := c.tx.value.state, c.folder.value.tree;
            Refusal(env, op, c) ==
            if RequireMutable(state).Some? then RequireMutable(state)
            else if op.expected.Some? && op.expected.value != env.hash(op.data) then Some(Integrity)
            else if Clash(t, op.path) then Some(Conflict) else None
  {
    hide Clash;
  }

  /** A create is refused for what it asks, or else because the id is taken. */
  lemma CreateRefusal(env: Env, op: Op, c: Core)
    requires op.Create?
    ensures Refusal(env, op, c) ==
            if Refusal(env, op, NoCore).Some? then Refusal(env, op, NoCore)
            else if c.tx.Some? then Some(Conflict) else None
  {
    hide CommentOk, Time.ExpiresAt;
  }

  class Server {
    const env: Env
    var index: map<string, Transaction>
    var disk: map<string, Folder>
    var log: seq<(string, Event)>

    constructor (env: Env)
      ensures this.env == env && Now() == Snapshot(map[], map[], []) && Valid()
    {
      this.env := env;
      index, disk, log := map[], map[], [];
      new;
      forall id: string ensures Good(env, id, At(Now(), id)) {
        NoCoreGood(env, id);
      }
    }

    function Now(): Snapshot
      reads this
    {
      Snapshot(index, disk, log)
    }

    /** The index entry and the folder of one id. */
    function CoreOf(id: string): Core
      reads this
    {
      At(Now(), id)
    }

    ghost predicate Valid()
      reads this
    {
      AllGood(env, Now())
    }

    // --- Single disk calls ------------------------------------------------------

    /** TransactionRepository::save (repository.cpp:59-69). */
    method Save(tx: Transaction, ok: bool) returns (r: Result<()>)
      modifies this`index, this`disk
      ensures tx.id !in index ==> r == Err(NotFound)
      ensures r.Ok? ==> tx.id in index && index[tx.id] == tx
      ensures tx.id in old(index) && tx.id in old(disk) ==> r == if ok then Ok(()) else Err(Io)
      ensures CoreOf(tx.id) == if r.Ok? then Do(old(CoreOf(tx.id)), SaveMeta(tx)) else old(CoreOf(tx.id))
      ensures OthersSame(tx.id, old(Now()), Now())
      ensures index == if r.Ok? then old(index)[tx.id := tx] else old(index)
    {
      hide EncodeMeta;
      if tx.id !in index {
        return Err(NotFound);
      }
      if tx.id !in disk || !ok {
        return Err(if tx.id in disk then Io else NotFound);
      }
      disk := disk[tx.id := disk[tx.id].(meta := EncodeMeta(tx))];
      index := index[tx.id := tx];
      return Ok(());
    }

    /** TransactionRepository::insert (repository.cpp:42-57). */
    method Insert(tx: Transaction, ok: bool) returns (r: Result<()>)
      modifies this`index, this`disk
      ensures r == if tx.id in old(index) || tx.id in old(disk) then Err(Conflict) else if ok then Ok(()) else Err(Io)
      ensures CoreOf(tx.id) == if r.Ok? then Do(old(CoreOf(tx.id)), Micro.Insert(tx)) else old(CoreOf(tx.id))
      ensures OthersSame(tx.id, old(Now()), Now())
      ensures index == if r.Ok? then old(index)[tx.id := tx] else old(index)
    {
      hide EncodeMeta;
      if tx.id in index {
        return Err(Conflict);
      }
      if tx.id in disk {
        return Err(Conflict);
      }
      if !ok {
        // folder and meta.json: created and then removed again, or not created
        return Err(Io);
      }
      disk := disk[tx.id := Folder(EncodeMeta(tx), None, EmptyTree)];
      index := index[tx.id := tx];
      return Ok(());
    }

    /** TransactionRepository::remove (repository.cpp:75-80). */
    method RemoveFolder(id: string, ok: bool) returns (r: Result<()>)
      requires id in disk
      modifies this`index, this`disk
      ensures r == if ok then Ok(()) else Err(Io)
      ensures CoreOf(id) == if ok then Do(old(CoreOf(id)), RemoveAll) else old(CoreOf(id))
      ensures OthersSame(id, old(Now()), Now())
    {
      if !ok {
        return Err(Io);
      }
      disk := disk - {id};
      index := index - {id};
      return Ok(());
    }

    /** One change of the payload tree or of manifest.json. */
    method Touch(id: string, m: Micro)
      requires id in disk && id in index && IsDiskStep(m)
      modifies this`disk
      ensures id in disk && CoreOf(id) == Do(old(CoreOf(id)), m)
      ensures OthersSame(id, old(Now()), Now())
    {
      var f := disk[id];
      match m {
        case MkDirs(p) => f := f.(tree := MakeDirs(f.tree, p));
        case Publish(p, data) => f := f.(tree := Rename(f.tree, p, data));
        case DropPayload(p, n) =>
          var t := RemoveStored(f.tree, p, true, n);
          f := f.(tree := if t.Ok? then t.value else Unlink(f.tree, p, n));
        case SaveManifest(files) => f := f.(manifest := Some(EncodeManifest(index[id].id, files)));
      }
      disk := disk[id := f];
    }

    /** FileStore::hash_file (storage.cpp:166-181): reads in chunks and hashes what
        it read. */
    method HashFile(data: Bytes, chunk: nat) returns (size: nat, digest: Digest)
      requires chunk > 0
      ensures size == |data| && digest == env.hash(data)
    {
      var fed: Bytes := [];
      size := 0;
      while size < |data|
        invariant size <= |data| && fed == data[..size]
      {
        var n := if |data| - size < chunk then |data| - size else chunk;
        fed := fed + data[size..size + n];
        size := size + n;
      }
      assert data[..|data|] == data;
      digest := env.hash(fed);
    }

    // --- Operations -----------------------------------------------------------------

    /** PendingUpload::finish (service.cpp:172-195). */
    method Finish(id: string, path: string, data: Bytes, expected: Option<Digest>, failAt: nat)
      returns (r: Result<FileEntry>, ghost k: nat)
      requires Valid() && OpOk(Op.Finish(path, data, expected), id)
      modifies this
      ensures Valid() && Performed(env, Op.Finish(path, data, expected), id, k, old(Now()), Now())
      ensures Ends(env, Op.Finish(path, data, expected), old(CoreOf(id)), k, r)
      ensures r.Ok? ==> r.value == NewEntry(env, path, data)
    {
      hide Good, Run, Program, Refusal, Records, Clash, OpOk;
      ghost var op, c := Op.Finish(path, data, expected), CoreOf(id);
      GoodKeys(env, id, c);
      NoSteps(c, Program(env, op, c));
      NoRecords(id, Program(env, op, c));
      if c.tx.Some? { FinishRefusal(env, op, c); } else { UnknownRefused(env, op, c); }
      if Refusal(env, op, c).Some? { RefusedDoesNothing(env, op, c); }
      k := 0;
      if id !in index {
        r := Err(NotFound);
      } else if RequireMutable(index[id].state).Some? {
        r := Err(RequireMutable(index[id].state).value);
      } else if expected.Some? && expected.value != env.hash(data) {
        r := Err(Integrity);
      } else if Clash(disk[id].tree, path) {
        r := Err(Conflict);
      } else {
        r, k := StoreAndSave(id, path, data, expected, failAt);
      }
    }

    /** The accepted part of finish: publish the payload, save, log. */
    method StoreAndSave(id: string, path: string, data: Bytes, expected: Option<Digest>, failAt: nat)
      returns (r: Result<FileEntry>, ghost k: nat)
      requires Valid() && OpOk(Op.Finish(path, data, expected), id)
      requires Refusal(env, Op.Finish(path, data, expected), CoreOf(id)).None?
      modifies this
      ensures Valid() && Performed(env, Op.Finish(path, data, expected), id, k, old(Now()), Now())
      ensures Ends(env, Op.Finish(path, data, expected), old(CoreOf(id)), k, r)
      ensures r.Ok? ==> r.value == NewEntry(env, path, data)
    {
      hide Good, Do, Run, Clash, Upsert, Records, OpOk, EncodeMeta, Shaped;
      ghost var op, before, c := Op.Finish(path, data, expected), Now(), CoreOf(id);
      ghost var p := Program(env, op, c);
      assert Good(env, id, c);
      FinishProgram(env, op, c);
      GoodParts(env, id, c);
      NoSteps(c, p);
      RecordsOnce(id, p, 0);
      var tx := index[id];
      if failAt == 0 {
        return Err(Io), 0;
      }
      Touch(id, MkDirs(path));
      FourSteps(c, p, 1);
      RecordsOnce(id, p, 1);
      if failAt == 1 {
        PerformedKeeps(env, op, id, 1, before, Now());
        return Err(Io), 1;
      }
      Touch(id, Publish(path, data));
      FourSteps(c, p, 2);
      RecordsOnce(id, p, 2);
      var entry := NewEntry(env, path, data);
      var files := UpsertFile(tx.files, entry);
      var saved := Save(tx.(files := files), failAt != 2);
      if saved.Err? {
        PerformedKeeps(env, op, id, 2, before, Now());
        return Err(Io), 2;
      }
      log := log + [(id, FileAdded(entry))];
      FourSteps(c, p, 4);
      RecordKeeps(CoreOf(id), p[3]);
      RecordsOnce(id, p, 4);
      PerformedKeeps(env, op, id, 4, before, Now());
      return Ok(entry), 4;
    }

    /** TransactionService::remove_file (service.cpp:197-223). */
    method RemoveFile(caller: Caller, id: string, path: string, prunes: nat, failAt: nat)
      returns (r: Result<()>, ghost k: nat)
      requires Valid()
      modifies this
      ensures Valid() && Performed(env, Op.RemoveFile(caller, path, prunes), id, k, old(Now()), Now())
      ensures Ends(env, Op.RemoveFile(caller, path, prunes), old(CoreOf(id)), k, r)
    {
      hide Good, Run, HashCheck, FindLinear, Matches;
      GoodKeys(env, id, CoreOf(id));
      NoSteps(CoreOf(id), []);
      k := 0;
      if id !in index {
        r := Err(NotFound);
      } else if !MayWrite(caller, index[id]) {
        r := Err(Forbidden);
      } else if RequireMutable(index[id].state).Some? {
        r := Err(RequireMutable(index[id].state).value);
      } else if FindLinear(index[id].files, path) == |index[id].files| {
        r := Err(NotFound);
      } else if path !in disk[id].tree.files {
        r := Err(NotFound);
      } else {
        r, k := DropAndSave(caller, id, path, prunes, failAt);
      }
    }

    method DropAndSave(caller: Caller, id: string, path: string, prunes: nat, failAt: nat)
      returns (r: Result<()>, ghost k: nat)
      requires Valid() && Refusal(env, Op.RemoveFile(caller, path, prunes), CoreOf(id)).None?
      modifies this
      ensures Valid() && Performed(env, Op.RemoveFile(caller, path, prunes), id, k, old(Now()), Now())
      ensures Ends(env, Op.RemoveFile(caller, path, prunes), old(CoreOf(id)), k, r)
    {
      hide Good, Do, Run, Erase, Records, EncodeMeta, Shaped, FieldsOk;
      ghost var op, before, c := Op.RemoveFile(caller, path, prunes), Now(), CoreOf(id);
      ghost var p := Program(env, op, c);
      assert Good(env, id, c);
      RemoveAccepted(env, op, c);
      RemoveProgram(env, op, c);
      GoodParts(env, id, c);
      NoSteps(c, p);
      RecordsOnce(id, p, 0);
      var tx := index[id];
      if failAt == 0 {
        return Err(Io), 0;
      }
      Touch(id, DropPayload(path, prunes));
      ThreeSteps(c, p, 1);
      RecordsOnce(id, p, 1);
      var saved := Save(tx.(files := Erase(tx.files, path)), failAt != 1);
      if saved.Err? {
        PerformedKeeps(env, op, id, 1, before, Now());
        return Err(Io), 1;
      }
      log := log + [(id, FileRemoved(path))];
      ThreeSteps(c, p, 3);
      RecordKeeps(CoreOf(id), p[2]);
      RecordsOnce(id, p, 3);
      PerformedKeeps(env, op, id, 3, before, Now());
      return Ok(()), 3;
    }

    /** The re-hash of commit (service.cpp:242-248), with the file of entry `failAt` not
        readable: that decides if and only if no entry before it does. */
    method Rehash(files: seq<FileEntry>, tree: Tree, failAt: nat) returns (no: Option<ErrCode>)
      ensures no == if failAt < |files| && HashCheck(env, files[..failAt], tree).None? then Some(Io)
                    else HashCheck(env, files, tree)
    {
      for i := 0 to |files|
        invariant i <= failAt || failAt >= |files|
        invariant HashCheck(env, files[..i], tree).None?
      {
        var e := files[i];
        HashCheckAt(env, files, tree, i);
        if failAt < |files| {
          HashCheckFront(env, files, tree, i + 1, failAt);
        }
        if failAt == i {
          return Some(Io);
        }
        if e.path !in tree.files {
          return Some(NotFound);
        }
        var size, digest := HashFile(tree.files[e.path], 1048576);
        if size != e.size || digest != e.sha256 {
          return Some(Integrity);
        }
      }
      assert files[..|files|] == files;
      return None;
    }

    /** TransactionService::commit (service.cpp:225-267). A read that fails while
        re-hashing ends it before it has changed anything. */
    method Commit(caller: Caller, id: string, now: int, failAt: nat)
      returns (r: Result<Transaction>, ghost k: nat)
      requires Valid()
      modifies this
      ensures Valid() && Performed(env, Op.Commit(caller, now), id, k, old(Now()), Now())
      ensures Ends(env, Op.Commit(caller, now), old(CoreOf(id)), k, r) || (r == Err(Io) && k == 0)
      ensures r.Ok? ==> k == 3 && id in index && r.value == index[id] && Sealed(r.value)
                        && Matches(env, r.value.files, disk[id].tree)
    {
      hide Good, Run, HashCheck, FindLinear, Matches;
      GoodKeys(env, id, CoreOf(id));
      NoSteps(CoreOf(id), []);
      k := 0;
      if id !in index {
        r := Err(NotFound);
      } else if !MayWrite(caller, index[id]) {
        r := Err(Forbidden);
      } else if CheckTransition(index[id].state, Committed).Some? {
        r := Err(CheckTransition(index[id].state, Committed).value);
      } else {
        var no := Rehash(index[id].files, disk[id].tree, failAt);
        if no.Some? {
          r := Err(no.value);
        } else {
          var skip := |index[id].files|;
          r, k := SealAndSave(caller, id, now, if failAt < skip then 0 else failAt - skip);
        }
      }
    }

    method SealAndSave(caller: Caller, id: string, now: int, failAt: nat)
      returns (r: Result<Transaction>, ghost k: nat)
      requires Valid() && Refusal(env, Op.Commit(caller, now), CoreOf(id)).None?
      modifies this
      ensures Valid() && Performed(env, Op.Commit(caller, now), id, k, old(Now()), Now())
      ensures Ends(env, Op.Commit(caller, now), old(CoreOf(id)), k, r)
      ensures r.Ok? ==> k == 3 && id in index && r.value == index[id] && Sealed(r.value)
                        && id in disk && Matches(env, r.value.files, disk[id].tree)
    {
      hide Good, Do, Run, Records, EncodeMeta, EncodeManifest, Shaped, FieldsOk, HashCheck, Matches;
      ghost var op, before, c := Op.Commit(caller, now), Now(), CoreOf(id);
      ghost var p := Program(env, op, c);
      assert Good(env, id, c);
      CommitAccepted(env, op, c);
      CommitProgram(env, op, c);
      GoodParts(env, id, c);
      NoSteps(c, p);
      RecordsOnce(id, p, 0);
      var tx := index[id];
      if failAt == 0 {
        return Err(Io), 0;
      }
      Touch(id, SaveManifest(tx.files));
      ThreeSteps(c, p, 1);
      RecordsOnce(id, p, 1);
      var sealed := tx.(state := Committed, committedAt := Some(now));
      var saved := Save(sealed, failAt != 1);
      if saved.Err? {
        PerformedKeeps(env, op, id, 1, before, Now());
        return Err(Io), 1;
      }
      ThreeSteps(c, p, 2);
      var n, bytes := |tx.files|, TotalBytes(tx.files);
      log := log + [(id, if IsOriginPeer(caller, tx) then ReceivedEv(n, bytes) else CommittedEv(n, bytes))];
      ThreeSteps(c, p, 3);
      RecordKeeps(CoreOf(id), p[2]);
      RecordsOnce(id, p, 3);
      PerformedKeeps(env, op, id, 3, before, Now());
      SealedMatches(env, id, CoreOf(id));
      return Ok(sealed), 3;
    }

    /** TransactionService::mark_delivered (service.cpp:380-398). */
    method MarkDelivered(id: string, now: int, failAt: nat) returns (r: Result<()>, ghost k: nat)
      requires Valid()
      modifies this
      ensures Valid() && Performed(env, Op.MarkDelivered(now), id, k, old(Now()), Now())
      ensures Ends(env, Op.MarkDelivered(now), old(CoreOf(id)), k, r)
    {
      hide Good, Run, Records, EncodeMeta, TotalBytes;
      ghost var op, before, c := Op.MarkDelivered(now), Now(), CoreOf(id);
      ghost var p := Program(env, op, c);
      GoodKeys(env, id, c);
      NoSteps(c, p);
      NoRecords(id, p);
      if id !in index {
        return Err(NotFound), 0;
      }
      var tx := index[id];
      if CheckTransition(tx.state, Delivered).Some? {
        return Err(CheckTransition(tx.state, Delivered).value), 0;
      }
      DeliverProgram(env, op, c);
      RecordsOnce(id, p, 0);
      var saved := Save(tx.(state := Delivered, deliveredAt := Some(now)), failAt != 0);
      if saved.Err? {
        return Err(Io), 0;
      }
      log := log + [(id, Forwarded(|tx.files|, TotalBytes(tx.files)))];
      TwoSteps(c, p, 2);
      RecordsOnce(id, p, 2);
      PerformedKeeps(env, op, id, 2, before, Now());
      return Ok(()), 2;
    }

    /** TransactionService::destroy (service.cpp:416-440), up to the lock map. */
    method Destroy(id: string, byAdmin: bool, failAt: nat) returns (r: Result<()>, ghost k: nat)
      requires Valid()
      modifies this
      ensures Valid() && Performed(env, Op.Destroy(byAdmin), id, k, old(Now()), Now())
      ensures Ends(env, Op.Destroy(byAdmin), old(CoreOf(id)), k, r)
      ensures r.Ok? ==> id !in index && id !in disk
    {
      hide Good, EncodeMeta, Records, Run;
      ghost var op, before, c := Op.Destroy(byAdmin), Now(), CoreOf(id);
      ghost var p := Program(env, op, c);
      assert Good(env, id, c);
      NoSteps(c, p);
      NoRecords(id, p);
      if id !in index {
        return Err(NotFound), 0;
      }
      GoodParts(env, id, c);
      DestroyProgram(env, op, c);
      var tx := index[id];
      var first := if tx.state == Expired then 0 else 1;
      if tx.state != Expired {
        var saved := Save(tx.(state := Expired), failAt != 0);
        if saved.Err? {
          return Err(Io), 0;
        }
        OneStep(c, p);
      }
      RecordsOnce(id, p, first);
      var removed := RemoveFolder(id, failAt != first);
      if removed.Err? {
        PerformedKeeps(env, op, id, first, before, Now());
        return Err(Io), first;
      }
      log := log + [(id, if byAdmin then AdminDeleted else ExpiredEv)];
      if first == 0 { TwoSteps(c, p, 2); } else { ThreeSteps(c, p, 3); }
      RecordsOnce(id, p, first + 2);
      PerformedKeeps(env, op, id, first + 2, before, Now());
      return Ok(()), first + 2;
    }

    /** TransactionService::set_retention (service.cpp:481-507). */
    method SetRetention(admin: Caller, id: string, days: int, failAt: nat)
      returns (r: Result<Transaction>, ghost k: nat)
      requires Valid()
      modifies this
      ensures Valid() && Performed(env, Op.SetRetention(admin, days), id, k, old(Now()), Now())
      ensures Ends(env, Op.SetRetention(admin, days), old(CoreOf(id)), k, r)
      ensures r.Ok? ==>
                && admin.isAdmin && 1 <= days <= env.maxDays && days <= 3650 && id in old(index)
                && r.value == old(index[id]).(expiresAt := old(index[id]).createdAt + days * 86400)
                && index == old(index)[id := r.value]
      ensures r.Err? ==> index == old(index) && log == old(log)
    {
      hide Good, Run, Records, EncodeMeta, TotalBytes;
      ghost var op, before, c := Op.SetRetention(admin, days), Now(), CoreOf(id);
      ghost var p := Program(env, op, c);
      GoodKeys(env, id, c);
      NoSteps(c, p);
      NoRecords(id, p);
      if !admin.isAdmin {
        return Err(Forbidden), 0;
      }
      if days < 1 || days > env.maxDays {
        return Err(Validation), 0;
      }
      if id !in index {
        return Err(NotFound), 0;
      }
      var tx := index[id];
      if tx.state == Expired {
        return Err(Gone), 0;
      }
      var expires := Time.ExpiresAt(tx.createdAt, days);
      if expires.Err? {
        return Err(Validation), 0;
      }
      DeliverProgram(env, op, c);
      RecordsOnce(id, p, 0);
      tx := tx.(expiresAt := expires.value);
      var saved := Save(tx, failAt != 0);
      if saved.Err? {
        return Err(Io), 0;
      }
      log := log + [(id, RetentionChanged(days))];
      TwoSteps(c, p, 2);
      RecordsOnce(id, p, 2);
      PerformedKeeps(env, op, id, 2, before, Now());
      return Ok(tx), 2;
    }

    /** TransactionService::receive (service.cpp:319-350). */
    method Receive(peer: Caller, id: string, push: ReceiveRequest, failAt: nat)
      returns (r: Result<Transaction>, ghost k: nat)
      requires Valid() && ValidId(id)
      modifies this
      ensures Valid() && Performed(env, Op.Receive(peer, id, push), id, k, old(Now()), Now())
      ensures Ends(env, Op.Receive(peer, id, push), old(CoreOf(id)), k, r)
      ensures r.Ok? ==>
                && peer.isPeer && id !in old(index) && index == old(index)[id := r.value]
                && r.value == Transaction(id, push.sender, push.targetUser, "", peer.name, push.comment, Open,
                                          push.createdAt, push.expiresAt, None, None, [])
      ensures r.Err? ==> index == old(index)
    {
      hide ValidId, EncodeMeta, Run, Shaped, FilesOk;
      ghost var op, before, c := Op.Receive(peer, id, push), Now(), CoreOf(id);
      ghost var p := Program(env, op, c);
      assert Good(env, id, c);
      NoSteps(c, p);
      if !peer.isPeer {
        return Err(Forbidden), 0;
      }
      if push.sender == "" || push.targetUser == "" || push.expiresAt <= push.createdAt {
        return Err(Validation), 0;
      }
      var comment := CheckComment(push.comment, env.maxComment);
      if !comment {
        return Err(Validation), 0;
      }
      if env.destination(push.targetUser, "").Some? {
        return Err(env.destination(push.targetUser, "").value), 0;
      }
      var tx := ReceivedTx(peer, id, push);
      var inserted := Insert(tx, failAt != 0);
      if inserted.Err? {
        return Err(inserted.code), 0;
      }
      OneStep(c, p);
      RecordsOnce(id, p, 1);
      PerformedKeeps(env, op, id, 1, before, Now());
      return Ok(tx), 1;
    }

    /** TransactionService::create (service.cpp:108-150). `id` is the fresh random
        id of TransactionId::generate. */
    method Create(caller: Caller, id: string, req: CreateRequest, now: int, failAt: nat)
      returns (r: Result<Transaction>, ghost k: nat)
      requires Valid() && ValidId(id) && caller.name != ""
      modifies this
      ensures Valid() && Performed(env, Op.Create(caller, id, req, now), id, k, old(Now()), Now())
      ensures Ends(env, Op.Create(caller, id, req, now), old(CoreOf(id)), k, r)
      ensures r.Ok? ==>
                && !caller.isPeer && id !in old(index) && index == old(index)[id := r.value]
                && r.value == Transaction(id, caller.name, req.targetUser,
                                          if req.targetServer == env.localServer then "" else req.targetServer,
                                          "", req.comment, Open, now,
                                          now + (if req.days == 0 then env.defaultDays else req.days) * 86400,
                                          None, None, [])
      ensures r.Err? ==> index == old(index)
    {
      hide ValidId, EncodeMeta, Run, Shaped, FilesOk, CommentOk, AllGood, Refusal, Intact;
      ghost var op, before, c := Op.Create(caller, id, req, now), Now(), CoreOf(id);
      ghost var p := Program(env, op, c);
      CreateRefusal(env, op, c);
      assert Good(env, id, c) by { GoodAt(env, before, id); }
      NoSteps(c, p);
      var no, server, expires := CheckCreate(caller, id, req, now);
      if no.Some? {
        return Err(no.value), 0;
      }
      var tx := Transaction(id, caller.name, req.targetUser, server, "", req.comment, Open, now, expires,
                            None, None, []);
      var inserted := Insert(tx, failAt != 0);
      if inserted.Err? {
        PerformedKeeps(env, op, id, 0, before, Now());
        return Err(inserted.code), 0;
      }
      log := log + [(id, TxCreated)];
      TwoSteps(c, p, 2);
      RecordsOnce(id, p, 2);
      PerformedKeeps(env, op, id, 2, before, Now());
      return Ok(tx), 2;
    }

    /** What create checks before it stores anything (service.cpp:109-134). */
    method CheckCreate(caller: Caller, ghost id: string, req: CreateRequest, now: int)
      returns (no: Option<ErrCode>, server: string, expires: int)
      ensures no == Refusal(env, Op.Create(caller, id, req, now), NoCore)
      ensures no.None? ==>
                && server == DestinationServer(env, req.targetServer)
                && expires == now + EffectiveDays(env, req.days) * Time.DAY
                && !caller.isPeer
    {
      server, expires := "", now;
      if caller.isPeer {
        return Some(Forbidden), server, expires;
      }
      if req.targetUser == "" || req.days < 0 || req.days > env.maxDays {
        return Some(Validation), server, expires;
      }
      var comment := CheckComment(req.comment, env.maxComment);
      if !comment {
        return Some(Validation), server, expires;
      }
      var local := req.targetServer == "" || req.targetServer == env.localServer;
      server := if local then "" else req.targetServer;
      if env.destination(req.targetUser, server).Some? {
        return env.destination(req.targetUser, server), server, expires;
      }
      var days := if req.days == 0 then env.defaultDays else req.days;
      var until := Time.ExpiresAt(now, days);
      if until.Err? {
        return Some(Validation), server, expires;
      }
      return None, server, until.value;
    }

    /** check_comment (transaction.cpp:24-43). */
    method CheckComment(comment: string, max: nat) returns (ok: bool)
      ensures ok == CommentOk(comment, max)
    {
      var length := 0;
      for i := 0 to |comment|
        invariant forall j :: 0 <= j < i ==> ' ' <= comment[j] && comment[j] != '\U{7f}'
        invariant length == CodePoints(comment[..i])
      {
        var c := comment[i];
        if c < ' ' || c == '\U{7f}' {
          return false;
        }
        assert comment[..i + 1][..i] == comment[..i];
        if !(0x80 <= c as int < 0xC0) {
          length := length + 1;
        }
      }
      assert comment[..|comment|] == comment;
      return length <= max;
    }

    /** TransactionRepository::load (repository.cpp:17-40): reads every folder into a
        fresh index; the first unreadable one fails it and changes nothing. */
    method Load() returns (r: Result<()>)
      modifies this`index
      ensures r.Ok? ==> AllLoaded(disk, index)
      ensures r.Err? ==> index == old(index) && SomeUnreadable(disk)
      ensures old(Valid()) && (forall id :: id in old(index) ==> TimesOk(old(index)[id])) ==>
                r.Ok? && index == old(index)
    {
      hide AllGood, AllLoaded, SomeUnreadable, TimesOk;
      var loaded := ReadFolders();
      if Valid() && forall id :: id in index ==> TimesOk(index[id]) {
        LoadRestores(env, Now(), loaded);
      }
      if loaded.Err? {
        return Err(loaded.code);
      }
      index := loaded.value;
      return Ok(());
    }

    /** The loop of load over the folders. */
    method ReadFolders() returns (loaded: Result<map<string, Transaction>>)
      ensures loaded.Ok? ==> AllLoaded(disk, loaded.value)
      ensures loaded.Err? ==> SomeUnreadable(disk)
    {
      hide DecodeMeta;
      var found: map<string, Transaction> := map[];
      var ids := disk.Keys;
      while ids != {}
        invariant ids <= disk.Keys && found.Keys == disk.Keys - ids
        invariant forall id :: id in found ==> Sections.Loaded(id, Some(disk[id])) == Ok(Some(found[id]))
        decreases |ids|
      {
        var id :| id in ids;
        var tx := DecodeMeta(disk[id].meta);
        if tx.Err? {
          return Err(tx.code);
        }
        if tx.value.id != id {
          return Err(Validation);
        }
        found := found[id := tx.value];
        ids := ids - {id};
      }
      return Ok(found);
    }
  }

  /** The index holds exactly what the folders' documents decode to. */
  ghost predicate AllLoaded(disk: map<string, Folder>, index: map<string, Transaction>) {
    && index.Keys == disk.Keys
    && forall id :: id in disk ==> Sections.Loaded(id, Some(disk[id])) == Ok(Some(index[id]))
  }

  ghost predicate SomeUnreadable(disk: map<string, Folder>) {
    exists id :: id in disk && Sections.Loaded(id, Some(disk[id])).Err?
  }

  lemma LoadRestores(env: Env, st: Snapshot, loaded: Result<map<string, Transaction>>)
    requires AllGood(env, st) && forall id :: id in st.index ==> TimesOk(st.index[id])
    requires if loaded.Ok? then AllLoaded(st.disk, loaded.value) else SomeUnreadable(st.disk)
    ensures loaded == Ok(st.index)
  {
    hide AllGood, TimesOk, Sections.Loaded;
    LoadSameIndex(env, st);
    if loaded.Ok? {
      forall id | id in st.index ensures id in loaded.value && loaded.value[id] == st.index[id] {
        assert id in st.disk;
      }
      assert loaded.value == st.index;
    }
  }

  lemma GoodKeys(env: Env, id: string, c: Core)
    requires Good(env, id, c)
    ensures c.tx.Some? <==> c.folder.Some?
    ensures c.tx.Some? ==> c.tx.value.id == id
  {}

  lemma NoRecords(id: string, p: seq<Micro>)
    ensures Records(id, p[..0]) == []
  {}

  lemma RemoveAccepted(env: Env, op: Op, c: Core)
    requires op.RemoveFile? && Refusal(env, op, c).None?
    ensures |Program(env, op, c)| == 3
  {
    hide Erase, FindLinear;
  }

  lemma CommitAccepted(env: Env, op: Op, c: Core)
    requires op.Commit? && Refusal(env, op, c).None?
    ensures |Program(env, op, c)| == 3
  {
    hide HashCheck;
  }

  lemma SealedMatches(env: Env, id: string, c: Core)
    requires Good(env, id, c) && c.tx.Some? && Sealed(c.tx.value)
    ensures c.folder.Some? && Matches(env, c.tx.value.files, c.folder.value.tree)
  {}

  /** Reading every folder of a good store gives back every index entry if and only if
      every stored time fits the text form. */
  lemma LoadSameIndex(env: Env, st: Snapshot)
    requires AllGood(env, st)
    ensures st.disk.Keys == st.index.Keys
    ensures (forall id :: id in st.index ==> Sections.Loaded(id, Some(st.disk[id])) == Ok(Some(st.index[id])))
            <==> (forall id :: id in st.index ==> TimesOk(st.index[id]))
  {
    hide DecodeMeta, EncodeMeta, TimesOk, FieldsOk, Shaped, Intact;
    forall id ensures id in st.disk <==> id in st.index {
      assert Good(env, id, At(st, id));
    }
    forall id | id in st.index
      ensures Sections.Loaded(id, Some(st.disk[id])) == Ok(Some(st.index[id])) <==> TimesOk(st.index[id])
    {
      assert Good(env, id, At(st, id));
      MetaRoundTrip(st.index[id]);
    }
  }
}
