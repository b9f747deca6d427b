/** The payload area files/ of one transaction as a directory tree
    (src/lib/storage/impl/upload.cpp:123-143, src/lib/storage/storage.cpp:183-207).
    Names are paths relative to files/, which itself always exists. */
module StorageTree {
  import opened Basics

  datatype Tree = Tree(files: map<string, Bytes>, dirs: set<string>)

  const EmptyTree := Tree(map[], {})

  /** a is a folder above p. */
  predicate Above(a: string, p: string) {
    0 < |a| < |p| && p[..|a|] == a && p[|a|] == '/'
  }

  /** The folders above p, as create_directories(parent_path) makes them. */
  function Parents(p: string): (r: set<string>)
    ensures forall a :: a in r <==> Above(a, p)
  {
    set i | 0 < i < |p| && p[i] == '/' :: p[..i]
  }

  /** parent_path() below files/; "" stands for files/ itself. */
  function Parent(p: string): (d: string)
    ensures |d| < |p| || (p == "" && d == "")
    ensures d == "" || Above(d, p)
    ensures forall a :: Above(a, p) ==> a == d || Above(a, d)
  {
    if p == "" then "" else LastCut(p, |p| - 1)
  }

  function LastCut(p: string, i: nat): (d: string)
    requires i < |p|
    ensures |d| <= i
    ensures d == "" || Above(d, p)
    ensures forall a :: Above(a, p) && |a| <= i ==> a == d || Above(a, d)
  {
    if i == 0 then ""
    else if p[i] == '/' then p[..i]
    else LastCut(p, i - 1)
  }

  lemma AboveTransitive(a: string, b: string, c: string)
    requires Above(a, b) && Above(b, c)
    ensures Above(a, c)
  {
    assert c[..|a|] == c[..|b|][..|a|];
    assert c[|a|] == c[..|b|][|a|];
  }

  /** Folders over folders over files, and no name is both. */
  ghost predicate Shaped(t: Tree) {
    && (forall f, a :: f in t.files && Above(a, f) ==> a in t.dirs)
    && (forall d, a :: d in t.dirs && Above(a, d) ==> a in t.dirs)
    && (forall f :: f in t.files ==> f !in t.dirs)
  }

  /** The folders are exactly those some stored file needs. */
  ghost predicate Exact(t: Tree) {
    forall d :: d in t.dirs <==> exists f :: f in t.files && Above(d, f)
  }

  /** What upload.cpp:125-136 finds in the way of storing p. */
  predicate ParentIsFile(t: Tree, p: string) {
    exists a :: a in Parents(p) && a in t.files
  }

  predicate Clash(t: Tree, p: string) {
    ParentIsFile(t, p) || p in t.dirs
  }

  function MakeDirs(t: Tree, p: string): Tree {
    t.(dirs := t.dirs + Parents(p))
  }

  function Rename(t: Tree, p: string, data: Bytes): Tree {
    t.(files := t.files[p := data])
  }

  /** fs::is_empty(d). */
  predicate IsEmpty(t: Tree, d: string) {
    (forall f :: f in t.files ==> !Above(d, f)) && (forall e :: e in t.dirs ==> !Above(d, e))
  }

  /** The pruning loop of remove_file: removes d and its parents while they are
      empty; `n` is how many fs::remove calls succeed before one fails. */
  function Prune(t: Tree, d: string, n: nat): Tree
    decreases |d|
  {
    if d == "" || n == 0 || !IsEmpty(t, d) then t
    else Prune(t.(dirs := t.dirs - {d}), Parent(d), n - 1)
  }

  function Unlink(t: Tree, p: string, n: nat): Tree {
    Prune(t.(files := t.files - {p}), Parent(p), n)
  }

  /** Stored paths never lie one above the other. */
  lemma PrefixFree(t: Tree, f: string, g: string)
    requires Shaped(t) && f in t.files && g in t.files
    ensures !Above(f, g)
  {}

  lemma MakeDirsShaped(t: Tree, p: string)
    requires Shaped(t) && !ParentIsFile(t, p)
    ensures Shaped(MakeDirs(t, p))
  {
    var t' := MakeDirs(t, p);
    forall d, a | d in t'.dirs && Above(a, d) ensures a in t'.dirs {
      if d in Parents(p) { AboveTransitive(a, d, p); }
    }
  }

  lemma RenameShaped(t: Tree, p: string, data: Bytes)
    requires Shaped(t) && Parents(p) <= t.dirs && p !in t.dirs
    ensures Shaped(Rename(t, p, data))
  {}

  lemma StoreShaped(t: Tree, p: string, data: Bytes)
    requires Shaped(t) && !Clash(t, p)
    ensures Shaped(MakeDirs(t, p)) && Shaped(Rename(MakeDirs(t, p), p, data))
  {
    MakeDirsShaped(t, p);
    RenameShaped(MakeDirs(t, p), p, data);
  }

  /** A store that succeeds leaves exactly the needed folders. */
  lemma StoreExact(t: Tree, p: string, data: Bytes)
    requires Shaped(t) && Exact(t) && !Clash(t, p)
    ensures Shaped(Rename(MakeDirs(t, p), p, data)) && Exact(Rename(MakeDirs(t, p), p, data))
  {
    StoreShaped(t, p, data);
    var t' := Rename(MakeDirs(t, p), p, data);
    forall d ensures d in t'.dirs <==> exists f :: f in t'.files && Above(d, f) {
      if d in t'.dirs {
        if d in t.dirs {
          var f :| f in t.files && Above(d, f);
          assert f in t'.files;
        } else {
          assert p in t'.files && Above(d, p);
        }
      }
    }
  }

  lemma {:induction false} PruneShaped(t: Tree, d: string, n: nat)
    requires Shaped(t)
    ensures Shaped(Prune(t, d, n)) && Prune(t, d, n).files == t.files && Prune(t, d, n).dirs <= t.dirs
    decreases |d|
  {
    if d != "" && n > 0 && IsEmpty(t, d) {
      PruneShaped(t.(dirs := t.dirs - {d}), Parent(d), n - 1);
    }
  }

  lemma {:induction false} PruneFiles(t: Tree, d: string, n: nat)
    ensures Prune(t, d, n).files == t.files
    decreases |d|
  {
    if d != "" && n > 0 && IsEmpty(t, d) {
      PruneFiles(t.(dirs := t.dirs - {d}), Parent(d), n - 1);
    }
  }

  lemma UnlinkShaped(t: Tree, p: string, n: nat)
    requires Shaped(t)
    ensures Shaped(Unlink(t, p, n)) && Unlink(t, p, n).files == t.files - {p}
  {
    PruneShaped(t.(files := t.files - {p}), Parent(p), n);
  }

  /** Folders needed by some file, or on the chain from d up. */
  ghost predicate ExactWithChain(t: Tree, d: string) {
    forall x :: x in t.dirs <==> (exists f :: f in t.files && Above(x, f)) || (d != "" && (x == d || Above(x, d)))
  }

  /** Pruning upwards from the parent of a removed file drops the folders no
      other file needs, and only those. */
  lemma {:induction false} PruneExact(t: Tree, d: string, n: nat)
    requires ExactWithChain(t, d) && n >= |d|
    ensures Exact(Prune(t, d, n))
    decreases |d|
  {
    hide Above;
    if d == "" {
    } else if IsEmpty(t, d) {
      ChainShrinks(t, d);
      PruneExact(t.(dirs := t.dirs - {d}), Parent(d), n - 1);
    } else {
      ChainNeeded(t, d);
    }
  }

  lemma ChainShrinks(t: Tree, d: string)
    requires d != "" && ExactWithChain(t, d) && IsEmpty(t, d)
    ensures ExactWithChain(t.(dirs := t.dirs - {d}), Parent(d))
  {
    hide Parent, Above;
    var t' := t.(dirs := t.dirs - {d});
    forall x ensures x in t'.dirs <==>
      (exists f :: f in t'.files && Above(x, f)) || (Parent(d) != "" && (x == Parent(d) || Above(x, Parent(d))))
    {
      ChainStep(d, x);
      NotAboveItself(d);
      assert x in t.dirs <==> (exists f :: f in t.files && Above(x, f)) || x == d || Above(x, d);
    }
  }

  lemma NotAboveItself(d: string)
    ensures !Above(d, d)
  {}

  lemma ChainStep(d: string, x: string)
    requires d != ""
    ensures Above(x, d) <==> Parent(d) != "" && (x == Parent(d) || Above(x, Parent(d)))
  {
    if Parent(d) != "" && Above(x, Parent(d)) {
      AboveTransitive(x, Parent(d), d);
    }
  }

  lemma ChainNeeded(t: Tree, d: string)
    requires d != "" && ExactWithChain(t, d) && !IsEmpty(t, d)
    ensures Exact(t)
  {
    if e :| e in t.dirs && Above(d, e) {
      var f :| f in t.files && Above(e, f);
      AboveTransitive(d, e, f);
    }
    var f :| f in t.files && Above(d, f);
    forall x | Above(x, d) ensures Above(x, f) {
      AboveTransitive(x, d, f);
    }
  }

  /** A removal whose pruning meets no fault leaves exactly the needed folders. */
  lemma UnlinkExact(t: Tree, p: string, n: nat)
    requires Exact(t) && p in t.files && n >= |p|
    ensures Exact(Unlink(t, p, n))
  {
    var t' := t.(files := t.files - {p});
    var d := Parent(p);
    forall x ensures x in t'.dirs <==> (exists f :: f in t'.files && Above(x, f)) || (d != "" && (x == d || Above(x, d))) {
      if x in t.dirs {
        var f :| f in t.files && Above(x, f);
        if f != p { assert f in t'.files; }
      } else {
        assert !Above(x, p);
        if d != "" && Above(x, d) { AboveTransitive(x, d, p); }
      }
    }
    PruneExact(t', d, n);
  }

  /** A mix of stores and removals, each meeting no fault; a store that clashes
      is refused and changes nothing. */
  datatype Change = Store(path: string, data: Bytes) | Remove(path: string)

  function Changed(t: Tree, changes: seq<Change>): Tree {
    if changes == [] then t
    else
      var t' := Changed(t, changes[..|changes| - 1]);
      match changes[|changes| - 1]
      case Store(p, data) => if Clash(t', p) then t' else Rename(MakeDirs(t', p), p, data)
      case Remove(p) => if p in t'.files then Unlink(t', p, |p|) else t'
  }

  /** After any such mix the stored paths are prefix-free and the folders are
      exactly the proper ancestors of the stored files. */
  lemma {:induction false} TreeStaysExact(changes: seq<Change>)
    ensures Shaped(Changed(EmptyTree, changes)) && Exact(Changed(EmptyTree, changes))
  {
    if changes != [] {
      var front := changes[..|changes| - 1];
      TreeStaysExact(front);
      var t := Changed(EmptyTree, front);
      match changes[|changes| - 1] {
        case Store(p, data) => if !Clash(t, p) { StoreExact(t, p, data); }
        case Remove(p) => if p in t.files { UnlinkShaped(t, p, |p|); UnlinkExact(t, p, |p|); }
      }
    }
  }

  /** A stored file lies above or below p. */
  ghost predicate FileInTheWay(t: Tree, p: string) {
    exists f :: f in t.files && (Above(f, p) || Above(p, f))
  }

  /** A folder of this name, and no file in it. */
  ghost predicate Leftover(t: Tree, p: string) {
    p in t.dirs && forall f :: f in t.files ==> !Above(p, f)
  }

  /** Why a store is refused, exactly: because of a stored file above or below its path, or
      because of a leftover folder of its name, and never because of both. */
  lemma ClashExactly(t: Tree, p: string)
    requires Shaped(t)
    ensures Clash(t, p) <==> FileInTheWay(t, p) || Leftover(t, p)
    ensures Clash(t, p) && !FileInTheWay(t, p) <==> Leftover(t, p)
  {
    if ParentIsFile(t, p) {
      var a :| a in Parents(p) && a in t.files;
      assert Above(a, p);
    }
    if f :| f in t.files && Above(f, p) {
      assert f in Parents(p);
    }
  }

  /** So in an exact tree a store is refused only because of a stored file. */
  lemma ClashMeansFile(t: Tree, p: string)
    requires Shaped(t) && Exact(t)
    ensures Clash(t, p) <==> FileInTheWay(t, p)
  {
    ClashExactly(t, p);
  }

  /** A folder left behind, by an upload whose rename failed or by a removal whose pruning
      failed, is not harmless: it makes a later upload of that very name clash although
      nothing is stored. */
  lemma LeftoverFolderBlocks(data: Bytes)
    ensures var t := MakeDirs(EmptyTree, "a/b");
            Shaped(t) && t.files == map[] && Leftover(t, "a") && Clash(t, "a") && !Clash(EmptyTree, "a")
    ensures var t := Unlink(Rename(MakeDirs(EmptyTree, "a/b"), "a/b", data), "a/b", 0);
            Shaped(t) && t.files == map[] && Leftover(t, "a") && Clash(t, "a")
  {
    var t := MakeDirs(EmptyTree, "a/b");
    MakeDirsShaped(EmptyTree, "a/b");
    assert "a/b"[1] == '/' && "a/b"[..1] == "a";
    assert Above("a", "a/b");
    var t' := Unlink(Rename(t, "a/b", data), "a/b", 0);
    assert t'.files == map[] && t'.dirs == t.dirs;
  }

  /** FileStore::remove_file (storage.cpp:183-207) with its loop over parents; `unlinked` says
      whether the file itself can be removed, `removals` how many folders can. */
  method RemoveStored(t: Tree, p: string, unlinked: bool, removals: nat) returns (r: Result<Tree>)
    ensures r == if p !in t.files then Err(NotFound) else if unlinked then Ok(Unlink(t, p, removals)) else Err(Io)
  {
    if p !in t.files {
      return Err(NotFound);
    }
    if !unlinked {
      return Err(Io);
    }
    var cur, dir, left := t.(files := t.files - {p}), Parent(p), removals;
    while dir != ""
      invariant Prune(cur, dir, left) == Unlink(t, p, removals)
      decreases |dir|
    {
      var empty := forall f | f in cur.files :: !Above(dir, f);
      var emptyDirs := forall e | e in cur.dirs :: !Above(dir, e);
      if !(empty && emptyDirs) {
        break;
      }
      if left == 0 {
        break;
      }
      cur, dir, left := cur.(dirs := cur.dirs - {dir}), Parent(dir), left - 1;
    }
    return Ok(cur);
  }
}
