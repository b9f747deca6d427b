/** The byte-wise order on relative paths: std::string comparison, which
    RelativePath inherits through its defaulted operator<=>. */
module PathOrder {

  predicate Less(a: string, b: string) {
    b != [] && (a == [] || a[0] < b[0] || (a[0] == b[0] && Less(a[1..], b[1..])))
  }

  /** Byte-wise order: at the first place where two texts differ the smaller byte decides, and
      a proper prefix comes first. */
  lemma {:induction false} LessExactly(a: string, b: string)
    ensures Less(a, b) <==>
              exists k :: && 0 <= k <= |a| && k < |b| && a[..k] == b[..k] && (k == |a| || a[k] < b[k])
  {
    if a != [] && b != [] && a[0] == b[0] {
      var x, y := a[1..], b[1..];
      LessExactly(x, y);
      if Less(x, y) {
        var k :| 0 <= k <= |x| && k < |y| && x[..k] == y[..k] && (k == |x| || x[k] < y[k]);
        assert a[..k + 1] == [a[0]] + x[..k] && b[..k + 1] == [b[0]] + y[..k];
        assert 0 <= k + 1 <= |a| && k + 1 < |b| && a[..k + 1] == b[..k + 1] && (k + 1 == |a| || a[k + 1] < b[k + 1]);
      }
      if k :| 0 <= k <= |a| && k < |b| && a[..k] == b[..k] && (k == |a| || a[k] < b[k]) {
        assert k > 0;
        assert x[..k - 1] == a[..k][1..] && y[..k - 1] == b[..k][1..];
        assert 0 <= k - 1 <= |x| && k - 1 < |y| && x[..k - 1] == y[..k - 1] && (k - 1 == |x| || x[k - 1] < y[k - 1]);
      }
    } else if Less(a, b) {
      assert a[..0] == b[..0];
    } else if k :| 0 <= k <= |a| && k < |b| && a[..k] == b[..k] && (k == |a| || a[k] < b[k]) {
      assert k > 0 ==> a[..k][0] == b[..k][0];
    }
  }

  lemma {:induction false} Irreflexive(a: string)
    ensures !Less(a, a)
  {
    if a != [] {
      Irreflexive(a[1..]);
    }
  }

  lemma {:induction false} Transitive(a: string, b: string, c: string)
    requires Less(a, b) && Less(b, c)
    ensures Less(a, c)
  {
    if a != [] && a[0] == b[0] && b[0] == c[0] {
      Transitive(a[1..], b[1..], c[1..]);
    }
  }

  lemma {:induction false} Total(a: string, b: string)
    ensures Less(a, b) || a == b || Less(b, a)
  {
    if a != [] && b != [] && a[0] == b[0] {
      Total(a[1..], b[1..]);
      assert a == [a[0]] + a[1..] && b == [b[0]] + b[1..];
    }
  }
}

/** FileEntry and the sorted vector Transaction::files, with the operations
    that keep it (upsert_file, the erase of remove_file, find_file). The
    vector is related to a finite map from path to entry. */
module FileList {
  import opened Basics
  import opened PathOrder

  /** A SHA-256 digest: 32 raw bytes. */
  type Digest = d: seq<Byte> | |d| == 32 witness seq(32, _ => 0)

  datatype FileEntry = FileEntry(path: string, size: nat, sha256: Digest)

  ghost predicate Sorted(files: seq<FileEntry>) {
    forall i, j :: 0 <= i < j < |files| ==> Less(files[i].path, files[j].path)
  }

  /** `files` is strictly sorted and holds exactly the entries of `m`. */
  ghost predicate Represents(files: seq<FileEntry>, m: map<string, FileEntry>) {
    && Sorted(files)
    && (forall i :: 0 <= i < |files| ==> files[i].path in m && m[files[i].path] == files[i])
    && (forall p :: p in m ==> exists i :: 0 <= i < |files| && files[i].path == p)
  }

  /** Number of leading entries whose path is below `key`. */
  function Position(files: seq<FileEntry>, key: string): (k: nat)
    ensures k <= |files|
    ensures forall i :: 0 <= i < k ==> Less(files[i].path, key)
    ensures k < |files| ==> !Less(files[k].path, key)
  {
    if files == [] || !Less(files[0].path, key) then 0
    else 1 + Position(files[1..], key)
  }

  /** upsert_file (service.cpp:81-88). */
  function Upsert(files: seq<FileEntry>, e: FileEntry): seq<FileEntry> {
    var k := Position(files, e.path);
    if k < |files| && files[k].path == e.path then files[k := e]
    else files[..k] + [e] + files[k..]
  }

  /** The position std::ranges::find(files, path) stops at (service.cpp:211). */
  function FindLinear(files: seq<FileEntry>, path: string): (k: nat)
    ensures k <= |files|
    ensures forall i :: 0 <= i < k ==> files[i].path != path
    ensures k < |files| ==> files[k].path == path
  {
    if files == [] || files[0].path == path then 0 else 1 + FindLinear(files[1..], path)
  }

  /** The vector after erasing the entry `path`, if it has one. */
  function Erase(files: seq<FileEntry>, path: string): seq<FileEntry> {
    var k := FindLinear(files, path);
    if k < |files| then files[..k] + files[k + 1..] else files
  }

  lemma PositionSplits(files: seq<FileEntry>, key: string)
    requires Sorted(files)
    ensures forall i :: Position(files, key) <= i < |files| ==> !Less(files[i].path, key)
  {
    var k := Position(files, key);
    forall i | k <= i < |files| ensures !Less(files[i].path, key) {
      if k < i && Less(files[i].path, key) {
        Transitive(files[k].path, files[i].path, key);
      }
    }
  }

  /** Two sorted vectors with the same entries are the same vector. */
  lemma {:induction false} SortedUnique(a: seq<FileEntry>, b: seq<FileEntry>)
    requires Sorted(a) && Sorted(b)
    requires forall e :: e in a <==> e in b
    ensures a == b
  {
    assert a != [] ==> a[0] in b;
    assert b != [] ==> b[0] in a;
    if a != [] && b != [] {
      HeadsAgree(a, b);
      forall e ensures e in a[1..] <==> e in b[1..] {
        TailMembers(a, e);
        TailMembers(b, e);
      }
      SortedUnique(a[1..], b[1..]);
      assert a == [a[0]] + a[1..] && b == [b[0]] + b[1..];
    }
  }

  lemma HeadsAgree(a: seq<FileEntry>, b: seq<FileEntry>)
    requires Sorted(a) && Sorted(b) && a != [] && b != []
    requires forall e :: e in a <==> e in b
    ensures a[0] == b[0]
  {
    assert a[0] in b && b[0] in a;
    var i :| 0 <= i < |b| && b[i] == a[0];
    var j :| 0 <= j < |a| && a[j] == b[0];
    if i > 0 && j > 0 {
      Transitive(a[0].path, b[0].path, a[0].path);
      Irreflexive(a[0].path);
    }
  }

  lemma TailMembers(a: seq<FileEntry>, e: FileEntry)
    requires Sorted(a) && a != []
    ensures e in a[1..] <==> e in a && e != a[0]
  {
    Irreflexive(a[0].path);
    if e in a && e != a[0] {
      var i :| 0 <= i < |a| && a[i] == e;
      assert a[1..][i - 1] == e;
    }
  }

  /** Membership after an upsert: the new entry, and every old entry with
      another path. */
  lemma UpsertMembers(files: seq<FileEntry>, e: FileEntry)
    requires Sorted(files)
    ensures Sorted(Upsert(files, e))
    ensures forall x :: x in Upsert(files, e) <==> x == e || (x in files && x.path != e.path)
  {
    var k := Position(files, e.path);
    PositionSplits(files, e.path);
    var r := Upsert(files, e);
    if k < |files| && files[k].path == e.path {
      assert r[k] == e;
      forall x ensures x in r <==> x == e || (x in files && x.path != e.path) {
        if x in r && x != e {
          var i :| 0 <= i < |r| && r[i] == x;
          Distinct(files, i, k);
        }
        if x in files && x.path != e.path {
          var i :| 0 <= i < |files| && files[i] == x;
          assert r[i] == x;
        }
      }
    } else {
      assert r == files[..k] + [e] + files[k..];
      assert r[k] == e;
      InsertedSorted(files, e, k);
      forall x ensures x in r <==> x == e || (x in files && x.path != e.path) {
        if x in files {
          var i :| 0 <= i < |files| && files[i] == x;
          if i < k {
            assert r[i] == x;
            Irreflexive(e.path);
          } else {
            assert r[i + 1] == x;
            StrictAbove(files, e.path, k, i);
          }
        }
      }
    }
  }

  lemma Distinct(files: seq<FileEntry>, i: nat, k: nat)
    requires Sorted(files) && i < |files| && k < |files| && i != k
    ensures files[i].path != files[k].path
  {
    Irreflexive(files[i].path);
  }

  lemma StrictAbove(files: seq<FileEntry>, key: string, k: nat, i: nat)
    requires Sorted(files) && k <= i < |files|
    requires !Less(files[k].path, key) && files[k].path != key
    ensures Less(key, files[i].path) && files[i].path != key
  {
    Total(files[k].path, key);
    if k < i {
      Transitive(key, files[k].path, files[i].path);
    }
    Irreflexive(key);
  }

  lemma InsertedSorted(files: seq<FileEntry>, e: FileEntry, k: nat)
    requires Sorted(files) && k <= |files|
    requires forall i :: 0 <= i < k ==> Less(files[i].path, e.path)
    requires k < |files| ==> !Less(files[k].path, e.path) && files[k].path != e.path
    ensures Sorted(files[..k] + [e] + files[k..])
  {
    var r := files[..k] + [e] + files[k..];
    forall i, j | 0 <= i < j < |r| ensures Less(r[i].path, r[j].path) {
      if i == k {
        assert r[j] == files[j - 1];
        StrictAbove(files, e.path, k, j - 1);
      } else if i < k {
        assert r[i] == files[i];
        if j > k { assert r[j] == files[j - 1]; }
      } else {
        assert r[i] == files[i - 1] && r[j] == files[j - 1];
      }
    }
  }

  /** Membership after an erase: every entry with another path. */
  lemma EraseMembers(files: seq<FileEntry>, path: string)
    requires Sorted(files)
    ensures Sorted(Erase(files, path))
    ensures forall x :: x in Erase(files, path) <==> x in files && x.path != path
  {
    var k := FindLinear(files, path);
    var r := Erase(files, path);
    if k < |files| {
      assert forall i :: 0 <= i < |r| ==> r[i] == files[if i < k then i else i + 1];
      forall x ensures x in r <==> x in files && x.path != path {
        if x in r {
          var i :| 0 <= i < |r| && r[i] == x;
          Distinct(files, if i < k then i else i + 1, k);
        }
        if x in files && x.path != path {
          var i :| 0 <= i < |files| && files[i] == x;
          assert r[if i < k then i else i - 1] == x;
        }
      }
    }
  }

  lemma SamePathSameEntry(files: seq<FileEntry>, x: FileEntry, y: FileEntry)
    requires Sorted(files) && x in files && y in files && x.path == y.path
    ensures x == y
  {
    var i :| 0 <= i < |files| && files[i] == x;
    var j :| 0 <= j < |files| && files[j] == y;
    if i != j { Distinct(files, i, j); }
  }

  /** upsert_file on the vector is insert_or_assign on the map it represents. */
  lemma UpsertRefinesMap(files: seq<FileEntry>, m: map<string, FileEntry>, e: FileEntry)
    requires Represents(files, m)
    ensures Represents(Upsert(files, e), m[e.path := e])
  {
    UpsertMembers(files, e);
    var r, m' := Upsert(files, e), m[e.path := e];
    forall i | 0 <= i < |r| ensures r[i].path in m' && m'[r[i].path] == r[i] {
      assert r[i] in r;
    }
    forall p | p in m' ensures exists i :: 0 <= i < |r| && r[i].path == p {
      if p == e.path {
        assert e in r;
      } else {
        var i :| 0 <= i < |files| && files[i].path == p;
        assert files[i] in r;
      }
    }
  }

  /** Erasing from the vector is erasing from the map. */
  lemma EraseRefinesMap(files: seq<FileEntry>, m: map<string, FileEntry>, path: string)
    requires Represents(files, m)
    ensures Represents(Erase(files, path), m - {path})
  {
    EraseMembers(files, path);
    var r, m' := Erase(files, path), m - {path};
    forall i | 0 <= i < |r| ensures r[i].path in m' && m'[r[i].path] == r[i] {
      assert r[i] in r;
    }
    forall p | p in m' ensures exists i :: 0 <= i < |r| && r[i].path == p {
      var i :| 0 <= i < |files| && files[i].path == p;
      assert files[i] in r;
    }
  }

  datatype Edit = Put(entry: FileEntry) | Drop(path: string)

  function Edited(files: seq<FileEntry>, edits: seq<Edit>): seq<FileEntry> {
    if edits == [] then files
    else
      var rest := Edited(files, edits[..|edits| - 1]);
      match edits[|edits| - 1]
      case Put(e) => Upsert(rest, e)
      case Drop(p) => Erase(rest, p)
  }

  /** The last edit of `path` decides: the entry it wrote, or nothing. */
  ghost function LastWritten(before: map<string, FileEntry>, edits: seq<Edit>, path: string): Option<FileEntry> {
    if edits == [] then (if path in before then Some(before[path]) else None)
    else
      match edits[|edits| - 1]
      case Put(e) => if e.path == path then Some(e) else LastWritten(before, edits[..|edits| - 1], path)
      case Drop(p) => if p == path then None else LastWritten(before, edits[..|edits| - 1], path)
  }

  /** Any sequence of upserts and erases on a sorted vector keeps it sorted,
      and looking a path up in it gives the last written entry. */
  lemma {:induction false} EditsRefineMap(files: seq<FileEntry>, m: map<string, FileEntry>, edits: seq<Edit>)
    returns (m': map<string, FileEntry>)
    requires Represents(files, m)
    ensures Represents(Edited(files, edits), m')
    ensures forall p :: LastWritten(m, edits, p) == if p in m' then Some(m'[p]) else None
  {
    if edits == [] {
      m' := m;
    } else {
      var front := edits[..|edits| - 1];
      var mid := EditsRefineMap(files, m, front);
      match edits[|edits| - 1] {
        case Put(e) =>
          UpsertRefinesMap(Edited(files, front), mid, e);
          m' := mid[e.path := e];
        case Drop(p) =>
          EraseRefinesMap(Edited(files, front), mid, p);
          m' := mid - {p};
      }
    }
  }

  /** std::ranges::lower_bound on the path projection: the halving search. */
  method LowerBound(files: seq<FileEntry>, key: string) returns (k: nat)
    requires Sorted(files)
    ensures k == Position(files, key)
  {
    var first, len := 0, |files|;
    while len > 0
      invariant 0 <= first <= first + len <= |files|
      invariant forall i :: 0 <= i < first ==> Less(files[i].path, key)
      invariant forall i :: first + len <= i < |files| ==> !Less(files[i].path, key)
    {
      var half := len / 2;
      var mid := first + half;
      if Less(files[mid].path, key) {
        forall i | 0 <= i <= mid ensures Less(files[i].path, key) {
          if i < mid { Transitive(files[i].path, files[mid].path, key); }
        }
        first, len := mid + 1, len - half - 1;
      } else {
        forall i | mid <= i < |files| ensures !Less(files[i].path, key) {
          if mid < i && Less(files[i].path, key) {
            Transitive(files[mid].path, files[i].path, key);
          }
        }
        len := half;
      }
    }
    k := first;
    assert k < |files| ==> !Less(files[k].path, key);
  }

  /** Transaction::find_file (transaction.cpp:55-58). */
  method FindFile(files: seq<FileEntry>, path: string, ghost m: map<string, FileEntry>) returns (r: Option<FileEntry>)
    requires Represents(files, m)
    ensures r == if path in m then Some(m[path]) else None
  {
    var k := LowerBound(files, path);
    if k < |files| && files[k].path == path {
      r := Some(files[k]);
    } else {
      r := None;
      Irreflexive(path);
      if k < |files| {
        forall i | k <= i < |files| ensures files[i].path != path {
          StrictAbove(files, path, k, i);
        }
      }
    }
  }

  /** upsert_file (service.cpp:81-88), in place on the vector. */
  method UpsertFile(files: seq<FileEntry>, entry: FileEntry) returns (r: seq<FileEntry>)
    requires Sorted(files)
    ensures r == Upsert(files, entry)
  {
    var k := LowerBound(files, entry.path);
    if k < |files| && files[k].path == entry.path {
      r := files[k := entry];
    } else {
      r := files[..k] + [entry] + files[k..];
    }
  }
}
