/** An upload in progress: bytes go to a temp file and into the hasher; only
    commit moves the whole file into the transaction
    (src/lib/storage/impl/upload.cpp), and documents on top of it
    (src/lib/storage/impl/documents.cpp). */
module Uploads {
  import opened Basics
  import opened FileList
  import opened StorageTree

  function Concat(chunks: seq<Bytes>): Bytes {
    if chunks == [] then [] else Concat(chunks[..|chunks| - 1]) + chunks[|chunks| - 1]
  }

  class Upload {
    var path: string
    const hash: Bytes -> Digest
    var temp: Option<Bytes>   // content of the temp file, None once it is gone
    var fed: Bytes            // what the hasher has seen
    var size: nat
    var done: bool

    constructor (path: string, hash: Bytes -> Digest)
      ensures this.path == path && this.hash == hash
      ensures Valid() && !done && fed == []
    {
      this.path, this.hash := path, hash;
      temp, fed, size, done := Some([]), [], 0, false;
    }

    /** While it runs, temp file, hasher and size agree; once finished, no temp
        file is left behind. */
    ghost predicate Valid()
      reads this
    {
      if done then temp.None? else temp == Some(fed) && size == |fed|
    }

    method Discard()
      modifies this
      ensures Valid() && done && path == old(path)
    {
      done := true;
      temp := None;
    }

    /** Upload::write (upload.cpp:75-93). */
    method Write(chunk: Bytes, diskOk: bool, hasherOk: bool) returns (r: Result<()>)
      requires Valid()
      modifies this
      ensures Valid() && path == old(path)
      ensures old(done) ==> r == Err(Internal) && done
      ensures r.Ok? ==> !done && fed == old(fed) + chunk
      ensures r.Err? ==> done
      ensures !old(done) ==> (r.Ok? <==> chunk == [] || (diskOk && hasherOk))
    {
      if done {
        return Err(Internal);
      }
      if chunk == [] {
        assert fed == fed + chunk;
        return Ok(());
      }
      if !diskOk {
        Discard();
        return Err(Io);
      }
      temp := Some(temp.value + chunk);
      if !hasherOk {
        Discard();
        return Err(Internal);
      }
      fed := fed + chunk;
      size := size + |chunk|;
      return Ok(());
    }

    /** Upload::commit and finish (upload.cpp:99-144) into the payload tree; failAt
        is the first of flush, mkdir, rename that fails. Whatever happens, the upload
        is finished and no temp file remains; only success changes what is stored. */
    method Commit(expected: Option<Digest>, tree: Tree, failAt: nat) returns (r: Result<FileEntry>, t: Tree)
      requires Valid()
      modifies this
      ensures Valid() && done && path == old(path)
      ensures r.Ok? ==> && !old(done) && !Clash(tree, path)
                        && t == Rename(MakeDirs(tree, path), path, old(fed))
                        && r.value == FileEntry(path, |old(fed)|, hash(old(fed)))
                        && (expected.None? || expected.value == hash(old(fed)))
      ensures r.Err? ==> t.files == tree.files
      ensures old(done) ==> r == Err(Internal) && t == tree
      ensures !old(done) && expected.Some? && expected.value != hash(old(fed)) && failAt > 0 ==> r == Err(Integrity)
      ensures !old(done) && failAt > 2 && (expected.None? || expected.value == hash(old(fed))) ==>
                if Clash(tree, path) then r == Err(Conflict) && (Shaped(tree) ==> t == tree) else r.Ok?
    {
      t := tree;
      if done {
        return Err(Internal), t;
      }
      if failAt == 0 {
        Discard();
        return Err(Io), t;
      }
      var digest := hash(fed);
      if expected.Some? && expected.value != digest {
        Discard();
        return Err(Integrity), t;
      }
      if ParentIsFile(t, path) {
        Discard();
        return Err(Conflict), t;
      }
      if failAt == 1 {
        Discard();
        return Err(Io), t;
      }
      t := MakeDirs(t, path);
      if path in t.dirs {
        assert path !in Parents(path);
        assert Shaped(tree) ==> t == tree;
        Discard();
        return Err(Conflict), t;
      }
      if failAt == 2 {
        Discard();
        return Err(Io), t;
      }
      t := Rename(t, path, temp.value);
      temp := None;
      done := true;
      return Ok(FileEntry(path, size, digest)), t;
    }

    /** Upload's move assignment (upload.cpp:46-60): the target drops its own temp file and
        takes over the other's, path and all; the source is finished. Assigning an upload to
        itself does nothing. */
    method TakeOver(other: Upload)
      requires Valid() && other.Valid()
      modifies this, other
      ensures Valid() && other.Valid()
      ensures path == old(other.path) && temp == old(other.temp) && fed == old(other.fed) && done == old(other.done)
      ensures this != other ==> other.done
    {
      if this == other {
        return;
      }
      if !done {
        Discard();
      }
      temp, fed, path, size, done := other.temp, other.fed, other.path, other.size, other.done;
      other.done := true;
      other.temp := None;
    }

    /** The upload loop of the request handler (src/lib/api/handlers.cpp:193-208), with the
        connection breaking after `arrive` chunks at the latest and the disk refusing the
        write of chunk `full`. Either all bytes are stored under the path in one step, or the
        stored files are as before: there is never a partial file. */
    method UploadWhole(chunks: seq<Bytes>, arrive: nat, full: nat, expected: Option<Digest>, tree: Tree, failAt: nat)
      returns (r: Result<FileEntry>, t: Tree)
      requires Valid() && !done && fed == []
      modifies this
      ensures Valid() && done
      ensures r.Ok? ==> && arrive >= |chunks| && (full < |chunks| ==> chunks[full] == [])
                        && t.files == tree.files[old(path) := Concat(chunks)]
                        && r.value == FileEntry(old(path), |Concat(chunks)|, hash(Concat(chunks)))
      ensures r.Err? ==> t.files == tree.files
    {
      for i := 0 to |chunks|
        invariant Valid() && !done && fed == Concat(chunks[..i]) && i <= arrive && path == old(path)
        invariant full < i ==> chunks[full] == []
      {
        if i == arrive {
          Discard();
          return Err(Unavailable), tree;
        }
        assert chunks[..i + 1][..i] == chunks[..i];
        var w := Write(chunks[i], i != full, true);
        if w.Err? {
          return Err(w.code), tree;
        }
      }
      assert chunks[..|chunks|] == chunks;
      r, t := Commit(expected, tree, failAt);
    }
  }

  /** FileStore::read_document (documents.cpp:38-54): the loop over a fixed buffer returns the
      whole document, or an error if the disk can only give `readable` bytes of it. */
  method ReadDocument(content: string, buffer: nat, readable: nat) returns (r: Result<string>)
    requires buffer > 0
    ensures r == if readable < |content| then Err(Io) else Ok(content)
  {
    var out := "";
    var there := if readable < |content| then readable else |content|;
    while true
      invariant |out| <= there && out == content[..|out|]
      decreases there - |out|
    {
      var n := if there - |out| < buffer then there - |out| else buffer;
      out := out + content[|out|..|out| + n];
      if n < buffer {
        if there < |content| {
          return Err(Io);
        }
        assert out == content;
        break;
      }
    }
    return Ok(out);
  }
}
