/** Splitting text at a character, as string_view::find does step by step. */
module Strings {

  /** Index of the first c in s, |s| if there is none. */
  function IndexOf(s: string, c: char): (k: nat)
    ensures k <= |s|
    ensures forall i :: 0 <= i < k ==> s[i] != c
    ensures k < |s| ==> s[k] == c
  {
    if s == [] || s[0] == c then 0 else 1 + IndexOf(s[1..], c)
  }

  /** The pieces of s between the separators; always at least one. */
  function Split(s: string, c: char): (parts: seq<string>)
    ensures |parts| >= 1
  {
    var k := IndexOf(s, c);
    if k == |s| then [s] else [s[..k]] + Split(s[k + 1..], c)
  }

  function Join(parts: seq<string>, c: char): string {
    if parts == [] then ""
    else if |parts| == 1 then parts[0]
    else parts[0] + [c] + Join(parts[1..], c)
  }

  lemma {:induction false} JoinSplit(s: string, c: char)
    ensures Join(Split(s, c), c) == s
  {
    hide IndexOf;
    var k := IndexOf(s, c);
    if k < |s| {
      JoinSplit(s[k + 1..], c);
      var rest := Split(s[k + 1..], c);
      assert Split(s, c)[1..] == rest;
      assert s == s[..k] + [c] + s[k + 1..];
    }
  }

  lemma {:induction false} SplitJoin(parts: seq<string>, c: char)
    requires |parts| >= 1 && forall i :: 0 <= i < |parts| ==> c !in parts[i]
    ensures Split(Join(parts, c), c) == parts
  {
    var s := Join(parts, c);
    if |parts| == 1 {
      assert parts == [s];
    } else {
      var rest := Join(parts[1..], c);
      var k := |parts[0]|;
      assert s == parts[0] + [c] + rest;
      assert s[k] == c && forall i :: 0 <= i < k ==> s[i] == parts[0][i] && s[i] != c;
      assert IndexOf(s, c) == k;
      assert s[..k] == parts[0] && s[k + 1..] == rest;
      SplitJoin(parts[1..], c);
      assert parts == [parts[0]] + parts[1..];
    }
  }
}

/** RelativePath (src/lib/common/path_sanitizer.cpp) and TransactionId
    (src/lib/common/id.cpp): the two validated text types. */
module Paths {
  import opened Basics
  import opened Strings

  const MAX_PATH_BYTES := 4096
  const MAX_COMPONENT_BYTES := 255

  predicate ForbiddenChar(c: char) {
    c < ' ' || c == '\U{7f}' || c == '\\' || c == ':'
  }

  predicate ComponentOk(part: string) {
    part != "" && part != "." && part != ".." && |part| <= MAX_COMPONENT_BYTES
  }

  /** The texts RelativePath::parse accepts, unchanged. */
  predicate ValidPath(p: string) {
    && 0 < |p| <= MAX_PATH_BYTES
    && (forall i :: 0 <= i < |p| ==> !ForbiddenChar(p[i]))
    && AllComponentsOk(p)
  }

  predicate AllComponentsOk(p: string) {
    forall part :: part in Split(p, '/') ==> ComponentOk(part)
  }

  // --- Where a path leads -----------------------------------------------------------------

  /** Walking a path component by component from a folder: `..` goes up, `.` and an empty
      piece stay, anything else goes down. The folder is a stack of names below the root; None
      once the walk has left the root. */
  function Walk(at: seq<string>, pieces: seq<string>): Option<seq<string>>
    decreases pieces
  {
    if pieces == [] then Some(at)
    else if pieces[0] == ".." then (if at == [] then None else Walk(at[..|at| - 1], pieces[1..]))
    else if pieces[0] == "." || pieces[0] == "" then Walk(at, pieces[1..])
    else Walk(at + [pieces[0]], pieces[1..])
  }

  /** No piece makes the walk stay or go up. */
  predicate OnlyDown(pieces: seq<string>) {
    forall i :: 0 <= i < |pieces| ==> pieces[i] != "" && pieces[i] != "." && pieces[i] != ".."
  }

  lemma {:induction false} WalkIsShorter(at: seq<string>, pieces: seq<string>)
    ensures Walk(at, pieces).Some? ==>
              && |Walk(at, pieces).value| <= |at| + |pieces|
              && (|Walk(at, pieces).value| == |at| + |pieces| ==> OnlyDown(pieces))
    decreases pieces
  {
    if pieces != [] {
      var rest := pieces[1..];
      if pieces[0] == ".." {
        if at != [] { WalkIsShorter(at[..|at| - 1], rest); }
      } else if pieces[0] == "." || pieces[0] == "" {
        WalkIsShorter(at, rest);
      } else {
        WalkIsShorter(at + [pieces[0]], rest);
        assert forall i :: 0 < i < |pieces| ==> pieces[i] == rest[i - 1];
      }
    }
  }

  lemma {:induction false} OnlyDownWalks(at: seq<string>, pieces: seq<string>)
    requires OnlyDown(pieces)
    ensures Walk(at, pieces) == Some(at + pieces)
    decreases pieces
  {
    if pieces == [] {
      assert at + pieces == at;
    } else {
      OnlyDownWalks(at + [pieces[0]], pieces[1..]);
      assert at + [pieces[0]] + pieces[1..] == at + pieces;
    }
  }

  /** An accepted path never leaves the folder it is resolved in and never turns back: each
      piece of it, from any folder, leads one level down, so it names exactly the file whose
      components are its own. It is not absolute. */
  lemma AcceptedStaysBelow(p: string, root: seq<string>, n: nat)
    requires ValidPath(p) && n <= |Split(p, '/')|
    ensures Walk(root, Split(p, '/')[..n]) == Some(root + Split(p, '/')[..n])
    ensures p[0] != '/'
  {
    var pieces := Split(p, '/');
    if p[0] == '/' { LeadingSlash(p); }
    forall i | 0 <= i < |pieces| ensures pieces[i] != "" && pieces[i] != "." && pieces[i] != ".." {
      assert pieces[i] in pieces;
    }
    OnlyDownWalks(root, pieces[..n]);
  }

  /** What is accepted, exactly: 1 to 4096 bytes, without control characters, backslash and
      colon, in components of at most 255 bytes that all lead down. In particular every text
      with a component that would go up is refused. */
  lemma AcceptedExactly(p: string)
    ensures ValidPath(p) <==>
              && 1 <= |p| <= 4096
              && (forall i :: 0 <= i < |p| ==> p[i] >= ' ' && p[i] != '\U{7f}' && p[i] != '\\' && p[i] != ':')
              && (forall i :: 0 <= i < |Split(p, '/')| ==> |Split(p, '/')[i]| <= 255)
              && Walk([], Split(p, '/')) == Some(Split(p, '/'))
    ensures ".." in Split(p, '/') ==> !ValidPath(p)
  {
    var pieces := Split(p, '/');
    if ValidPath(p) {
      AcceptedStaysBelow(p, [], |pieces|);
      assert pieces[..|pieces|] == pieces && [] + pieces == pieces;
      forall i | 0 <= i < |pieces| ensures |pieces[i]| <= 255 { assert pieces[i] in pieces; }
    } else if Walk([], pieces) == Some(pieces) {
      WalkIsShorter([], pieces);
      assert OnlyDown(pieces);
    }
  }

  predicate ValidId(s: string) {
    && |s| == 36
    && (forall i :: 0 <= i < 36 ==>
          if i == 8 || i == 13 || i == 18 || i == 23 then s[i] == '-'
          else '0' <= s[i] <= '9' || 'a' <= s[i] <= 'f')
    && s[14] == '4' && s[19] in ['8', '9', 'a', 'b']
  }

  lemma LeadingSlash(p: string)
    requires p != [] && p[0] == '/'
    ensures "" in Split(p, '/')
  {
    assert IndexOf(p, '/') == 0;
    assert p[..0] == "" && Split(p, '/')[0] == "";
  }

  /** RelativePath::parse (path_sanitizer.cpp:22-59): rejects, never rewrites. */
  method ParsePath(raw: string) returns (r: Result<string>)
    ensures r == if ValidPath(raw) then Ok(raw) else Err(Validation)
  {
    if raw == "" || |raw| > MAX_PATH_BYTES {
      return Err(Validation);
    }
    if raw[0] == '/' {
      LeadingSlash(raw);
      return Err(Validation);
    }
    for i := 0 to |raw|
      invariant forall j :: 0 <= j < i ==> !ForbiddenChar(raw[j])
    {
      if ForbiddenChar(raw[i]) {
        return Err(Validation);
      }
    }
    var ok := ScanComponents(raw);
    return if ok then Ok(raw) else Err(Validation);
  }

  lemma ComponentStep(s: string)
    ensures var k := IndexOf(s, '/');
            AllComponentsOk(s) <==> ComponentOk(s[..k]) && (k == |s| || AllComponentsOk(s[k + 1..]))
  {
    var k := IndexOf(s, '/');
    assert s[..|s|] == s;
    assert Split(s, '/')[0] == s[..k];
    if k < |s| {
      assert Split(s, '/') == [s[..k]] + Split(s[k + 1..], '/');
    }
  }

  /** The scan with a moving start (path_sanitizer.cpp:39-56). */
  method ScanComponents(raw: string) returns (ok: bool)
    ensures ok == AllComponentsOk(raw)
  {
    hide AllComponentsOk, IndexOf, ComponentOk;
    var start := 0;
    assert raw[0..] == raw;
    while true
      invariant 0 <= start <= |raw|
      invariant AllComponentsOk(raw) == AllComponentsOk(raw[start..])
      decreases |raw| - start
    {
      ComponentStep(raw[start..]);
      var len := FindSlash(raw, start);
      assert raw[start..][..len] == raw[start..start + len];
      if !ComponentOk(raw[start..start + len]) {
        return false;
      }
      if start + len == |raw| {
        return true;
      }
      assert raw[start..][len + 1..] == raw[start + len + 1..];
      start := start + len + 1;
    }
  }

  /** raw.find('/', start), as an offset from start. */
  method FindSlash(raw: string, start: nat) returns (len: nat)
    requires start <= |raw|
    ensures len == IndexOf(raw[start..], '/')
  {
    len := 0;
    while start + len < |raw| && raw[start + len] != '/'
      invariant start + len <= |raw|
      invariant forall i :: 0 <= i < len ==> raw[start..][i] != '/'
    {
      len := len + 1;
    }
    assert start + len < |raw| ==> raw[start..][len] == '/';
  }
}
