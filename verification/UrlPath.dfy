/** Carrying a file path in a request target: percent-encoding by the sender
    (src/lib/net/url.cpp:47-64), decoding, splitting and matching by the router
    (src/lib/api/router.cpp). Characters stand for bytes. */
module UrlPath {
  import opened Basics
  import opened Strings
  import opened Paths

  // --- Percent-encoding -----------------------------------------------------------

  /** The unreserved characters of section 2.3 of RFC 3986, and the separator. */
  predicate Kept(c: char) {
    || 'a' <= c <= 'z' || 'A' <= c <= 'Z' || '0' <= c <= '9'
    || c == '-' || c == '.' || c == '_' || c == '~' || c == '/'
  }

  predicate IsByte(c: char) {
    c as int < 256
  }

  function UpperHex(n: int): (c: char)
    requires 0 <= n < 16
    ensures Kept(c) && c != '/'
  {
    if n < 10 then (n + '0' as int) as char else (n - 10 + 'A' as int) as char
  }

  /** hex_value, -1 for other characters. */
  function HexValue(c: char): (n: int)
    ensures -1 <= n < 16
  {
    if '0' <= c <= '9' then c as int - '0' as int
    else if 'a' <= c <= 'f' then c as int - 'a' as int + 10
    else if 'A' <= c <= 'F' then c as int - 'A' as int + 10
    else -1
  }

  function EncodeChar(c: char): string
    requires IsByte(c)
  {
    if Kept(c) then [c] else ['%', UpperHex(c as int / 16), UpperHex(c as int % 16)]
  }

  predicate AllBytes(s: string) {
    forall i :: 0 <= i < |s| ==> IsByte(s[i])
  }

  function Encode(s: string): string
    requires AllBytes(s)
  {
    if s == [] then [] else EncodeChar(s[0]) + Encode(s[1..])
  }

  function Decode(text: string): Result<string> {
    if text == [] then Ok([])
    else if text[0] != '%' then
      var rest :- Decode(text[1..]);
      Ok([text[0]] + rest)
    else if |text| < 3 then Err(Validation)
    else
      var hi, lo := HexValue(text[1]), HexValue(text[2]);
      if hi < 0 || lo < 0 || hi * 16 + lo == 0 then Err(Validation)
      else
        var rest :- Decode(text[3..]);
        Ok([(hi * 16 + lo) as char] + rest)
  }

  lemma DecodeEncodedChar(c: char, rest: string)
    requires IsByte(c)
    ensures Decode(EncodeChar(c) + rest) ==
            if c == '\0' then Err(Validation)
            else if Decode(rest).Ok? then Ok([c] + Decode(rest).value) else Decode(rest)
  {
    var text := EncodeChar(c) + rest;
    if Kept(c) {
      assert text[0] == c && text[1..] == rest;
    } else {
      var n := c as int;
      assert text[0] == '%' && text[1] == UpperHex(n / 16) && text[2] == UpperHex(n % 16) && text[3..] == rest;
      assert HexValue(text[1]) == n / 16 && HexValue(text[2]) == n % 16;
    }
  }

  /** Decoding undoes encoding for every byte string but those with a NUL, which the
      decoder refuses. */
  lemma {:induction false} DecodeEncoded(s: string)
    requires AllBytes(s)
    ensures Decode(Encode(s)) == if '\0' in s then Err(Validation) else Ok(s)
  {
    if s != [] {
      DecodeEncoded(s[1..]);
      DecodeEncodedChar(s[0], Encode(s[1..]));
      assert s == [s[0]] + s[1..];
    }
  }

  predicate IsHexDigit(c: char) {
    '0' <= c <= '9' || 'a' <= c <= 'f' || 'A' <= c <= 'F'
  }

  /** Every percent sign starts an escape of two hex digits, and none of them is NUL. */
  predicate Escaped(text: string) {
    forall i :: 0 <= i < |text| && text[i] == '%' ==>
      i + 2 < |text| && IsHexDigit(text[i + 1]) && IsHexDigit(text[i + 2]) && !(text[i + 1] == '0' && text[i + 2] == '0')
  }

  /** What the decoder accepts, exactly. */
  lemma {:induction false} DecodesExactly(text: string)
    ensures Decode(text).Ok? <==> Escaped(text)
  {
    if text != [] {
      var n := if text[0] != '%' then 1 else 3;
      if n <= |text| {
        DecodesExactly(text[n..]);
        assert forall i :: n <= i < |text| ==> text[i] == text[n..][i - n];
        if Escaped(text) {
          EscapedRest(text, n);
        } else if Escaped(text[n..]) {
          EscapedAll(text, n);
        }
      }
    }
  }

  lemma EscapedRest(text: string, n: nat)
    requires n <= |text| && Escaped(text)
    ensures Escaped(text[n..])
  {
    var rest := text[n..];
    forall i | 0 <= i < |rest| && rest[i] == '%'
      ensures i + 2 < |rest| && IsHexDigit(rest[i + 1]) && IsHexDigit(rest[i + 2]) && !(rest[i + 1] == '0' && rest[i + 2] == '0')
    {
      assert text[n + i] == '%';
    }
  }

  /** If what follows the first character, or the first escape, is fine, the fault is there. */
  lemma EscapedAll(text: string, n: nat)
    requires 0 < |text| && n == (if text[0] != '%' then 1 else 3) && n <= |text| && Escaped(text[n..])
    ensures !Escaped(text) ==>
              text[0] == '%' && (!IsHexDigit(text[1]) || !IsHexDigit(text[2]) || (text[1] == '0' && text[2] == '0'))
  {
    if text[0] != '%' || (IsHexDigit(text[1]) && IsHexDigit(text[2]) && !(text[1] == '0' && text[2] == '0')) {
      var rest := text[n..];
      forall i | 0 <= i < |text| && text[i] == '%'
        ensures i + 2 < |text| && IsHexDigit(text[i + 1]) && IsHexDigit(text[i + 2])
                && !(text[i + 1] == '0' && text[i + 2] == '0')
      {
        if i >= n { assert rest[i - n] == '%'; }
      }
    }
  }

  /** An escape stands for its byte, its digits in either case. */
  lemma EscapeReads(n: int, hi: char, lo: char, rest: string)
    requires 0 < n < 256 && Decode(rest).Ok?
    requires hi in ["0123456789abcdef"[n / 16], "0123456789ABCDEF"[n / 16]]
    requires lo in ["0123456789abcdef"[n % 16], "0123456789ABCDEF"[n % 16]]
    ensures Decode(['%', hi, lo] + rest) == Ok([n as char] + Decode(rest).value)
  {
    DigitsValue(n / 16);
    DigitsValue(n % 16);
    hide HexValue;
    var text := ['%', hi, lo] + rest;
    assert text[3..] == rest;
  }

  lemma DigitsValue(n: int)
    requires 0 <= n < 16
    ensures HexValue("0123456789abcdef"[n]) == n && HexValue("0123456789ABCDEF"[n]) == n
  {}

  /** Percent-encoding of one byte, by sections 2.1 and 2.3 of RFC 3986: unreserved characters
      and the separator stay, any other byte becomes its two upper-case hex digits. */
  lemma EncodeCharIs(c: char)
    requires IsByte(c)
    ensures EncodeChar(c) ==
            if 'a' <= c <= 'z' || 'A' <= c <= 'Z' || '0' <= c <= '9' || c in {'-', '.', '_', '~', '/'} then [c]
            else ['%', "0123456789ABCDEF"[c as int / 16], "0123456789ABCDEF"[c as int % 16]]
  {
    UpperHexIs(c as int / 16);
    UpperHexIs(c as int % 16);
  }

  lemma UpperHexIs(n: int)
    requires 0 <= n < 16
    ensures UpperHex(n) == "0123456789ABCDEF"[n]
  {}

  lemma {:induction false} EncodedChars(s: string)
    requires AllBytes(s)
    ensures forall c :: c in Encode(s) ==> Kept(c) || c == '%'
  {
    if s != [] {
      EncodedChars(s[1..]);
    }
  }

  lemma {:induction false} EncodeConcat(a: string, b: string)
    requires AllBytes(a) && AllBytes(b)
    ensures AllBytes(a + b) && Encode(a + b) == Encode(a) + Encode(b)
  {
    hide EncodeChar;
    if a == [] {
      assert a + b == b;
    } else {
      EncodeConcat(a[1..], b);
      assert (a + b)[1..] == a[1..] + b;
    }
  }

  lemma {:induction false} EncodeKeepsOut(s: string)
    requires AllBytes(s) && '/' !in s
    ensures '/' !in Encode(s)
  {
    if s != [] {
      EncodeKeepsOut(s[1..]);
    }
  }

  lemma FirstSlash(a: string, b: string)
    requires '/' !in a
    ensures Split(a + "/" + b, '/') == [a] + Split(b, '/')
  {
    var s := a + "/" + b;
    assert s[|a|] == '/' && forall i :: 0 <= i < |a| ==> s[i] == a[i];
    assert IndexOf(s, '/') == |a|;
    assert s[..|a|] == a && s[|a| + 1..] == b;
  }

  lemma NoSlash(a: string)
    requires '/' !in a
    ensures Split(a, '/') == [a]
  {
    assert IndexOf(a, '/') == |a|;
  }

  // --- The router ---------------------------------------------------------------------

  /** The first failure, or everything decoded. */
  function DecodeAll(parts: seq<string>): Result<seq<string>> {
    if parts == [] then Ok([])
    else
      var first :- Decode(parts[0]);
      var rest :- DecodeAll(parts[1..]);
      Ok([first] + rest)
  }

  lemma DecodeCons(part: string, text: string, rest: seq<string>)
    requires Decode(part) == Ok(text) && DecodeAll(rest).Ok?
    ensures DecodeAll([part] + rest) == Ok([text] + DecodeAll(rest).value)
  {
    assert ([part] + rest)[1..] == rest;
  }

  lemma NothingDecodes()
    ensures DecodeAll([]) == Ok([])
  {}

  lemma {:induction false} EncodeAround(a: string, b: string)
    requires AllBytes(a) && AllBytes(b)
    ensures AllBytes(a + "/" + b) && Encode(a + "/" + b) == Encode(a) + "/" + Encode(b)
  {
    EncodeConcat(a + "/", b);
    EncodeConcat(a, "/");
    assert Encode("/") == "/" by { assert "/"[1..] == ""; }
  }

  /** Splitting an encoded path at its slashes and decoding each piece gives the
      components of the path. */
  lemma {:induction false} PiecesDecode(p: string)
    requires AllBytes(p) && '\0' !in p
    ensures DecodeAll(Split(Encode(p), '/')) == Ok(Split(p, '/'))
    decreases |p|
  {
    hide Split, DecodeAll, Encode, Decode;
    var k := IndexOf(p, '/');
    if k == |p| {
      NothingDecodes();
      EncodeKeepsOut(p);
      NoSlash(p);
      NoSlash(Encode(p));
      DecodeEncoded(p);
      DecodeCons(Encode(p), p, []);
      assert [Encode(p)] + [] == [Encode(p)] && [p] + [] == [p];
    } else {
      var a, b := p[..k], p[k + 1..];
      assert p == a + "/" + b;
      EncodeAround(a, b);
      EncodeKeepsOut(a);
      FirstSlash(a, b);
      FirstSlash(Encode(a), Encode(b));
      DecodeEncoded(a);
      PiecesDecode(b);
      DecodeCons(Encode(a), a, Split(Encode(b), '/'));
    }
  }

  datatype Segment = Literal(text: string) | Param(name: string) | Rest(name: string)

  type Params = map<string, string>

  /** std::unordered_map::emplace: an existing value stays. */
  function Emplace(params: Params, name: string, value: string): Params {
    if name in params then params else params[name := value]
  }

  /** match_segments from the i-th segments on. */
  function Fit(pattern: seq<Segment>, path: seq<string>, params: Params): Option<Params>
    decreases pattern
  {
    if pattern == [] then
      if path == [] then Some(params) else None
    else if path == [] then None
    else match pattern[0]
      case Literal(text) => if text == path[0] then Fit(pattern[1..], path[1..], params) else None
      case Param(name) => if path[0] == "" then None else Fit(pattern[1..], path[1..], Emplace(params, name, path[0]))
      case Rest(name) => if path[0] == "" then None else Some(Emplace(params, name, Join(path, '/')))
  }

  datatype Verb = Get | Post | Put | Delete

  datatype Route = Route(verb: Verb, pattern: seq<Segment>)

  datatype Found = Found(route: Route, params: Params)

  datatype Match = Match(route: Route, params: Params, query: Params)

  /** The loop over the entries: the first that fits with the right verb. */
  function Pick(routes: seq<Route>, verb: Verb, path: seq<string>, pathMatched: bool): Result<Found> {
    if routes == [] then
      if pathMatched then Err(Conflict) else Err(NotFound)
    else
      var params := Fit(routes[0].pattern, path, map[]);
      if params.Some? && routes[0].verb == verb then Ok(Found(routes[0], params.value))
      else Pick(routes[1..], verb, path, pathMatched || params.Some?)
  }

  // --- What fits a pattern ----------------------------------------------------------------

  /** What Router::add lets in: a rest parameter only at the end, and no name twice. */
  predicate WellFormed(pattern: seq<Segment>) {
    && (forall i :: 0 <= i < |pattern| && pattern[i].Rest? ==> i == |pattern| - 1)
    && (forall i, j :: 0 <= i < j < |pattern| && !pattern[i].Literal? && !pattern[j].Literal? ==>
          pattern[i].name != pattern[j].name)
  }

  /** The path has the pattern's literals where the pattern has them, something where it has a
      parameter, and as many segments as it asks for. */
  predicate Suits(pattern: seq<Segment>, path: seq<string>) {
    var n := |pattern|;
    && (if n > 0 && pattern[n - 1].Rest? then |path| >= n else |path| == n)
    && forall i :: 0 <= i < n ==> if pattern[i].Literal? then path[i] == pattern[i].text else path[i] != ""
  }

  /** The parameters are what stands in their places. */
  ghost predicate Captured(pattern: seq<Segment>, path: seq<string>, params: Params) {
    forall i :: 0 <= i < |pattern| <= |path| && !pattern[i].Literal? ==>
      && pattern[i].name in params
      && params[pattern[i].name] == if pattern[i].Param? then path[i] else Join(path[i..], '/')
  }

  ghost predicate FreshNames(pattern: seq<Segment>, params: Params) {
    forall i :: 0 <= i < |pattern| && !pattern[i].Literal? ==> pattern[i].name !in params
  }

  /** A pattern fits exactly the paths that suit it, and captures exactly what stands there. */
  lemma {:induction false} FitExactly(pattern: seq<Segment>, path: seq<string>, params: Params)
    requires WellFormed(pattern) && FreshNames(pattern, params)
    ensures Fit(pattern, path, params).Some? <==> Suits(pattern, path)
    ensures Fit(pattern, path, params).Some? ==>
              && Captured(pattern, path, Fit(pattern, path, params).value)
              && forall name :: name in params ==>
                   name in Fit(pattern, path, params).value && Fit(pattern, path, params).value[name] == params[name]
    decreases pattern
  {
    if pattern != [] && path != [] && !pattern[0].Rest? {
      var rest, tail := pattern[1..], path[1..];
      var more := if pattern[0].Param? then Emplace(params, pattern[0].name, path[0]) else params;
      assert forall i :: 0 <= i < |rest| ==> rest[i] == pattern[i + 1];
      assert forall i :: 0 <= i < |tail| ==> tail[i] == path[i + 1];
      FitExactly(rest, tail, more);
      SuitsStep(pattern, path);
      if Fit(rest, tail, more).Some? {
        CapturedStep(pattern, path, Fit(rest, tail, more).value);
      }
    } else if pattern != [] && path != [] {
      assert |pattern| == 1 && path[0..] == path;
    }
  }

  lemma SuitsStep(pattern: seq<Segment>, path: seq<string>)
    requires pattern != [] && path != [] && !pattern[0].Rest?
    ensures Suits(pattern, path) <==>
              && (if pattern[0].Literal? then path[0] == pattern[0].text else path[0] != "")
              && Suits(pattern[1..], path[1..])
  {
    var rest, tail := pattern[1..], path[1..];
    if Suits(rest, tail) && (if pattern[0].Literal? then path[0] == pattern[0].text else path[0] != "") {
      forall i | 0 <= i < |pattern| ensures if pattern[i].Literal? then path[i] == pattern[i].text else path[i] != "" {
        if i > 0 { assert rest[i - 1] == pattern[i] && tail[i - 1] == path[i]; }
      }
    }
    if Suits(pattern, path) {
      forall i | 0 <= i < |rest| ensures if rest[i].Literal? then tail[i] == rest[i].text else tail[i] != "" {
        assert rest[i] == pattern[i + 1] && tail[i] == path[i + 1];
      }
    }
  }

  lemma CapturedStep(pattern: seq<Segment>, path: seq<string>, params: Params)
    requires pattern != [] && path != [] && !pattern[0].Rest? && Captured(pattern[1..], path[1..], params)
    requires pattern[0].Param? ==> pattern[0].name in params && params[pattern[0].name] == path[0]
    ensures Captured(pattern, path, params)
  {
    var rest, tail := pattern[1..], path[1..];
    forall i | 0 <= i < |pattern| <= |path| && !pattern[i].Literal?
      ensures pattern[i].name in params
              && params[pattern[i].name] == if pattern[i].Param? then path[i] else Join(path[i..], '/')
    {
      if i > 0 { assert rest[i - 1] == pattern[i] && tail[i - 1] == path[i] && tail[i - 1..] == path[i..]; }
    }
  }

  predicate Fits(route: Route, path: seq<string>) {
    Fit(route.pattern, path, map[]).Some?
  }

  /** The first route that fits with the verb is taken; without one, the answer is a conflict if
      any route fits, else that there is none. */
  lemma {:induction false} PickExactly(routes: seq<Route>, verb: Verb, path: seq<string>, matched: bool)
    ensures forall i :: 0 <= i < |routes| && Fits(routes[i], path) && routes[i].verb == verb
                        && (forall j :: 0 <= j < i ==> !(Fits(routes[j], path) && routes[j].verb == verb)) ==>
              Pick(routes, verb, path, matched) == Ok(Found(routes[i], Fit(routes[i].pattern, path, map[]).value))
    ensures (forall i :: 0 <= i < |routes| ==> !(Fits(routes[i], path) && routes[i].verb == verb)) ==>
              Pick(routes, verb, path, matched) ==
              Err(if matched || (exists i :: 0 <= i < |routes| && Fits(routes[i], path)) then Conflict else NotFound)
  {
    hide Fit;
    if routes != [] {
      var rest := routes[1..];
      var more := matched || Fits(routes[0], path);
      PickExactly(rest, verb, path, more);
      assert forall i :: 0 < i < |routes| ==> rest[i - 1] == routes[i];
      if !(Fits(routes[0], path) && routes[0].verb == verb) {
        forall i | 0 <= i < |routes| && Fits(routes[i], path) && routes[i].verb == verb
                   && (forall j :: 0 <= j < i ==> !(Fits(routes[j], path) && routes[j].verb == verb))
          ensures Pick(routes, verb, path, matched) == Ok(Found(routes[i], Fit(routes[i].pattern, path, map[]).value))
        {
          assert i > 0 && rest[i - 1] == routes[i];
          forall j | 0 <= j < i - 1 ensures !(Fits(rest[j], path) && rest[j].verb == verb) { assert rest[j] == routes[j + 1]; }
        }
        assert (exists i :: 0 <= i < |routes| && Fits(routes[i], path)) <==>
               Fits(routes[0], path) || (exists i :: 0 <= i < |rest| && Fits(rest[i], path)) by {
          if i :| 0 <= i < |routes| && Fits(routes[i], path) {
            if i > 0 { assert Fits(rest[i - 1], path); }
          }
          if i :| 0 <= i < |rest| && Fits(rest[i], path) { assert Fits(routes[i + 1], path); }
        }
      }
    }
  }

  function SplitPath(text: string): seq<string>
    requires text != [] && text[0] == '/'
  {
    if text == "/" then [] else Split(text[1..], '/')
  }

  /** The query parameters of `key=value` pieces, in order: empty pieces are skipped, a
      missing `=` gives an empty value, a repeated key keeps its last value. */
  function QueryOf(pieces: seq<string>, query: Params): Result<Params> {
    if pieces == [] then Ok(query)
    else if pieces[0] == "" then QueryOf(pieces[1..], query)
    else
      var eq := IndexOf(pieces[0], '=');
      var key :- Decode(pieces[0][..eq]);
      var value :- Decode(if eq == |pieces[0]| then "" else pieces[0][eq + 1..]);
      QueryOf(pieces[1..], query[key := value])
  }

  /** The text after the first question mark. */
  function QueryText(target: string): string {
    var q := IndexOf(target, '?');
    if q == |target| then "" else target[q + 1..]
  }

  /** Router::match: a bad query is an error only for a request that fits a route. */
  function Routed(routes: seq<Route>, verb: Verb, target: string): Result<Match> {
    var path := target[..IndexOf(target, '?')];
    if path == [] || path[0] != '/' then Err(Validation)
    else
      var segments :- DecodeAll(SplitPath(path));
      var found :- Pick(routes, verb, segments, false);
      var query :- QueryOf(Split(QueryText(target), '&'), map[]);
      Ok(Match(found.route, found.params, query))
  }

  /** Reading the rest of the path back: the last parameter of a pattern that has fit
      so far captures the whole path. */
  lemma RestCaptures(name: string, p: string, params: Params)
    requires ValidPath(p) && name !in params
    ensures Fit([Rest(name)], Split(p, '/'), params) == Some(params[name := p])
  {
    JoinSplit(p, '/');
    var parts := Split(p, '/');
    assert parts[0] in parts;
  }

  // The routes of the file resource (handlers.cpp:66-109).
  const FILES := [Literal("transactions"), Param("id"), Literal("files"), Rest("path")]
  const INTERNAL_FILES := [Literal("internal")] + FILES

  lemma FilesFit(id: string, p: string)
    requires ValidId(id) && ValidPath(p)
    ensures Fit(FILES, ["transactions", id, "files"] + Split(p, '/'), map[]) == Some(map["id" := id, "path" := p])
  {
    var parts := Split(p, '/');
    var s0 := ["transactions", id, "files"] + parts;
    var s1 := [id, "files"] + parts;
    var s2 := ["files"] + parts;
    assert s0[1..] == s1 && s1[1..] == s2 && s2[1..] == parts;
    var f1 := [Param("id"), Literal("files"), Rest("path")];
    var f2 := [Literal("files"), Rest("path")];
    assert FILES[1..] == f1 && f1[1..] == f2 && f2[1..] == [Rest("path")];
    RestCaptures("path", p, map["id" := id]);
    assert Fit(f2, s2, map["id" := id]) == Some(map["id" := id]["path" := p]);
    assert Emplace(map[], "id", id) == map["id" := id];
    assert Fit(f1, s1, map[]) == Fit(f2, s2, map["id" := id]);
    assert map["id" := id]["path" := p] == map["id" := id, "path" := p];
  }

  lemma InternalFilesFit(id: string, p: string)
    requires ValidId(id) && ValidPath(p)
    ensures Fit(INTERNAL_FILES, ["internal", "transactions", id, "files"] + Split(p, '/'), map[])
            == Some(map["id" := id, "path" := p])
  {
    hide Split, ValidPath, ValidId;
    FilesFit(id, p);
    var s := ["internal", "transactions", id, "files"] + Split(p, '/');
    assert s[1..] == ["transactions", id, "files"] + Split(p, '/');
    assert INTERNAL_FILES[1..] == FILES;
  }

  lemma IdIsPlain(id: string)
    requires ValidId(id)
    ensures '/' !in id && '%' !in id && '?' !in id && AllBytes(id)
  {
    forall i | 0 <= i < |id| ensures id[i] != '/' && id[i] != '%' && id[i] != '?' && IsByte(id[i]) {}
  }

  lemma {:induction false} PlainDecodes(s: string)
    requires '%' !in s
    ensures Decode(s) == Ok(s)
  {
    if s != [] {
      PlainDecodes(s[1..]);
      assert s == [s[0]] + s[1..];
    }
  }

  lemma PathIsPlain(p: string)
    requires ValidPath(p) && AllBytes(p)
    ensures '\0' !in p && '?' !in Encode(p)
  {
    EncodedChars(p);
  }

  /** Segments in front of a path, each with its slash. */
  function Lead(parts: seq<string>): string {
    if parts == [] then "" else parts[0] + "/" + Lead(parts[1..])
  }

  predicate Plain(s: string) {
    '/' !in s && '%' !in s && '?' !in s
  }

  lemma {:induction false} LeadSplits(parts: seq<string>, tail: string)
    requires forall i :: 0 <= i < |parts| ==> Plain(parts[i])
    requires DecodeAll(Split(tail, '/')).Ok?
    ensures DecodeAll(Split(Lead(parts) + tail, '/')) == Ok(parts + DecodeAll(Split(tail, '/')).value)
  {
    hide Split, DecodeAll, Decode;
    if parts == [] {
      assert parts + DecodeAll(Split(tail, '/')).value == DecodeAll(Split(tail, '/')).value;
      assert Lead(parts) + tail == tail;
    } else {
      var rest := parts[1..];
      LeadSplits(rest, tail);
      assert Lead(parts) + tail == parts[0] + "/" + (Lead(rest) + tail);
      FirstSlash(parts[0], Lead(rest) + tail);
      PlainDecodes(parts[0]);
      DecodeCons(parts[0], parts[0], Split(Lead(rest) + tail, '/'));
      var last := DecodeAll(Split(tail, '/')).value;
      assert parts + last == [parts[0]] + (rest + last);
    }
  }

  lemma {:induction false} LeadHasNoQuery(parts: seq<string>)
    requires forall i :: 0 <= i < |parts| ==> Plain(parts[i])
    ensures '?' !in Lead(parts)
  {
    if parts != [] {
      LeadHasNoQuery(parts[1..]);
    }
  }

  /** A target made of plain segments and an encoded path arrives as those segments and
      the components of the path. */
  lemma TargetArrives(routes: seq<Route>, verb: Verb, lead: seq<string>, p: string)
    requires forall i :: 0 <= i < |lead| ==> Plain(lead[i])
    requires ValidPath(p) && AllBytes(p)
    ensures var found := Pick(routes, verb, lead + Split(p, '/'), false);
            Routed(routes, verb, "/" + Lead(lead) + Encode(p)) ==
            if found.Ok? then Ok(Match(found.value.route, found.value.params, map[])) else Err(found.code)
  {
    hide ValidPath, Encode, DecodeAll, Split, Lead, Pick, QueryOf;
    NothingQueried(map[]);
    PathIsPlain(p);
    PiecesDecode(p);
    LeadSplits(lead, Encode(p));
    LeadHasNoQuery(lead);
    EncodedIsThere(p);
    var rest := Lead(lead) + Encode(p);
    var target := "/" + Lead(lead) + Encode(p);
    assert target == "/" + rest && target[1..] == rest;
    assert '?' !in target;
    assert target[..IndexOf(target, '?')] == target;
  }

  lemma EncodedIsThere(p: string)
    requires ValidPath(p) && AllBytes(p)
    ensures Encode(p) != ""
  {}

  /** An entry that the loop passes over for this verb. */
  predicate Passed(route: Route, verb: Verb, path: seq<string>) {
    route.verb != verb || Fit(route.pattern, path, map[]).None?
  }

  lemma {:induction false} PickSkips(before: seq<Route>, routes: seq<Route>, verb: Verb, path: seq<string>, matched: bool)
    requires forall i :: 0 <= i < |before| ==> Passed(before[i], verb, path)
    requires Pick(routes, verb, path, false).Ok?
    ensures Pick(before + routes, verb, path, matched) == Pick(routes, verb, path, false)
    decreases |before|
  {
    if before == [] {
      assert before + routes == routes;
      FlagIsForErrors(routes, verb, path, matched, false);
    } else {
      var all := before + routes;
      assert all[0] == before[0] && all[1..] == before[1..] + routes;
      PickSkips(before[1..], routes, verb, path, matched || Fit(before[0].pattern, path, map[]).Some?);
    }
  }

  lemma {:induction false} FlagIsForErrors(routes: seq<Route>, verb: Verb, path: seq<string>, a: bool, b: bool)
    requires Pick(routes, verb, path, b).Ok?
    ensures Pick(routes, verb, path, a) == Pick(routes, verb, path, b)
  {
    var fits := Fit(routes[0].pattern, path, map[]).Some?;
    if !(fits && routes[0].verb == verb) {
      FlagIsForErrors(routes[1..], verb, path, a || fits, b || fits);
    }
  }

  // The routes of the transaction handlers (handlers.cpp:37-109), in their order.
  const TRANSACTIONS := Literal("transactions")
  const ID := Param("id")
  const TRANSACTION_ROUTES := [
    Route(Post, [TRANSACTIONS]),
    Route(Get, [TRANSACTIONS]),
    Route(Get, [TRANSACTIONS, ID]),
    Route(Post, [TRANSACTIONS, ID, Literal("commit")]),
    Route(Get, [TRANSACTIONS, ID, Literal("files")]),
    Route(Put, FILES),
    Route(Get, FILES),
    Route(Delete, FILES),
    Route(Post, [Literal("internal"), TRANSACTIONS]),
    Route(Get, [Literal("internal"), TRANSACTIONS, ID]),
    Route(Put, INTERNAL_FILES),
    Route(Post, [Literal("internal"), TRANSACTIONS, ID, Literal("commit")])]

  /** The path of a push travels whole: whatever valid path the forwarder encodes into
      the target of an upload, the peer's router picks the internal upload route and
      captures the id and that very path, which parses back unchanged. Other routes may
      come before, if their first segment is another literal. */
  lemma PathTravels(before: seq<Route>, after: seq<Route>, id: string, p: string)
    requires ValidId(id) && ValidPath(p) && AllBytes(p)
    requires forall i :: 0 <= i < |before| ==>
               before[i].pattern != [] && before[i].pattern[0].Literal? && before[i].pattern[0].text != "internal"
    ensures Routed(before + TRANSACTION_ROUTES + after, Put, PushTarget(id, p))
            == Ok(Match(Route(Put, INTERNAL_FILES), map["id" := id, "path" := p], map[]))
  {
    hide ValidPath, Encode, Pick, Routed, ValidId;
    var lead := ["internal", "transactions", id, "files"];
    var path := lead + Split(p, '/');
    LeadOfPush(id, p);
    LeadIsPlain(id);
    var routes := before + TRANSACTION_ROUTES + after;
    TargetArrives(routes, Put, lead, p);
    InternalFilesFit(id, p);
    var skipped := before + TRANSACTION_ROUTES[..10];
    var rest := [Route(Put, INTERNAL_FILES)] + (TRANSACTION_ROUTES[11..] + after);
    assert routes == skipped + rest;
    assert TRANSACTION_ROUTES[10] == Route(Put, INTERNAL_FILES);
    forall i | 0 <= i < |skipped| ensures Passed(skipped[i], Put, path) {
      if i >= |before| {
        TableIsPassed(i - |before|, path);
      }
    }
    PickFirst(rest, Put, path);
    PickSkips(skipped, rest, Put, path, false);
  }

  lemma PickFirst(routes: seq<Route>, verb: Verb, path: seq<string>)
    requires routes != [] && routes[0].verb == verb && Fit(routes[0].pattern, path, map[]).Some?
    ensures Pick(routes, verb, path, false) == Ok(Found(routes[0], Fit(routes[0].pattern, path, map[]).value))
  {}

  lemma TableIsPassed(i: nat, path: seq<string>)
    requires i < 10 && path != [] && path[0] == "internal"
    ensures Passed(TRANSACTION_ROUTES[i], Put, path)
  {}

  lemma LeadIsPlain(id: string)
    requires ValidId(id)
    ensures forall i :: 0 <= i < 4 ==> Plain(["internal", "transactions", id, "files"][i])
  {
    IdIsPlain(id);
  }

  /** The target of an upload as push() builds it (forwarder.cpp:161 and 188). */
  function PushTarget(id: string, p: string): string
    requires AllBytes(p)
  {
    "/internal/transactions" + "/" + id + "/files/" + Encode(p)
  }

  lemma LeadOfPush(id: string, p: string)
    requires AllBytes(p)
    ensures PushTarget(id, p) == "/" + Lead(["internal", "transactions", id, "files"]) + Encode(p)
  {
    var a, b, d := "internal", "transactions", "files";
    assert "/internal/transactions" == "/" + a + "/" + b && "/files/" == "/" + d + "/";
    LeadOfFour(a, b, id, d);
  }

  lemma LeadOfFour(a: string, b: string, c: string, d: string)
    ensures "/" + Lead([a, b, c, d]) == "/" + a + "/" + b + "/" + c + ("/" + d + "/")
  {
    assert [a, b, c, d][1..] == [b, c, d] && [b, c, d][1..] == [c, d] && [c, d][1..] == [d] && [d][1..] == [];
    assert Lead([d]) == d + "/";
    assert Lead([c, d]) == c + "/" + (d + "/");
    assert Lead([b, c, d]) == b + "/" + (c + "/" + (d + "/"));
    assert Lead([a, b, c, d]) == a + "/" + (b + "/" + (c + "/" + (d + "/")));
  }

  // --- Queries ------------------------------------------------------------------------------

  predicate Plainly(s: string) {
    AllBytes(s) && '\0' !in s
  }

  predicate PlainPairs(pairs: seq<(string, string)>) {
    forall i :: 0 <= i < |pairs| ==> Plainly(pairs[i].0) && Plainly(pairs[i].1)
  }

  /** How a client writes its parameters. */
  function QueryPieces(pairs: seq<(string, string)>): seq<string>
    requires PlainPairs(pairs)
  {
    seq(|pairs|, i requires 0 <= i < |pairs| => Encode(pairs[i].0) + "=" + Encode(pairs[i].1))
  }

  /** The last value given for a key. */
  function LastValue(pairs: seq<(string, string)>, key: string): Option<string> {
    if pairs == [] then None
    else if pairs[|pairs| - 1].0 == key then Some(pairs[|pairs| - 1].1)
    else LastValue(pairs[..|pairs| - 1], key)
  }

  function Lookup(query: Params, key: string): Option<string> {
    if key in query then Some(query[key]) else None
  }

  lemma {:induction false} LastValueFront(pairs: seq<(string, string)>, key: string)
    requires pairs != []
    ensures LastValue(pairs, key) ==
            if LastValue(pairs[1..], key).Some? then LastValue(pairs[1..], key)
            else if pairs[0].0 == key then Some(pairs[0].1) else None
  {
    var front, rest := pairs[..|pairs| - 1], pairs[1..];
    if |pairs| > 1 {
      LastValueFront(front, key);
      assert front[1..] == rest[..|rest| - 1] && rest[|rest| - 1] == pairs[|pairs| - 1];
    } else {
      assert front == [] && rest == [];
    }
  }

  lemma EncodedHasNoMarks(s: string)
    requires AllBytes(s)
    ensures '&' !in Encode(s) && '=' !in Encode(s) && '?' !in Encode(s)
  {
    EncodedChars(s);
  }

  lemma PieceReads(key: string, value: string)
    requires Plainly(key) && Plainly(value)
    ensures var piece := Encode(key) + "=" + Encode(value);
            && piece != "" && '&' !in piece && IndexOf(piece, '=') == |Encode(key)|
            && piece[..|Encode(key)|] == Encode(key) && piece[|Encode(key)| + 1..] == Encode(value)
    ensures Decode(Encode(key)) == Ok(key) && Decode(Encode(value)) == Ok(value)
  {
    EncodedHasNoMarks(key);
    EncodedHasNoMarks(value);
    DecodeEncoded(key);
    DecodeEncoded(value);
    hide Encode, Decode;
    var piece := Encode(key) + "=" + Encode(value);
    assert piece[|Encode(key)|] == '=' && forall i :: 0 <= i < |Encode(key)| ==> piece[i] == Encode(key)[i];
  }

  lemma {:induction false} PiecesRead(pairs: seq<(string, string)>, before: Params, key: string)
    requires PlainPairs(pairs)
    ensures QueryOf(QueryPieces(pairs), before).Ok?
    ensures Lookup(QueryOf(QueryPieces(pairs), before).value, key) ==
            if LastValue(pairs, key).Some? then LastValue(pairs, key) else Lookup(before, key)
    decreases pairs
  {
    hide Encode, Decode, IndexOf, Plainly, LastValue;
    var pieces := QueryPieces(pairs);
    if pairs == [] {
      NoValue(key);
    } else {
      var rest := pairs[1..];
      PieceReads(pairs[0].0, pairs[0].1);
      assert pieces[1..] == QueryPieces(rest);
      PiecesRead(rest, before[pairs[0].0 := pairs[0].1], key);
      LastValueFront(pairs, key);
    }
  }

  lemma NoValue(key: string)
    ensures LastValue([], key) == None
  {}

  /** Query parameters travel: whatever keys and values a client encodes and joins, the router
      reads back every key with its last value, and no others. */
  lemma QueryTravels(pairs: seq<(string, string)>, key: string)
    requires PlainPairs(pairs)
    ensures var r := QueryOf(Split(Join(QueryPieces(pairs), '&'), '&'), map[]);
            r.Ok? && Lookup(r.value, key) == LastValue(pairs, key)
  {
    hide Encode, Decode, Plainly, LastValue, IndexOf, QueryOf, Split, Join;
    PiecesRead(pairs, map[], key);
    var pieces := QueryPieces(pairs);
    if pairs == [] {
      NothingJoined(pieces);
      NothingQueried(map[]);
      NoValue(key);
    } else {
      forall i | 0 <= i < |pieces| ensures '&' !in pieces[i] {
        PieceReads(pairs[i].0, pairs[i].1);
      }
      SplitJoin(pieces, '&');
    }
  }

  lemma NothingJoined(pieces: seq<string>)
    requires pieces == []
    ensures Join(pieces, '&') == ""
  {}

  // --- The loops -----------------------------------------------------------------------

  /** url_encode_path (url.cpp:47-64). */
  method UrlEncodePath(path: string) returns (out: string)
    requires AllBytes(path)
    ensures out == Encode(path)
  {
    out := "";
    assert path[0..] == path && "" + Encode(path) == Encode(path);
    for i := 0 to |path|
      invariant Encode(path) == out + Encode(path[i..])
    {
      hide Encode;
      var c := path[i];
      EncodeStep(out, path[i..]);
      assert path[i..][0] == c && path[i..][1..] == path[i + 1..];
      if Kept(c) {
        out := out + [c];
      } else {
        ghost var escape := out + ['%', UpperHex(c as int / 16), UpperHex(c as int % 16)];
        out := out + ['%'];
        out := out + [UpperHex(c as int / 16)];
        out := out + [UpperHex(c as int % 16)];
        assert out == escape;
      }
    }
    assert path[|path|..] == "" && out + "" == out;
  }

  /** What a loop that has `out` so far returns, if the rest gives r. */
  function Prefixed<T>(out: seq<T>, r: Result<seq<T>>): Result<seq<T>> {
    if r.Ok? then Ok(out + r.value) else r
  }

  lemma PrefixedNone<T>(r: Result<seq<T>>)
    ensures Prefixed([], r) == r
  {
    assert r.Ok? ==> [] + r.value == r.value;
  }

  lemma PrefixedMore<T>(out: seq<T>, x: T, r: Result<seq<T>>)
    ensures Prefixed(out, Prefixed([x], r)) == Prefixed(out + [x], r)
  {
    assert r.Ok? ==> out + ([x] + r.value) == out + [x] + r.value;
  }

  lemma PrefixedAll<T>(out: seq<T>)
    ensures Prefixed(out, Ok([])) == Ok(out)
  {
    assert out + [] == out;
  }

  lemma EncodeStep(out: string, s: string)
    requires s != [] && AllBytes(s)
    ensures out + Encode(s) == out + EncodeChar(s[0]) + Encode(s[1..])
  {}

  /** url_decode (router.cpp:69-93). */
  method UrlDecode(text: string) returns (r: Result<string>)
    ensures r == Decode(text)
  {
    var out := "";
    var i := 0;
    assert text[0..] == text;
    PrefixedNone(Decode(text));
    while i < |text|
      invariant 0 <= i <= |text|
      invariant Decode(text) == Prefixed(out, Decode(text[i..]))
    {
      var rest := text[i..];
      if text[i] != '%' {
        assert rest[1..] == text[i + 1..];
        PrefixedMore(out, text[i], Decode(text[i + 1..]));
        out := out + [text[i]];
        i := i + 1;
      } else {
        if i + 2 >= |text| {
          return Err(Validation);
        }
        var hi, lo := HexValue(text[i + 1]), HexValue(text[i + 2]);
        assert rest[1] == text[i + 1] && rest[2] == text[i + 2] && rest[3..] == text[i + 3..];
        if hi < 0 || lo < 0 {
          return Err(Validation);
        }
        if hi * 16 + lo == 0 {
          return Err(Validation);
        }
        PrefixedMore(out, (hi * 16 + lo) as char, Decode(text[i + 3..]));
        out := out + [(hi * 16 + lo) as char];
        i := i + 3;
      }
    }
    assert text[i..] == "";
    PrefixedAll(out);
    r := Ok(out);
  }

  lemma {:induction false} SplitStep(out: seq<string>, rest: string)
    ensures var k := IndexOf(rest, '/');
            out + Split(rest, '/') ==
            if k == |rest| then out + [rest] else out + [rest[..k]] + Split(rest[k + 1..], '/')
  {
    SplitUnfolds(rest, '/');
    hide Split, IndexOf;
    var k := IndexOf(rest, '/');
    if k < |rest| {
      Reassociate(out, rest[..k], Split(rest[k + 1..], '/'));
    }
  }

  lemma {:induction false} SplitUnfolds(rest: string, c: char)
    ensures var k := IndexOf(rest, c);
            Split(rest, c) == if k == |rest| then [rest] else [rest[..k]] + Split(rest[k + 1..], c)
  {
    hide IndexOf;
  }

  lemma Reassociate<T>(a: seq<T>, x: T, b: seq<T>)
    ensures a + ([x] + b) == a + [x] + b
  {}

  /** split_path (router.cpp:32-47). */
  method SplitTarget(text: string) returns (out: seq<string>)
    requires text != [] && text[0] == '/'
    ensures out == SplitPath(text)
  {
    out := [];
    if text == "/" {
      return;
    }
    hide Split, IndexOf;
    var rest := text[1..];
    assert [] + Split(rest, '/') == Split(rest, '/');
    while true
      invariant SplitPath(text) == out + Split(rest, '/')
      decreases |rest|
    {
      var pos := FindSlash(rest, 0);
      assert rest[0..] == rest;
      SplitStep(out, rest);
      if pos == |rest| {
        out := out + [rest];
        break;
      }
      out := out + [rest[..pos]];
      rest := rest[pos + 1..];
    }
  }

  /** Router::match_segments (router.cpp:157-186). */
  method MatchSegments(pattern: seq<Segment>, path: seq<string>) returns (r: Option<Params>)
    ensures r == Fit(pattern, path, map[])
  {
    var params: Params := map[];
    var i := 0;
    assert path[0..] == path && pattern[0..] == pattern;
    for k := 0 to |pattern|
      invariant 0 <= i <= |path|
      invariant Fit(pattern, path, map[]) == Fit(pattern[k..], path[i..], params)
    {
      var seg := pattern[k];
      assert pattern[k..][0] == seg && pattern[k..][1..] == pattern[k + 1..];
      if i >= |path| || (!seg.Literal? && path[i] == "") {
        return None;
      }
      assert path[i..][0] == path[i] && path[i..][1..] == path[i + 1..];
      if seg.Rest? {
        var rest := JoinRest(path, i);
        return Some(Emplace(params, seg.name, rest));
      }
      if seg.Param? {
        params := Emplace(params, seg.name, path[i]);
      } else if seg.text != path[i] {
        return None;
      }
      i := i + 1;
    }
    assert pattern[|pattern|..] == [];
    r := if i != |path| then None else Some(params);
  }

  method JoinRest(path: seq<string>, start: nat) returns (rest: string)
    requires start < |path|
    ensures rest == Join(path[start..], '/')
  {
    rest := path[start];
    for i := start + 1 to |path|
      invariant rest == Join(path[start..i], '/')
    {
      JoinSnoc(path[start..i], path[i], '/');
      assert path[start..i] + [path[i]] == path[start..i + 1];
      rest := rest + "/";
      rest := rest + path[i];
    }
    assert path[start..|path|] == path[start..];
  }

  lemma {:induction false} JoinSnoc(parts: seq<string>, last: string, c: char)
    requires parts != []
    ensures Join(parts + [last], c) == Join(parts, c) + [c] + last
  {
    var all := parts + [last];
    if |parts| == 1 {
      assert all[1..] == [last];
    } else {
      JoinSnoc(parts[1..], last, c);
      assert all[0] == parts[0] && all[1..] == parts[1..] + [last];
    }
  }

  method DecodeSegments(raw: seq<string>) returns (r: Result<seq<string>>)
    ensures r == DecodeAll(raw)
  {
    hide Decode;
    var segments := [];
    assert raw[0..] == raw;
    PrefixedNone(DecodeAll(raw));
    for i := 0 to |raw|
      invariant DecodeAll(raw) == Prefixed(segments, DecodeAll(raw[i..]))
    {
      assert raw[i..][0] == raw[i] && raw[i..][1..] == raw[i + 1..];
      var s := UrlDecode(raw[i]);
      if s.Err? {
        return Err(s.code);
      }
      PrefixedMore(segments, s.value, DecodeAll(raw[i + 1..]));
      segments := segments + [s.value];
    }
    assert raw[|raw|..] == [];
    PrefixedAll(segments);
    r := Ok(segments);
  }

  /** parse_query (router.cpp:49-65). */
  method ParseQuery(text: string) returns (r: Result<Params>)
    ensures r == QueryOf(Split(text, '&'), map[])
  {
    hide Decode, Split, IndexOf;
    var rest, out := text, map[];
    ghost var more := true; // the text still to read is not the end of the last piece
    while rest != ""
      invariant QueryOf(Split(text, '&'), map[]) == if more then QueryOf(Split(rest, '&'), out) else Ok(out)
      invariant !more ==> rest == ""
      decreases |rest|
    {
      var amp := IndexOf(rest, '&');
      var pair := rest[..amp];
      QueryStep(rest, out);
      more := amp < |rest|;
      rest := if amp == |rest| then "" else rest[amp + 1..];
      if pair == "" {
        continue;
      }
      var eq := IndexOf(pair, '=');
      var key :- UrlDecode(pair[..eq]);
      var value :- UrlDecode(if eq == |pair| then "" else pair[eq + 1..]);
      out := out[key := value];
    }
    if more {
      NothingQueried(out);
    }
    return Ok(out);
  }

  lemma NothingQueried(out: Params)
    ensures QueryOf(Split("", '&'), out) == Ok(out)
  {
    assert Split("", '&') == [""];
    assert [""][1..] == [];
  }

  /** Reading one pair off the front. */
  lemma {:induction false} QueryStep(rest: string, out: Params)
    ensures var amp := IndexOf(rest, '&');
            var after := if amp == |rest| then [] else Split(rest[amp + 1..], '&');
            Split(rest, '&') == [rest[..amp]] + after && ([rest[..amp]] + after)[1..] == after
  {
    SplitUnfolds(rest, '&');
    hide Split, IndexOf;
    assert rest[..|rest|] == rest && [rest] + [] == [rest];
  }

  /** Router::match (router.cpp:188-222). */
  method MatchTarget(routes: seq<Route>, verb: Verb, target: string) returns (r: Result<Match>)
    ensures r == Routed(routes, verb, target)
  {
    hide Fit, Decode, Split, QueryOf;
    var path := target[..IndexOf(target, '?')];
    if path == [] || path[0] != '/' {
      return Err(Validation);
    }
    var raw := SplitTarget(path);
    var segments :- DecodeSegments(raw);
    var pathMatched := false;
    assert routes[0..] == routes;
    for i := 0 to |routes|
      invariant Pick(routes, verb, segments, false) == Pick(routes[i..], verb, segments, pathMatched)
    {
      assert routes[i..][0] == routes[i] && routes[i..][1..] == routes[i + 1..];
      var params := MatchSegments(routes[i].pattern, segments);
      if params.Some? {
        pathMatched := true;
        if routes[i].verb == verb {
          var query :- ParseQuery(QueryText(target));
          return Ok(Match(routes[i], params.value, query));
        }
      }
    }
    assert routes[|routes|..] == [];
    r := Err(if pathMatched then Conflict else NotFound);
  }
}
