/** Base64 as Basic credentials use it (src/lib/common/base64.cpp; section 4 of
    RFC 4648). */
module Base64 {
  import opened Basics

  function ToDigit(n: int): (c: char)
    requires 0 <= n < 64
    ensures FromDigit(c) == n && c != '='
  {
    if n < 26 then (n + 'A' as int) as char
    else if n < 52 then (n - 26 + 'a' as int) as char
    else if n < 62 then (n - 52 + '0' as int) as char
    else if n == 62 then '+' else '/'
  }

  /** digit (base64.cpp:14-31): -1 if c is not one. */
  function FromDigit(c: char): (n: int)
    ensures -1 <= n < 64
  {
    if 'A' <= c <= 'Z' then c as int - 'A' as int
    else if 'a' <= c <= 'z' then c as int - 'a' as int + 26
    else if '0' <= c <= '9' then c as int - '0' as int + 52
    else if c == '+' then 62
    else if c == '/' then 63
    else -1
  }

  const UPPER := "ABCDEFGHIJKLMNOPQRSTUVWXYZ"
  const LOWER := "abcdefghijklmnopqrstuvwxyz"
  const DIGITS := "0123456789"

  /** The alphabet of section 4 of RFC 4648, in its order. */
  lemma AlphabetIs(n: int)
    requires 0 <= n < 64
    ensures ToDigit(n) == if n < 26 then UPPER[n] else if n < 52 then LOWER[n - 26]
                          else if n < 62 then DIGITS[n - 52] else if n == 62 then '+' else '/'
  {
    if n < 26 { Letters(UPPER, 'A', n); } else if n < 52 { Letters(LOWER, 'a', n - 26); }
  }

  /** The n-th letter of an alphabet is n after its first. */
  lemma Letters(alphabet: string, first: char, n: int)
    requires (alphabet == UPPER && first == 'A') || (alphabet == LOWER && first == 'a')
    requires 0 <= n < 26
    ensures alphabet[n] as int == first as int + n
  {}

  lemma DigitReadsBack(c: char)
    requires FromDigit(c) >= 0
    ensures ToDigit(FromDigit(c)) == c && c != '='
  {}

  // --- What the text of a byte string is ---------------------------------------------

  /** One, two or three bytes as four characters: six bits each, the rest zero, a pad
      for each missing byte. */
  function EncodeGroup(g: Bytes): (s: string)
    requires 1 <= |g| <= 3
    ensures |s| == 4
  {
    var b0 := g[0];
    var b1 := if |g| > 1 then g[1] else 0;
    var b2 := if |g| > 2 then g[2] else 0;
    [ToDigit(b0 / 4), ToDigit(b0 % 4 * 16 + b1 / 16),
     if |g| > 1 then ToDigit(b1 % 16 * 4 + b2 / 64) else '=',
     if |g| > 2 then ToDigit(b2 % 64) else '=']
  }

  function Encode(data: Bytes): string {
    if data == [] then ""
    else
      var n := Min(3, |data|);
      EncodeGroup(data[..n]) + Encode(data[n..])
  }

  // --- What a text stands for ----------------------------------------------------------

  /** The pads of a group of four, if they are well placed: at most two, at the end, and
      only in the last group. */
  function Pads(g: string, last: bool): Option<nat>
    requires |g| == 4
  {
    if FromDigit(g[0]) < 0 || FromDigit(g[1]) < 0 then None
    else if FromDigit(g[2]) >= 0 && FromDigit(g[3]) >= 0 then Some(0)
    else if !last || g[3] != '=' then None
    else if FromDigit(g[2]) >= 0 then Some(1)
    else if g[2] == '=' then Some(2)
    else None
  }

  function Value(c: char): (n: int)
    ensures 0 <= n < 64
  {
    if FromDigit(c) < 0 then 0 else FromDigit(c)
  }

  function GroupBytes(g: string, pads: nat): (r: Bytes)
    requires |g| == 4 && pads <= 2
    ensures |r| == 3 - pads
  {
    var d0, d1, d2, d3 := Value(g[0]), Value(g[1]), Value(g[2]), Value(g[3]);
    [d0 * 4 + d1 / 16, d1 % 16 * 16 + d2 / 4, d2 % 4 * 64 + d3][..3 - pads]
  }

  function DecodeGroups(text: string): Result<Bytes>
    requires |text| % 4 == 0
  {
    if text == "" then Ok([])
    else
      var pads := Pads(text[..4], |text| == 4);
      if pads.None? then Err(Validation)
      else
        var rest :- DecodeGroups(text[4..]);
        Ok(GroupBytes(text[..4], pads.value) + rest)
  }

  function Decode(text: string): Result<Bytes> {
    if |text| % 4 != 0 then Err(Validation) else DecodeGroups(text)
  }

  lemma GroupReadsBack(g: Bytes, last: bool)
    requires 1 <= |g| <= 3 && (last || |g| == 3)
    ensures Pads(EncodeGroup(g), last) == Some(3 - |g|)
    ensures GroupBytes(EncodeGroup(g), 3 - |g|) == g
  {
    var s := EncodeGroup(g);
    var b0 := g[0];
    var b1 := if |g| > 1 then g[1] else 0;
    var b2 := if |g| > 2 then g[2] else 0;
    assert Value(s[0]) == b0 / 4 && Value(s[1]) == b0 % 4 * 16 + b1 / 16;
    assert Value(s[2]) == b1 % 16 * 4 + b2 / 64 && Value(s[3]) == b2 % 64;
    Sixes(b0, b1, b2);
  }

  /** A group of three bytes and its four digits are the same number, to base 256 and to base 64. */
  lemma GroupIsNumber(b0: Byte, b1: Byte, b2: Byte)
    ensures var s := EncodeGroup([b0, b1, b2]);
            262144 * FromDigit(s[0]) + 4096 * FromDigit(s[1]) + 64 * FromDigit(s[2]) + FromDigit(s[3])
            == 65536 * b0 + 256 * b1 + b2
  {
    Sixes(b0, b1, b2);
  }

  lemma Sixes(b0: Byte, b1: Byte, b2: Byte)
    ensures var d0, d1, d2, d3 := b0 / 4, b0 % 4 * 16 + b1 / 16, b1 % 16 * 4 + b2 / 64, b2 % 64;
            d0 * 4 + d1 / 16 == b0 && d1 % 16 * 16 + d2 / 4 == b1 && d2 % 4 * 64 + d3 == b2
  {}

  lemma {:induction false} EncodeLength(data: Bytes)
    ensures |Encode(data)| == (|data| + 2) / 3 * 4
  {
    if data != [] {
      EncodeLength(data[Min(3, |data|)..]);
    }
  }

  /** Decoding undoes encoding for every byte string. */
  lemma {:induction false} DecodeEncoded(data: Bytes)
    ensures Decode(Encode(data)) == Ok(data)
  {
    hide EncodeGroup, GroupBytes, Pads;
    EncodeLength(data);
    if data != [] {
      var n := Min(3, |data|);
      var head, rest := data[..n], data[n..];
      DecodeEncoded(rest);
      EncodeLength(rest);
      GroupReadsBack(head, rest == []);
      var text := Encode(data);
      assert text[..4] == EncodeGroup(head) && text[4..] == Encode(rest);
      assert data == head + rest;
    }
  }

  // --- What an accepted text looks like ---------------------------------------------------

  /** How many pads end a text. */
  function Padding(text: string): nat {
    if |text| >= 1 && text[|text| - 1] == '=' then
      if |text| >= 2 && text[|text| - 2] == '=' then 2 else 1
    else 0
  }

  /** The text with the bits that no byte uses cleared in its last digit. */
  function Cleared(text: string): string
    requires |text| % 4 == 0
  {
    var n := |text|;
    match Padding(text)
    case 0 => text
    case 1 => text[n - 2 := ToDigit(Value(text[n - 2]) / 4 * 4)]
    case _ => text[n - 3 := ToDigit(Value(text[n - 3]) / 16 * 16)]
  }

  lemma PadsArePadding(g: string)
    requires |g| == 4 && Pads(g, true).Some?
    ensures Pads(g, true) == Some(Padding(g))
    ensures Pads(g, false).Some? <==> Padding(g) == 0
  {}

  lemma GroupReencodes(g: string)
    requires |g| == 4 && Pads(g, true).Some?
    ensures EncodeGroup(GroupBytes(g, Padding(g))) == Cleared(g)
  {
    hide ToDigit, FromDigit;
    PadsArePadding(g);
    var pads := Padding(g);
    var d0, d1, d2, d3 := Value(g[0]), Value(g[1]), Value(g[2]), Value(g[3]);
    Eights(d0, d1, d2, d3);
    var b := GroupBytes(g, pads);
    var s := EncodeGroup(b);
    DigitReadsBack(g[0]);
    DigitReadsBack(g[1]);
    if pads == 0 {
      DigitReadsBack(g[2]);
      DigitReadsBack(g[3]);
      assert s == g;
    } else if pads == 1 {
      DigitReadsBack(g[2]);
      assert s[0] == g[0] && s[1] == g[1] && s[2] == ToDigit(d2 / 4 * 4) && s[3] == '=';
      assert s == Cleared(g);
    } else {
      assert s[0] == g[0] && s[1] == ToDigit(d1 / 16 * 16) && s[2] == '=' && s[3] == '=';
      assert s == Cleared(g);
    }
  }

  lemma Eights(d0: int, d1: int, d2: int, d3: int)
    requires 0 <= d0 < 64 && 0 <= d1 < 64 && 0 <= d2 < 64 && 0 <= d3 < 64
    ensures var b0, b1, b2 := d0 * 4 + d1 / 16, d1 % 16 * 16 + d2 / 4, d2 % 4 * 64 + d3;
            && b0 / 4 == d0 && b0 % 4 * 16 == d1 / 16 * 16 && b0 % 4 * 16 + b1 / 16 == d1
            && b1 % 16 * 4 == d2 / 4 * 4 && b1 % 16 * 4 + b2 / 64 == d2 && b2 % 64 == d3
  {}

  /** An accepted text has three bytes for every four characters, less its padding; and
      encoding what it stands for gives it back, but for unused bits of its last digit. */
  lemma {:induction false} AcceptedText(text: string)
    requires Decode(text).Ok?
    ensures |Decode(text).value| == 3 * |text| / 4 - Padding(text)
    ensures Encode(Decode(text).value) == Cleared(text)
  {
    if text == "" {
      return;
    }
    var g, rest := text[..4], text[4..];
    PadsArePadding(g);
    GroupReencodes(g);
    if rest == "" {
      assert text == g;
      var b := GroupBytes(g, Padding(g));
      assert DecodeGroups(text[4..]) == Ok([]);
      assert b + [] == b && b[..Min(3, |b|)] == b && b[|b|..] == [];
      assert Encode(b) == EncodeGroup(b) + "";
    } else {
      AcceptedText(rest);
      RestOfText(text);
      var b, more := GroupBytes(g, 0), Decode(rest).value;
      assert Decode(text).value == b + more;
      assert (b + more)[..3] == b && (b + more)[3..] == more;
      assert Encode(b + more) == EncodeGroup(b) + Encode(more);
    }
  }

  lemma RestOfText(text: string)
    requires |text| > 4 && |text| % 4 == 0 && Pads(text[..4], false).Some?
    ensures Padding(text) == Padding(text[4..]) && Padding(text[..4]) == 0 && Cleared(text[..4]) == text[..4]
    ensures Cleared(text) == text[..4] + Cleared(text[4..])
  {
    var n, rest := |text|, text[4..];
    assert rest[n - 5] == text[n - 1] && rest[n - 6] == text[n - 2] && rest[n - 7] == text[n - 3];
    assert text == text[..4] + rest;
  }

  /** Hence a text is the encoding of something exactly when its unused bits are clear. */
  lemma CanonicalExactly(text: string)
    requires Decode(text).Ok?
    ensures Encode(Decode(text).value) == text <==> Cleared(text) == text
  {
    AcceptedText(text);
  }

  // --- The loops ---------------------------------------------------------------------------

  /** base64_encode (base64.cpp:39-54). */
  method Base64Encode(data: Bytes) returns (out: string)
    ensures out == Encode(data)
  {
    hide EncodeGroup;
    out := "";
    var i := 0;
    assert data[0..] == data && "" + Encode(data) == Encode(data);
    while i < |data|
      invariant i <= |data|
      invariant Encode(data) == out + Encode(data[i..])
    {
      var n := Min(3, |data| - i);
      ghost var rest := data[i..];
      assert rest[..n] == data[i..i + n] && rest[n..] == data[i + n..];
      var group := PackBytes(data, i, n);
      var four := GroupDigits(data[i..i + n], group);
      assert out + (four + Encode(data[i + n..])) == out + four + Encode(data[i + n..]);
      out := out + four;
      i := if i + 3 <= |data| then i + 3 else |data|;
    }
    assert data[i..] == [] && out + "" == out;
  }

  function ByteAt(g: Bytes, k: nat): int {
    if k < |g| then g[k] else 0
  }

  function Packed(g: Bytes): int {
    ByteAt(g, 0) * 65536 + ByteAt(g, 1) * 256 + ByteAt(g, 2)
  }

  /** The inner loop that shifts three bytes in. */
  method PackBytes(data: Bytes, i: nat, n: nat) returns (group: int)
    requires 1 <= n <= 3 && i + n <= |data|
    ensures group == Packed(data[i..i + n])
  {
    ghost var g := data[i..i + n];
    group := 0;
    var k := 0;
    while k < 3
      invariant k <= 3
      invariant k == 0 ==> group == 0
      invariant k == 1 ==> group == ByteAt(g, 0)
      invariant k == 2 ==> group == ByteAt(g, 0) * 256 + ByteAt(g, 1)
      invariant k == 3 ==> group == Packed(g)
    {
      assert k < n ==> g[k] == data[i + k];
      group := group * 256 + (if k < n then data[i + k] else 0);
      k := k + 1;
    }
  }

  /** 2 to the power of 18 - 6k, by which the k-th digit is shifted. */
  function DigitUnit(k: int): int
    requires 0 <= k < 4
  {
    if k == 0 then 262144 else if k == 1 then 4096 else if k == 2 then 64 else 1
  }

  lemma SixBits(b0: Byte, b1: Byte, b2: Byte)
    ensures var group := b0 * 65536 + b1 * 256 + b2;
            && group / 262144 % 64 == b0 / 4 && group / 4096 % 64 == b0 % 4 * 16 + b1 / 16
            && group / 64 % 64 == b1 % 16 * 4 + b2 / 64 && group / 1 % 64 == b2 % 64
  {
    var group := b0 * 65536 + b1 * 256 + b2;
    assert group / 262144 == b0 / 4;
    assert group / 4096 == b0 * 16 + b1 / 16;
    assert group / 64 == b0 * 1024 + b1 * 4 + b2 / 64;
  }

  /** The inner loop that shifts four digits out. */
  method GroupDigits(g: Bytes, group: int) returns (four: string)
    requires 1 <= |g| <= 3 && group == Packed(g)
    ensures four == EncodeGroup(g)
  {
    hide ToDigit;
    SixBits(ByteAt(g, 0), ByteAt(g, 1), ByteAt(g, 2));
    ghost var whole := EncodeGroup(g);
    four := "";
    for k := 0 to 4
      invariant four == whole[..k]
    {
      assert whole[..k + 1] == whole[..k] + [whole[k]];
      four := four + [if k <= |g| then ToDigit(group / DigitUnit(k) % 64) else '='];
    }
  }

  function GroupValue(g: string): int
    requires |g| == 4
  {
    Value(g[0]) * 262144 + Value(g[1]) * 4096 + Value(g[2]) * 64 + Value(g[3])
  }

  /** The inner loop over four characters (base64.cpp:66-82). */
  method ReadGroup(text: string, i: nat, last: bool) returns (pads: Option<nat>, group: int)
    requires i + 4 <= |text|
    ensures pads == Pads(text[i..i + 4], last)
    ensures pads.Some? ==> group == GroupValue(text[i..i + 4])
  {
    ghost var g := text[i..i + 4];
    var pad := 0;
    group := 0;
    var k := 0;
    while k < 4
      invariant 0 <= k <= 4 && 0 <= pad <= Max(k - 2, 0)
      invariant pad > 0 ==> last
      invariant forall j :: 0 <= j < k - pad ==> FromDigit(g[j]) >= 0
      invariant forall j :: k - pad <= j < k ==> g[j] == '='
      invariant k == 0 ==> group == 0
      invariant k == 1 ==> group == Value(g[0])
      invariant k == 2 ==> group == Value(g[0]) * 64 + Value(g[1])
      invariant k == 3 ==> group == Value(g[0]) * 4096 + Value(g[1]) * 64 + Value(g[2])
      invariant k == 4 ==> group == GroupValue(g)
    {
      var c := text[i + k];
      assert g[k] == c;
      if c == '=' {
        if !last || k < 2 {
          return None, group;
        }
        pad := pad + 1;
        group := group * 64;
      } else {
        var d := FromDigit(c);
        if d < 0 || pad > 0 {
          return None, group;
        }
        group := group * 64 + d;
      }
      k := k + 1;
    }
    pads := Some(pad);
  }

  lemma EightBits(d0: int, d1: int, d2: int, d3: int)
    requires 0 <= d0 < 64 && 0 <= d1 < 64 && 0 <= d2 < 64 && 0 <= d3 < 64
    ensures var group := d0 * 262144 + d1 * 4096 + d2 * 64 + d3;
            && group / 65536 % 256 == d0 * 4 + d1 / 16
            && group / 256 % 256 == d1 % 16 * 16 + d2 / 4
            && group / 1 % 256 == d2 % 4 * 64 + d3
  {
    var group := d0 * 262144 + d1 * 4096 + d2 * 64 + d3;
    assert group / 65536 == d0 * 4 + d1 / 16;
    assert group / 256 == d0 * 1024 + d1 * 16 + d2 / 4;
  }

  function ByteUnit(k: int): int
    requires 0 <= k < 3
  {
    if k == 0 then 65536 else if k == 1 then 256 else 1
  }

  /** The loop that shifts the bytes out (base64.cpp:83-85). */
  method UnpackBytes(ghost g: string, group: int, pads: nat) returns (bytes: Bytes)
    requires |g| == 4 && pads <= 2 && group == GroupValue(g)
    ensures bytes == GroupBytes(g, pads)
  {
    EightBits(Value(g[0]), Value(g[1]), Value(g[2]), Value(g[3]));
    ghost var whole := GroupBytes(g, pads);
    bytes := [];
    for k := 0 to 3 - pads
      invariant bytes == whole[..k]
    {
      assert whole[..k + 1] == whole[..k] + [whole[k]];
      bytes := bytes + [group / ByteUnit(k) % 256];
    }
    assert whole[..3 - pads] == whole;
  }

  function Prefixed(out: Bytes, r: Result<Bytes>): Result<Bytes> {
    if r.Ok? then Ok(out + r.value) else r
  }

  /** base64_decode (base64.cpp:56-88). */
  method Base64Decode(text: string) returns (r: Result<Bytes>)
    ensures r == Decode(text)
  {
    hide Pads, GroupBytes, GroupValue, DecodeGroups, FromDigit;
    if |text| % 4 != 0 {
      return Err(Validation);
    }
    var out: Bytes := [];
    var i := 0;
    assert text[0..] == text;
    PrefixedNone(DecodeGroups(text));
    while i < |text|
      invariant i <= |text| && i % 4 == 0
      invariant DecodeGroups(text) == Prefixed(out, DecodeGroups(text[i..]))
    {
      ghost var rest := text[i..];
      assert rest[..4] == text[i..i + 4] && rest[4..] == text[i + 4..];
      GroupStep(rest);
      var pads, group := ReadGroup(text, i, i + 4 == |text|);
      if pads.None? {
        return Err(Validation);
      }
      PadsAreFew(text[i..i + 4], i + 4 == |text|);
      var bytes := UnpackBytes(text[i..i + 4], group, pads.value);
      PrefixedTwice(out, bytes, DecodeGroups(text[i + 4..]));
      out := out + bytes;
      i := i + 4;
    }
    assert text[i..] == "" && out + [] == out;
    NoGroups();
    r := Ok(out);
  }

  lemma NoGroups()
    ensures DecodeGroups("") == Ok([])
  {}

  lemma GroupStep(text: string)
    requires |text| >= 4 && |text| % 4 == 0
    ensures var pads := Pads(text[..4], |text| == 4);
            DecodeGroups(text) == if pads.None? || pads.value > 2 then Err(Validation)
                                  else Prefixed(GroupBytes(text[..4], pads.value), DecodeGroups(text[4..]))
  {
    hide GroupBytes, FromDigit;
  }

  lemma PrefixedTwice(a: Bytes, b: Bytes, r: Result<Bytes>)
    ensures Prefixed(a, Prefixed(b, r)) == Prefixed(a + b, r)
  {
    assert r.Ok? ==> a + (b + r.value) == a + b + r.value;
  }

  lemma PrefixedNone(r: Result<Bytes>)
    ensures Prefixed([], r) == r
  {
    assert r.Ok? ==> [] + r.value == r.value;
  }

  lemma PadsAreFew(g: string, last: bool)
    requires |g| == 4 && Pads(g, last).Some?
    ensures Pads(g, last).value <= 2
  {}
}
