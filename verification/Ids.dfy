/** Transaction ids (src/lib/common/id.cpp): random UUIDs, and the texts that are
    accepted as one. */
module Ids {
  import opened Basics
  import opened FileList
  import opened Paths
  import opened Hex

  /** A version 4 UUID of the standard variant (section 4.4 of RFC 4122). */
  predicate IsRandomUuid(bytes: seq<Byte>) {
    |bytes| == 16 && bytes[6] / 16 == 4 && bytes[8] / 64 == 2
  }

  /** boost::uuids::to_string. */
  function UuidText(bytes: seq<Byte>): string
    requires |bytes| == 16
  {
    Dashed(HexText(bytes))
  }

  function Dashed(h: string): string
    requires |h| == 32
  {
    h[..8] + "-" + h[8..12] + "-" + h[12..16] + "-" + h[16..20] + "-" + h[20..]
  }

  function Undashed(s: string): string
    requires |s| == 36
  {
    s[..8] + s[9..13] + s[14..18] + s[19..23] + s[24..]
  }

  predicate IsDash(i: int) {
    i == 8 || i == 13 || i == 18 || i == 23
  }

  predicate IsLowerHex(c: char) {
    '0' <= c <= '9' || 'a' <= c <= 'f'
  }

  predicate AllLowerHex(h: string) {
    forall i :: 0 <= i < |h| ==> IsLowerHex(h[i])
  }

  lemma DashedHas(h: string)
    requires |h| == 32 && AllLowerHex(h)
    ensures |Dashed(h)| == 36 && Dashed(h)[14] == h[12] && Dashed(h)[19] == h[16]
    ensures forall i :: 0 <= i < 36 ==> if IsDash(i) then Dashed(h)[i] == '-' else IsLowerHex(Dashed(h)[i])
  {
    hide IsLowerHex;
    var s := Dashed(h);
    forall i | 0 <= i < 36 ensures if IsDash(i) then s[i] == '-' else IsLowerHex(s[i]) {
      if !IsDash(i) {
        var k := if i < 8 then i else if i < 13 then i - 1 else if i < 18 then i - 2 else if i < 23 then i - 3 else i - 4;
        assert s[i] == h[k];
      }
    }
  }

  lemma UndashedHas(s: string)
    requires |s| == 36 && forall i :: 0 <= i < 36 ==> if IsDash(i) then s[i] == '-' else IsLowerHex(s[i])
    ensures |Undashed(s)| == 32 && AllLowerHex(Undashed(s)) && Dashed(Undashed(s)) == s
    ensures Undashed(s)[12] == s[14] && Undashed(s)[16] == s[19]
  {
    hide IsLowerHex;
    var h := Undashed(s);
    forall i | 0 <= i < 32 ensures IsLowerHex(h[i]) {
      var j := if i < 8 then i else if i < 12 then i + 1 else if i < 16 then i + 2 else if i < 20 then i + 3 else i + 4;
      assert h[i] == s[j] && !IsDash(j);
    }
    assert h[..8] == s[..8] && h[8..12] == s[9..13] && h[12..16] == s[14..18];
    assert h[16..20] == s[19..23] && h[20..] == s[24..];
    assert s[8] == s[13] == s[18] == s[23] == '-';
    assert s == s[..8] + "-" + s[9..13] + "-" + s[14..18] + "-" + s[19..23] + "-" + s[24..];
  }

  lemma HexIsLower(bytes: seq<Byte>)
    ensures AllLowerHex(HexText(bytes))
  {
    var h := HexText(bytes);
    forall i | 0 <= i < |h| ensures IsLowerHex(h[i]) {
      var k := i / 2;
      DigitIsLower(bytes[k] / 16);
      DigitIsLower(bytes[k] % 16);
      assert h[2 * k] == HexDigit(bytes[k] / 16) && h[2 * k + 1] == HexDigit(bytes[k] % 16);
    }
  }

  lemma DigitIsLower(n: int)
    requires 0 <= n < 16
    ensures IsLowerHex(HexDigit(n))
  {}

  lemma {:induction false} LowerHexReads(h: string)
    requires |h| % 2 == 0 && AllLowerHex(h)
    ensures ReadHex(h).Ok?
  {
    if h != "" {
      LowerHexReads(h[..|h| - 2]);
      assert IsLowerHex(h[|h| - 2]) && IsLowerHex(h[|h| - 1]);
    }
  }

  lemma LowerIsItself(h: string)
    requires AllLowerHex(h)
    ensures LowerText(h) == h
  {
    assert forall i :: 0 <= i < |h| ==> LowerText(h)[i] == h[i];
  }

  lemma HalfIs(b: Byte, c: char)
    requires HexDigit(b / 16) == c
    ensures b / 16 == 4 <==> c == '4'
    ensures b / 64 == 2 <==> c in ['8', '9', 'a', 'b']
  {
    assert b / 64 == b / 16 / 4;
  }

  /** The bytes a valid id is the text of. */
  lemma IdBytes(s: string) returns (bytes: seq<Byte>)
    requires ValidId(s)
    ensures IsRandomUuid(bytes) && UuidText(bytes) == s
  {
    hide HexText, ReadHex, HexDigit;
    UndashedHas(s);
    var h := Undashed(s);
    LowerHexReads(h);
    HexLength(h);
    bytes := ReadHex(h).value;
    HexCanonical(h);
    LowerIsItself(h);
    assert HexText(bytes)[2 * 6] == HexDigit(bytes[6] / 16) && HexText(bytes)[2 * 8] == HexDigit(bytes[8] / 16);
    HalfIs(bytes[6], s[14]);
    HalfIs(bytes[8], s[19]);
  }

  /** Exactly the texts of random UUIDs are accepted: every generated id is, and nothing else. */
  lemma IdsAreUuids(s: string)
    ensures ValidId(s) <==> exists bytes: seq<Byte> :: IsRandomUuid(bytes) && UuidText(bytes) == s
  {
    hide HexText, HexDigit, Dashed;
    if ValidId(s) {
      var bytes := IdBytes(s);
    }
    forall bytes: seq<Byte> | IsRandomUuid(bytes) && UuidText(bytes) == s ensures ValidId(s) {
      var h := HexText(bytes);
      HexIsLower(bytes);
      DashedHas(h);
      assert h[2 * 6] == HexDigit(bytes[6] / 16) && h[2 * 8] == HexDigit(bytes[8] / 16);
      HalfIs(bytes[6], h[12]);
      HalfIs(bytes[8], h[16]);
    }
  }

  /** TransactionId::parse (id.cpp:31-53). */
  method ParseId(s: string) returns (r: Result<string>)
    ensures r == if ValidId(s) then Ok(s) else Err(Validation)
  {
    if |s| != 36 {
      return Err(Validation);
    }
    for i := 0 to |s|
      invariant forall j :: 0 <= j < i ==> if IsDash(j) then s[j] == '-' else IsLowerHex(s[j])
    {
      var ok := if IsDash(i) then s[i] == '-' else IsLowerHex(s[i]);
      if !ok {
        return Err(Validation);
      }
    }
    var variant := s[19];
    if s[14] != '4' || (variant != '8' && variant != '9' && variant != 'a' && variant != 'b') {
      return Err(Validation);
    }
    return Ok(s);
  }
}
