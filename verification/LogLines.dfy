/** A line of the business log tells its event: read as JSON it has every field of the event
    under the name the log promises, and nothing else. */
module LogLines {
  import opened Basics
  import Calendar
  import opened Time
  import opened BizLog

  datatype Value = Text(text: string) | Number(number: int)

  type Member = (string, Value)

  // --- A reader for what the log writes ---------------------------------------------------

  function ReadDigits(acc: nat, text: string): (r: (nat, string))
    ensures |r.1| <= |text|
    decreases text
  {
    if text != [] && IsDigit(text[0]) then ReadDigits(10 * acc + (text[0] as int - '0' as int), text[1..]) else (acc, text)
  }

  function ReadNumber(text: string): (r: (int, string))
    ensures |r.1| <= |text|
  {
    var negative := text != [] && text[0] == '-';
    var digits := ReadDigits(0, if negative then text[1..] else text);
    var n: int := digits.0;
    (if negative then -n else n, digits.1)
  }

  lemma {:induction false} QuotedIsShorter(text: string)
    ensures ReadQuoted(text).Some? ==> |ReadQuoted(text).value.1| < |text|
    decreases |text|
  {
    if text != [] && text[0] >= ' ' && text[0] != '"' {
      if text[0] != '\\' {
        QuotedIsShorter(text[1..]);
      } else {
        if |text| >= 2 { QuotedIsShorter(text[2..]); }
        if |text| >= 6 { QuotedIsShorter(text[6..]); }
      }
    }
  }

  /** The members of an object after its first, up to the closing brace. */
  function ReadMembers(text: string): Option<seq<Member>>
    decreases |text|
  {
    if text == "}" then Some([])
    else if |text| < 2 || text[0] != ',' || text[1] != '"' then None
    else
      var key := ReadQuoted(text[2..]);
      QuotedIsShorter(text[2..]);
      if key.None? || |key.value.1| < 2 || key.value.1[0] != ':' then None
      else
        var after := key.value.1[1..];
        if after[0] == '"' then
          var value := ReadQuoted(after[1..]);
          QuotedIsShorter(after[1..]);
          if value.None? then None
          else
            var rest := ReadMembers(value.value.1);
            if rest.None? then None else Some([(key.value.0, Text(value.value.0))] + rest.value)
        else
          var (n, tail) := ReadNumber(after);
          var rest := ReadMembers(tail);
          if rest.None? then None else Some([(key.value.0, Number(n))] + rest.value)
  }

  // --- What it reads of what the log writes -----------------------------------------------------

  function ValueText(v: Value): string {
    match v
    case Text(text) => "\"" + Escape(text) + "\""
    case Number(n) => Decimal(n)
  }

  function Render(members: seq<Member>): string {
    if members == [] then "" else MemberText(members[0]) + Render(members[1..])
  }

  function MemberText(m: Member): (s: string)
    ensures |s| > 0 && s[0] == ','
  {
    ",\"" + m.0 + "\":" + ValueText(m.1)
  }

  predicate PlainKey(key: string) {
    forall i :: 0 <= i < |key| ==> key[i] >= ' ' && key[i] != '"' && key[i] != '\\'
  }

  lemma {:induction false} PlainIsItself(key: string)
    requires PlainKey(key)
    ensures Escape(key) == key
  {
    if key != [] {
      PlainIsItself(key[1..]);
      assert key == [key[0]] + key[1..];
    }
  }

  lemma {:induction false} DigitsRead(n: nat, tail: string)
    ensures ReadDigits(0, Decimal(n) + tail) == ReadDigits(n, tail)
    ensures Decimal(n) != "" && IsDigit(Decimal(n)[0])
  {
    if n < 10 {
      var text := Decimal(n) + tail;
      assert text[0] == Digit(n) && text[1..] == tail;
    } else {
      var d := [Digit(n % 10)];
      DigitsRead(n / 10, d + tail);
      assert Decimal(n) + tail == Decimal(n / 10) + (d + tail);
      assert (d + tail)[0] == Digit(n % 10) && (d + tail)[1..] == tail;
    }
  }

  lemma NumberReads(n: int, tail: string)
    requires tail != [] && !IsDigit(tail[0])
    ensures ReadNumber(Decimal(n) + tail) == (n, tail)
    ensures Decimal(n) != "" && Decimal(n)[0] != '"'
  {
    if n < 0 {
      DigitsRead(-n, tail);
      var text := Decimal(n) + tail;
      assert text[0] == '-' && text[1..] == Decimal(-n) + tail;
    } else {
      DigitsRead(n, tail);
    }
  }

  /** Adding a member in front of what was read. */
  function Front(m: Member, rest: Option<seq<Member>>): Option<seq<Member>> {
    if rest.None? then None else Some([m] + rest.value)
  }

  lemma TextReads(text: string, key: string, value: string, after: string, tail: string)
    requires |text| >= 2 && text[0] == ',' && text[1] == '"' && text != "}"
    requires ReadQuoted(text[2..]) == Some((key, after)) && |after| >= 2 && after[0] == ':' && after[1] == '"'
    requires ReadQuoted(after[1..][1..]) == Some((value, tail))
    ensures ReadMembers(text) == Front((key, Text(value)), ReadMembers(tail))
  {
    hide ReadQuoted, ReadNumber;
    assert after[1..][0] == '"';
  }

  lemma NumberMemberReads(text: string, key: string, n: int, after: string, tail: string)
    requires |text| >= 2 && text[0] == ',' && text[1] == '"' && text != "}"
    requires ReadQuoted(text[2..]) == Some((key, after)) && |after| >= 2 && after[0] == ':' && after[1] != '"'
    requires ReadNumber(after[1..]) == (n, tail)
    ensures ReadMembers(text) == Front((key, Number(n)), ReadMembers(tail))
  {
    hide ReadQuoted, ReadNumber;
    assert after[1..][0] == after[1];
  }

  lemma Laid(key: string, value: string, tail: string)
    ensures var text, after := ",\"" + key + "\":" + value + tail, ":" + (value + tail);
            && |text| >= 2 && text[0] == ',' && text[1] == '"' && text[2..] == key + "\"" + after
            && after[0] == ':' && after[1..] == value + tail
  {
    var text := ",\"" + key + "\":" + value + tail;
    assert text == ",\"" + (key + "\"" + (":" + (value + tail)));
  }

  lemma TextMemberReads(key: string, value: string, tail: string)
    requires PlainKey(key)
    ensures ReadMembers(",\"" + key + "\":" + ("\"" + Escape(value) + "\"") + tail)
            == Front((key, Text(value)), ReadMembers(tail))
  {
    hide Escape, ReadQuoted, ReadMembers;
    var quoted := "\"" + Escape(value) + "\"";
    var text, after := ",\"" + key + "\":" + quoted + tail, ":" + (quoted + tail);
    Laid(key, quoted, tail);
    PlainIsItself(key);
    EscapedReadsBack(key, after);
    EscapedReadsBack(value, tail);
    assert quoted + tail == "\"" + (Escape(value) + "\"" + tail);
    assert after[1] == '"' && after[1..][1..] == Escape(value) + "\"" + tail;
    TextReads(text, key, value, after, tail);
  }

  lemma MemberReads(m: Member, tail: string)
    requires PlainKey(m.0) && tail != [] && !IsDigit(tail[0])
    ensures ReadMembers(MemberText(m) + tail) == Front(m, ReadMembers(tail))
  {
    hide Escape, Decimal, ReadNumber, ReadQuoted, ReadMembers;
    if m.1.Text? {
      TextMemberReads(m.0, m.1.text, tail);
    } else {
      var digits := Decimal(m.1.number);
      var after := ":" + (digits + tail);
      Laid(m.0, digits, tail);
      PlainIsItself(m.0);
      EscapedReadsBack(m.0, after);
      NumberReads(m.1.number, tail);
      assert after[1] == digits[0];
      NumberMemberReads(",\"" + m.0 + "\":" + digits + tail, m.0, m.1.number, after, tail);
    }
  }

  predicate PlainKeys(members: seq<Member>) {
    forall i :: 0 <= i < |members| ==> PlainKey(members[i].0)
  }

  lemma {:induction false} RenderedReads(members: seq<Member>)
    requires PlainKeys(members)
    ensures ReadMembers(Render(members) + "}") == Some(members)
    ensures (Render(members) + "}")[0] == if members == [] then '}' else ','
  {
    hide ReadMembers, MemberText;
    if members == [] {
      NoMembers();
      assert Render(members) + "}" == "}";
    } else {
      var rest := Render(members[1..]) + "}";
      RenderedReads(members[1..]);
      MemberReads(members[0], rest);
      assert Render(members) + "}" == MemberText(members[0]) + rest;
      assert members == [members[0]] + members[1..];
    }
  }

  lemma NoMembers()
    ensures ReadMembers("}") == Some([])
  {}

  lemma {:induction false} RenderConcat(a: seq<Member>, b: seq<Member>)
    ensures Render(a + b) == Render(a) + Render(b)
  {
    hide MemberText;
    if a == [] {
      assert a + b == b;
    } else {
      RenderConcat(a[1..], b);
      assert (a + b)[0] == a[0] && (a + b)[1..] == a[1..] + b;
      var piece := MemberText(a[0]);
      assert piece + (Render(a[1..]) + Render(b)) == piece + Render(a[1..]) + Render(b);
    }
  }

  // --- Fields that may be missing ------------------------------------------------------------------

  function Present(fields: seq<Option<Member>>): seq<Member> {
    if fields == [] then []
    else (if fields[0].Some? then [fields[0].value] else []) + Present(fields[1..])
  }

  /** The value under a name. */
  function Lookup(members: seq<Member>, name: string): Option<Value> {
    if members == [] then None else if members[0].0 == name then Some(members[0].1) else Lookup(members[1..], name)
  }

  predicate Named(fields: seq<Option<Member>>, names: seq<string>) {
    && |fields| == |names|
    && (forall i :: 0 <= i < |fields| && fields[i].Some? ==> fields[i].value.0 == names[i])
    && (forall i, j :: 0 <= i < j < |names| ==> names[i] != names[j])
  }

  lemma {:induction false} LookupPresent(fields: seq<Option<Member>>, names: seq<string>, i: nat)
    requires Named(fields, names) && i < |names|
    ensures Lookup(Present(fields), names[i]) == if fields[i].Some? then Some(fields[i].value.1) else None
    decreases fields
  {
    var rest := Present(fields[1..]);
    if fields[0].Some? {
      assert Present(fields)[0] == fields[0].value && Present(fields)[1..] == rest;
    } else {
      assert Present(fields) == rest;
    }
    if i > 0 {
      LookupPresent(fields[1..], names[1..], i - 1);
    } else if fields[0].None? {
      NotPresent(fields[1..], names[1..], names[0]);
    }
  }

  lemma {:induction false} NotPresent(fields: seq<Option<Member>>, names: seq<string>, name: string)
    requires Named(fields, names) && forall i :: 0 <= i < |names| ==> names[i] != name
    ensures Lookup(Present(fields), name) == None
    decreases fields
  {
    if fields != [] {
      NotPresent(fields[1..], names[1..], name);
      if fields[0].Some? {
        assert Present(fields)[0] == fields[0].value && Present(fields)[1..] == Present(fields[1..]);
      } else {
        assert Present(fields) == Present(fields[1..]);
      }
    }
  }

  // --- The line of an event --------------------------------------------------------------------------

  function TextField(name: string, value: string): Option<Member> {
    if value == "" then None else Some((name, Text(value)))
  }

  function OptField(name: string, value: Option<string>): Option<Member> {
    if value.None? then None else Some((name, Text(value.value)))
  }

  function NumField(name: string, value: Option<int>): Option<Member> {
    if value.None? then None else Some((name, Number(value.value)))
  }

  const NAMES := ["ts", "event", "tx", "actor", "user", "from", "to", "server", "file", "size", "sha256", "files",
                  "bytes", "days"]

  function Fields(e: BizEvent, ts: int): seq<Option<Member>> {
    [Some(("ts", Text(Format(ts)))), Some(("event", Text(KindText(e.kind)))),
     TextField("tx", if e.tx.Some? then e.tx.value else ""), TextField("actor", e.actor),
     TextField("user", e.subject), TextField("from", e.fromUser), TextField("to", e.toUser),
     TextField("server", e.toServer), OptField("file", e.file), NumField("size", e.size), OptField("sha256", e.sha256),
     NumField("files", e.fileCount), NumField("bytes", e.totalBytes), NumField("days", e.retentionDays)]
  }

  lemma NamesDiffer(i: nat, j: nat)
    requires i < j < 14
    ensures NAMES[i] != NAMES[j]
  {
    assert |NAMES[0]| == 2 && |NAMES[1]| == 5 && |NAMES[2]| == 2 && |NAMES[3]| == 5 && |NAMES[4]| == 4 && |NAMES[5]| == 4;
    assert |NAMES[6]| == 2 && |NAMES[7]| == 6 && |NAMES[8]| == 4 && |NAMES[9]| == 4 && |NAMES[10]| == 6;
    assert |NAMES[11]| == 5 && |NAMES[12]| == 5 && |NAMES[13]| == 4;
    assert NAMES[0][1] == 's' && NAMES[2][1] == 'x' && NAMES[6][1] == 'o';
    assert NAMES[1][0] == 'e' && NAMES[3][0] == 'a' && NAMES[11][0] == 'f' && NAMES[12][0] == 'b';
    assert NAMES[4][0] == 'u' && NAMES[5][1] == 'r' && NAMES[8][1] == 'i' && NAMES[8][0] == 'f' && NAMES[9][0] == 's';
    assert NAMES[5][0] == 'f' && NAMES[13][0] == 'd' && NAMES[7][1] == 'e' && NAMES[10][1] == 'h';
  }

  /** A field that is there has the name it was given. */
  lemma HasName(name: string, value: string, text: Option<string>, number: Option<int>)
    ensures TextField(name, value).Some? ==> TextField(name, value).value.0 == name
    ensures OptField(name, text).Some? ==> OptField(name, text).value.0 == name
    ensures NumField(name, number).Some? ==> NumField(name, number).value.0 == name
  {}

  lemma FieldsAreNamed(e: BizEvent, ts: int)
    ensures Named(Fields(e, ts), NAMES)
  {
    hide Fields;
    FieldsHaveNames(e, ts);
    forall i, j | 0 <= i < j < |NAMES| ensures NAMES[i] != NAMES[j] {
      NamesDiffer(i, j);
    }
  }

  lemma FieldsHaveNames(e: BizEvent, ts: int)
    ensures var f := Fields(e, ts);
            |f| == |NAMES| && forall i :: 0 <= i < |f| && f[i].Some? ==> f[i].value.0 == NAMES[i]
  {
    hide Format, KindText, TextField, OptField, NumField;
    HasName("tx", if e.tx.Some? then e.tx.value else "", None, None);
    HasName("actor", e.actor, None, None);
    HasName("user", e.subject, None, None);
    HasName("from", e.fromUser, None, None);
    HasName("to", e.toUser, None, None);
    HasName("server", e.toServer, None, None);
    HasName("file", "", e.file, None);
    HasName("size", "", None, e.size);
    HasName("sha256", "", e.sha256, None);
    HasName("files", "", None, e.fileCount);
    HasName("bytes", "", None, e.totalBytes);
    HasName("days", "", None, e.retentionDays);
    var f := Fields(e, ts);
    forall i | 0 <= i < 14 && f[i].Some? ensures f[i].value.0 == NAMES[i] {
      if i < 4 {
      } else if i < 8 {
      } else if i < 12 {
      }
    }
  }

  lemma {:induction false} PresentConcat(a: seq<Option<Member>>, b: seq<Option<Member>>)
    ensures Present(a + b) == Present(a) + Present(b)
  {
    if a == [] {
      assert a + b == b;
    } else {
      PresentConcat(a[1..], b);
      assert (a + b)[0] == a[0] && (a + b)[1..] == a[1..] + b;
    }
  }

  function Piece(field: Option<Member>): string {
    Render(Present([field]))
  }

  lemma {:induction false} RenderedPieces(fields: seq<Option<Member>>, last: Option<Member>)
    ensures Render(Present(fields + [last])) == Render(Present(fields)) + Piece(last)
  {
    hide Present, Render;
    PresentConcat(fields, [last]);
    RenderConcat(Present(fields), Present([last]));
  }

  lemma PiecesAre(name: string, value: string, text: Option<string>, number: Option<int>)
    ensures Piece(TextField(name, value)) == StrPiece(name, value)
    ensures Piece(OptField(name, text)) == OptPiece(name, text)
    ensures Piece(NumField(name, number)) == NumPiece(name, number)
  {
    hide Escape, Decimal, Piece;
    PieceOf(None);
    if value != "" { PieceOf(Some((name, Text(value)))); }
    if text.Some? { PieceOf(Some((name, Text(text.value)))); }
    if number.Some? { PieceOf(Some((name, Number(number.value)))); }
  }

  lemma PieceOf(field: Option<Member>)
    ensures Piece(field) == if field.None? then ""
                            else ",\"" + field.value.0 + "\":" + ValueText(field.value.1)
  {
    hide ValueText;
    assert [field][1..] == [] && Present([]) == [];
    if field.Some? {
      assert Present([field]) == [field.value];
      assert [field.value][1..] == [] && Render([]) == "";
    }
  }

  function Sum(fields: seq<Option<Member>>): string {
    if fields == [] then "" else Sum(fields[..|fields| - 1]) + Piece(fields[|fields| - 1])
  }

  lemma {:induction false} SumRenders(fields: seq<Option<Member>>)
    ensures Render(Present(fields)) == Sum(fields)
  {
    hide Piece, Render, Present;
    if fields == [] {
      NothingPresent();
    } else {
      SumRenders(fields[..|fields| - 1]);
      RenderedPieces(fields[..|fields| - 1], fields[|fields| - 1]);
      assert fields == fields[..|fields| - 1] + [fields[|fields| - 1]];
    }
  }

  lemma NothingPresent()
    ensures Render(Present([])) == ""
  {}

  lemma SumStep(fields: seq<Option<Member>>, k: nat)
    requires k < |fields|
    ensures Sum(fields[..k + 1]) == Sum(fields[..k]) + Piece(fields[k])
  {
    hide Piece;
    assert fields[..k + 1][..k] == fields[..k];
  }

  function BodyFields(e: BizEvent): seq<Option<Member>> {
    Fields(e, 0)[2..]
  }

  lemma BodyPieces(e: BizEvent)
    ensures var f := BodyFields(e);
            && |f| == 12
            && Piece(f[0]) == StrPiece("tx", if e.tx.Some? then e.tx.value else "")
            && Piece(f[1]) == StrPiece("actor", e.actor)
            && Piece(f[2]) == StrPiece("user", e.subject) && Piece(f[3]) == StrPiece("from", e.fromUser)
            && Piece(f[4]) == StrPiece("to", e.toUser) && Piece(f[5]) == StrPiece("server", e.toServer)
            && Piece(f[6]) == OptPiece("file", e.file) && Piece(f[7]) == NumPiece("size", e.size)
            && Piece(f[8]) == OptPiece("sha256", e.sha256) && Piece(f[9]) == NumPiece("files", e.fileCount)
            && Piece(f[10]) == NumPiece("bytes", e.totalBytes) && Piece(f[11]) == NumPiece("days", e.retentionDays)
  {
    hide Piece, StrPiece, OptPiece, NumPiece, TextField, OptField, NumField, Format, KindText;
    PiecesAre("tx", if e.tx.Some? then e.tx.value else "", None, None);
    PiecesAre("actor", e.actor, None, None);
    PiecesAre("user", e.subject, None, None);
    PiecesAre("from", e.fromUser, None, None);
    PiecesAre("to", e.toUser, None, None);
    PiecesAre("server", e.toServer, None, None);
    PiecesAre("file", "", e.file, None);
    PiecesAre("size", "", None, e.size);
    PiecesAre("sha256", "", e.sha256, None);
    PiecesAre("files", "", None, e.fileCount);
    PiecesAre("bytes", "", None, e.totalBytes);
    PiecesAre("days", "", None, e.retentionDays);
  }

  lemma BodyIsSum(e: BizEvent)
    ensures Body(e) == Sum(BodyFields(e))
  {
    hide Piece, StrPiece, OptPiece, NumPiece, Fields, BodyFields, Sum;
    var f := BodyFields(e);
    BodyPieces(e);
    NothingSums(f);
    SumStep(f, 0); SumStep(f, 1); SumStep(f, 2); SumStep(f, 3); SumStep(f, 4); SumStep(f, 5);
    SumStep(f, 6); SumStep(f, 7); SumStep(f, 8); SumStep(f, 9); SumStep(f, 10); SumStep(f, 11);
    assert "" + Piece(f[0]) == Piece(f[0]);
    assert f[..12] == f;
  }

  lemma NothingSums(fields: seq<Option<Member>>)
    ensures Sum(fields[..0]) == ""
  {}

  lemma HeadIs(e: BizEvent, ts: int)
    ensures var head := [Some(("ts", Text(Format(ts)))), Some(("event", Text(KindText(e.kind))))];
            "{\"v\":1" + Render(Present(head))
            == START + TS_KEY + Format(ts) + "\",\"event\":\"" + KindText(e.kind) + "\""
  {
    hide Format, KindText, Escape, Piece, Render, Present, ValueText;
    var a: Option<Member>, b: Option<Member> := Some(("ts", Text(Format(ts)))), Some(("event", Text(KindText(e.kind))));
    FormatIsKey(ts);
    KindIsKey(e.kind);
    PlainPiece("ts", Format(ts));
    PlainPiece("event", KindText(e.kind));
    RenderedPieces([a], b);
    assert [a] + [b] == [a, b];
    PieceIsRender(a);
    HeadJoins(Format(ts), KindText(e.kind));
  }

  lemma PlainPiece(name: string, value: string)
    requires PlainKey(value)
    ensures Piece(Some((name, Text(value)))) == ",\"" + name + "\":" + ("\"" + value + "\"")
  {
    hide Piece, Escape;
    PlainIsItself(value);
    PieceOf(Some((name, Text(value))));
  }

  lemma HeadJoins(time: string, kind: string)
    ensures "{\"v\":1" + ((",\"" + "ts" + "\":" + ("\"" + time + "\"")) + (",\"" + "event" + "\":" + ("\"" + kind + "\"")))
         == START + TS_KEY + time + "\",\"event\":\"" + kind + "\""
  {
    var q := "\"";
    assert ",\"" + "ts" + "\":" == ",\"ts\":" && ",\"" + "event" + "\":" == ",\"event\":";
    assert START + TS_KEY == "{\"v\":1" + (",\"ts\":" + q);
    assert "\",\"event\":\"" == q + (",\"event\":" + q);
    Regroup("{\"v\":1", ",\"ts\":", q, time, ",\"event\":", kind);
  }

  lemma Regroup(a: string, b: string, q: string, t: string, c: string, k: string)
    ensures a + ((b + (q + t + q)) + (c + (q + k + q))) == a + (b + q) + t + (q + (c + q)) + k + q
  {}

  lemma PieceIsRender(a: Option<Member>)
    ensures Render(Present([a])) == Piece(a)
  {}

  lemma FormatIsKey(ts: int)
    ensures PlainKey(Format(ts))
  {
    hide Layout;
    var s := ts % DAY;
    LayoutIsKey(Calendar.DateOf(ts / DAY), s / 3600, s / 60 % 60, s % 60);
  }

  lemma LayoutIsKey(d: Calendar.Date, h: int, m: int, s: int)
    requires Calendar.Valid(d) && ClockOk(h, m, s)
    ensures PlainKey(Layout(d, h, m, s))
  {
    hide YearText, Two;
    YearIsKey(d.year);
    TwoIsKey(d.month); TwoIsKey(d.day); TwoIsKey(h); TwoIsKey(m); TwoIsKey(s);
  }

  lemma YearIsKey(y: int)
    ensures PlainKey(YearText(y))
  {
    hide Decimal4;
    YearIsPlain(if y < 0 then -y else y);
  }

  lemma TwoIsKey(n: int)
    requires 0 <= n <= 99
    ensures PlainKey(Two(n))
  {}

  lemma KindIsKey(kind: EventType)
    ensures PlainKey(KindText(kind))
  {
    hide KindText;
  }

  /** A line is one JSON object with the version first and the fields after it. */
  lemma LineIsObject(e: BizEvent, ts: int)
    ensures Line(e, ts) == "{\"v\":1" + Render(Present(Fields(e, ts))) + "}"
  {
    hide Format, KindText, Piece, Render, Present, Sum, Body;
    var f := Fields(e, ts);
    assert f == f[..2] + f[2..] && f[2..] == BodyFields(e);
    PresentConcat(f[..2], f[2..]);
    RenderConcat(Present(f[..2]), Present(f[2..]));
    SumRenders(f[2..]);
    BodyIsSum(e);
    HeadIs(e, ts);
    assert f[..2] == [Some(("ts", Text(Format(ts)))), Some(("event", Text(KindText(e.kind))))];
    var a, b, c := "{\"v\":1", Render(Present(f[..2])), Render(Present(f[2..]));
    assert a + (b + c) == a + b + c;
  }

  lemma {:induction false} PresentKeys(fields: seq<Option<Member>>)
    requires forall i :: 0 <= i < |fields| && fields[i].Some? ==> PlainKey(fields[i].value.0)
    ensures PlainKeys(Present(fields))
  {
    hide PlainKey;
    if fields != [] {
      PresentKeys(fields[1..]);
    }
  }

  lemma NamesArePlain(i: nat)
    requires i < 14
    ensures PlainKey(NAMES[i])
  {}

  /** What a reader of the log finds in a line: the members after the version. */
  function Told(line: string): Option<seq<Member>> {
    if |line| < 6 || line[..6] != "{\"v\":1" then None else ReadMembers(line[6..])
  }

  lemma LineTellsFields(e: BizEvent, ts: int)
    ensures Told(Line(e, ts)) == Some(Present(Fields(e, ts)))
  {
    hide Format, KindText, Render, Present, ReadMembers, Line, PlainKey;
    var f := Fields(e, ts);
    var members := Present(f);
    LineIsObject(e, ts);
    var rest := Render(members) + "}";
    assert Line(e, ts) == "{\"v\":1" + rest;
    assert Line(e, ts)[..6] == "{\"v\":1" && Line(e, ts)[6..] == rest;
    FieldsAreNamed(e, ts);
    forall i | 0 <= i < |f| && f[i].Some? ensures PlainKey(f[i].value.0) {
      NamesArePlain(i);
    }
    PresentKeys(f);
    RenderedReads(members);
  }

  /** The line tells the event: read as JSON it has the time, the kind and every field of the
      event under its own name, and a field that the event does not have is not there. */
  lemma LineTellsEvent(e: BizEvent, ts: int)
    ensures
      && var told := Told(Line(e, ts));
      && told.Some?
      && Lookup(told.value, "ts") == Some(Text(Format(ts)))
      && Lookup(told.value, "event") == Some(Text(KindText(e.kind)))
      && Lookup(told.value, "tx") == (if e.tx.Some? && e.tx.value != "" then Some(Text(e.tx.value)) else None)
      && Lookup(told.value, "actor") == (if e.actor != "" then Some(Text(e.actor)) else None)
      && Lookup(told.value, "user") == (if e.subject != "" then Some(Text(e.subject)) else None)
      && Lookup(told.value, "from") == (if e.fromUser != "" then Some(Text(e.fromUser)) else None)
      && Lookup(told.value, "to") == (if e.toUser != "" then Some(Text(e.toUser)) else None)
      && Lookup(told.value, "server") == (if e.toServer != "" then Some(Text(e.toServer)) else None)
      && Lookup(told.value, "file") == (if e.file.Some? then Some(Text(e.file.value)) else None)
      && Lookup(told.value, "size") == (if e.size.Some? then Some(Number(e.size.value)) else None)
      && Lookup(told.value, "sha256") == (if e.sha256.Some? then Some(Text(e.sha256.value)) else None)
      && Lookup(told.value, "files") == (if e.fileCount.Some? then Some(Number(e.fileCount.value)) else None)
      && Lookup(told.value, "bytes") == (if e.totalBytes.Some? then Some(Number(e.totalBytes.value)) else None)
      && Lookup(told.value, "days") == (if e.retentionDays.Some? then Some(Number(e.retentionDays.value)) else None)
  {
    hide Format, KindText, Present, Line, Told, Lookup;
    var f := Fields(e, ts);
    LineTellsFields(e, ts);
    FieldsAreNamed(e, ts);
    LookupPresent(f, NAMES, 0); LookupPresent(f, NAMES, 1); LookupPresent(f, NAMES, 2); LookupPresent(f, NAMES, 3);
    LookupPresent(f, NAMES, 4); LookupPresent(f, NAMES, 5); LookupPresent(f, NAMES, 6); LookupPresent(f, NAMES, 7);
    LookupPresent(f, NAMES, 8); LookupPresent(f, NAMES, 9); LookupPresent(f, NAMES, 10); LookupPresent(f, NAMES, 11);
    LookupPresent(f, NAMES, 12); LookupPresent(f, NAMES, 13);
  }
}
