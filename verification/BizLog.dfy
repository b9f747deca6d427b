/** The business log: how an event becomes a line (src/lib/logging/business_log.cpp,
    json.cpp), how lines reach two files with rotation (sink.cpp), and how a query reads
    them back (business_log_reader.cpp). Characters stand for bytes. */
module BizLog {
  import opened Basics
  import opened Strings
  import opened Time
  import Hex

  // --- Escaping -------------------------------------------------------------------------

  function EscapeChar(c: char): string {
    if c == '"' then "\\\""
    else if c == '\\' then "\\\\"
    else if c == '\n' then "\\n"
    else if c == '\r' then "\\r"
    else if c == '\t' then "\\t"
    else if c < ' ' then ['\\', 'u', '0', '0', Hex.HexDigit(c as int / 16), Hex.HexDigit(c as int % 16)]
    else [c]
  }

  function Escape(s: string): string {
    if s == [] then [] else EscapeChar(s[0]) + Escape(s[1..])
  }

  /** Reads a JSON string body up to its closing quote: its value and what follows.
      Nothing if it does not end, has a raw control character, or an escape the log
      never writes. */
  function ReadQuoted(text: string): Option<(string, string)> {
    if text == [] || text[0] < ' ' then None
    else if text[0] == '"' then Some(([], text[1..]))
    else if text[0] != '\\' then Cons(text[0], ReadQuoted(text[1..]))
    else if |text| < 2 then None
    else match text[1]
      case '"' => Cons('"', ReadQuoted(text[2..]))
      case '\\' => Cons('\\', ReadQuoted(text[2..]))
      case 'n' => Cons('\n', ReadQuoted(text[2..]))
      case 'r' => Cons('\r', ReadQuoted(text[2..]))
      case 't' => Cons('\t', ReadQuoted(text[2..]))
      case 'u' =>
        if |text| < 6 || text[2] != '0' || text[3] != '0' then None
        else
          var hi, lo := Hex.Nibble(text[4]), Hex.Nibble(text[5]);
          if hi < 0 || lo < 0 then None else Cons((hi * 16 + lo) as char, ReadQuoted(text[6..]))
      case _ => None
  }

  function Cons(c: char, r: Option<(string, string)>): Option<(string, string)> {
    if r.None? then None else Some(([c] + r.value.0, r.value.1))
  }

  lemma ReadEscapedChar(c: char, rest: string)
    ensures ReadQuoted(EscapeChar(c) + rest) == Cons(c, ReadQuoted(rest))
  {
    var text := EscapeChar(c) + rest;
    if |EscapeChar(c)| == 1 {
      assert text[0] == c && text[1..] == rest;
    } else if |EscapeChar(c)| == 2 {
      assert text[0] == '\\' && text[1] == EscapeChar(c)[1] && text[2..] == rest;
    } else {
      var n := c as int;
      assert text[..6] == EscapeChar(c) && text[6..] == rest;
      assert text[4] == text[..6][4] && text[5] == text[..6][5] && text[2] == text[..6][2] && text[3] == text[..6][3];
      assert Hex.Nibble(text[4]) == n / 16 && Hex.Nibble(text[5]) == n % 16;
    }
  }

  /** Whatever text a field holds, its closing quote is found where it is, and the text
      reads back: no value can end its own field early. */
  lemma {:induction false} EscapedReadsBack(s: string, rest: string)
    ensures ReadQuoted(Escape(s) + "\"" + rest) == Some((s, rest))
  {
    hide EscapeChar;
    if s == [] {
      assert Escape(s) + "\"" + rest == "\"" + rest;
      assert ("\"" + rest)[1..] == rest;
    } else {
      EscapedReadsBack(s[1..], rest);
      var tail := Escape(s[1..]) + "\"" + rest;
      assert Escape(s) + "\"" + rest == EscapeChar(s[0]) + tail;
      ReadEscapedChar(s[0], tail);
      assert s == [s[0]] + s[1..];
    }
  }

  predicate Printable(s: string) {
    forall i :: 0 <= i < |s| ==> s[i] >= ' '
  }

  lemma {:induction false} EscapedIsPrintable(s: string)
    ensures Printable(Escape(s))
  {
    if s != [] {
      EscapedIsPrintable(s[1..]);
      assert Printable(EscapeChar(s[0]));
    }
  }

  // --- Lines ----------------------------------------------------------------------------

  datatype EventType =
    | TxCreated | FileAdded | FileRemoved | CommittedEvent | Forwarded | Received | Downloaded
    | ExpiredEvent | AdminDeleted | RetentionChanged | SessionsRevoked

  datatype BizEvent = BizEvent(
    kind: EventType, tx: Option<string>, actor: string, subject: string, fromUser: string, toUser: string,
    toServer: string, file: Option<string>, size: Option<nat>, sha256: Option<string>,
    fileCount: Option<nat>, totalBytes: Option<nat>, retentionDays: Option<int>)

  function KindText(kind: EventType): (s: string)
    ensures forall i :: 0 <= i < |s| ==> s[i] == '_' || 'a' <= s[i] <= 'z'
  {
    match kind
    case TxCreated => "tx_created"
    case FileAdded => "file_added"
    case FileRemoved => "file_removed"
    case CommittedEvent => "committed"
    case Forwarded => "forwarded"
    case Received => "received"
    case Downloaded => "downloaded"
    case ExpiredEvent => "expired"
    case AdminDeleted => "admin_deleted"
    case RetentionChanged => "retention_changed"
    case SessionsRevoked => "sessions_revoked"
  }

  function Decimal(n: int): (s: string)
    ensures Printable(s)
    decreases n < 0, n
  {
    if n < 0 then "-" + Decimal(-n)
    else if n < 10 then [Digit(n)]
    else Decimal(n / 10) + [Digit(n % 10)]
  }

  /** One `,"key":value` piece (business_log.cpp:13-35). */
  function TextPiece(key: string, value: string): string {
    ",\"" + key + "\":\"" + Escape(value) + "\""
  }

  function StrPiece(key: string, value: string): string {
    if value == "" then "" else TextPiece(key, value)
  }

  function OptPiece(key: string, value: Option<string>): string {
    if value.None? then "" else TextPiece(key, value.value)
  }

  function NumPiece(key: string, value: Option<int>): string {
    if value.None? then "" else ",\"" + key + "\":" + Decimal(value.value)
  }

  function Body(e: BizEvent): string {
    StrPiece("tx", if e.tx.Some? then e.tx.value else "")
    + StrPiece("actor", e.actor) + StrPiece("user", e.subject) + StrPiece("from", e.fromUser)
    + StrPiece("to", e.toUser) + StrPiece("server", e.toServer) + OptPiece("file", e.file)
    + NumPiece("size", e.size) + OptPiece("sha256", e.sha256) + NumPiece("files", e.fileCount)
    + NumPiece("bytes", e.totalBytes) + NumPiece("days", e.retentionDays)
  }

  const START := "{\"v\":1,"
  const TS_KEY := "\"ts\":\""

  /** BusinessLog::format (business_log.cpp:70-89). */
  function Line(e: BizEvent, ts: int): string {
    START + TS_KEY + Format(ts) + "\",\"event\":\"" + KindText(e.kind) + "\"" + Body(e) + "}"
  }

  lemma PiecesArePrintable(key: string, value: string, text: Option<string>, number: Option<int>)
    requires Printable(key)
    ensures Printable(StrPiece(key, value)) && Printable(OptPiece(key, text)) && Printable(NumPiece(key, number))
  {
    hide Escape, Decimal;
    EscapedIsPrintable(value);
    if text.Some? {
      EscapedIsPrintable(text.value);
    }
  }

  lemma BodyIsPrintable(e: BizEvent)
    ensures Printable(Body(e))
  {
    hide StrPiece, OptPiece, NumPiece;
    PiecesArePrintable("tx", if e.tx.Some? then e.tx.value else "", None, None);
    PiecesArePrintable("actor", e.actor, None, None);
    PiecesArePrintable("user", e.subject, None, None);
    PiecesArePrintable("from", e.fromUser, None, None);
    PiecesArePrintable("to", e.toUser, None, None);
    PiecesArePrintable("server", e.toServer, None, None);
    PiecesArePrintable("file", "", e.file, None);
    PiecesArePrintable("size", "", None, e.size);
    PiecesArePrintable("sha256", "", e.sha256, None);
    PiecesArePrintable("files", "", None, e.fileCount);
    PiecesArePrintable("bytes", "", None, e.totalBytes);
    PiecesArePrintable("days", "", None, e.retentionDays);
  }

  lemma {:induction false} YearIsPlain(n: nat)
    ensures forall i :: 0 <= i < |Decimal4(n)| ==> IsDigit(Decimal4(n)[i])
  {
    if n >= 10000 {
      YearIsPlain(n / 10);
    }
  }

  lemma YearTextIsPlain(y: int)
    ensures Printable(YearText(y)) && '"' !in YearText(y)
  {
    hide Decimal4;
    YearIsPlain(if y < 0 then -y else y);
  }

  /** A timestamp's text holds no quote and no control character, in any year. */
  lemma FormatIsPlain(ts: int)
    ensures Printable(Format(ts)) && '"' !in Format(ts)
  {
    hide Layout;
    var s := ts % DAY;
    LayoutIsPlain(Calendar.DateOf(ts / DAY), s / 3600, s / 60 % 60, s % 60);
  }

  lemma LayoutIsPlain(d: Calendar.Date, h: int, m: int, s: int)
    requires Calendar.Valid(d) && ClockOk(h, m, s)
    ensures Printable(Layout(d, h, m, s)) && '"' !in Layout(d, h, m, s)
  {
    hide YearText, Two;
    YearTextIsPlain(d.year);
    TwoIsPlain(d.month); TwoIsPlain(d.day); TwoIsPlain(h); TwoIsPlain(m); TwoIsPlain(s);
  }

  lemma TwoIsPlain(n: int)
    requires 0 <= n <= 99
    ensures Printable(Two(n)) && '"' !in Two(n)
  {}

  lemma LineIsOneLine(e: BizEvent, ts: int)
    ensures Printable(Line(e, ts)) && '\n' !in Line(e, ts)
  {
    hide Format, Body, KindText;
    FormatIsPlain(ts);
    BodyIsPrintable(e);
    var head := START + TS_KEY + Format(ts) + "\",\"event\":\"" + KindText(e.kind) + "\"";
    assert Printable(head);
    assert Printable(head + Body(e) + "}");
    assert Line(e, ts) == head + Body(e) + "}";
  }

  /** string_view::find, |text| if there is none. */
  function FindText(text: string, needle: string): (k: nat)
    ensures k <= |text|
  {
    if needle <= text || text == [] then 0 else 1 + FindText(text[1..], needle)
  }

  /** timestamp_of (business_log_reader.cpp:18-31). */
  function TimestampOf(line: string): Option<int> {
    var start := FindText(line, TS_KEY);
    if start + |TS_KEY| > |line| then None
    else
      var value := line[start + |TS_KEY|..];
      var end := IndexOf(value, '"');
      if end == |value| then None
      else
        var ts := Parse(value[..end]);
        if ts.Ok? then Some(ts.value) else None
  }

  lemma {:induction false} StartsFar(n: nat, text: string)
    requires n <= 7 && TS_KEY <= text
    ensures FindText(START[n..] + text, TS_KEY) == 7 - n
    decreases 7 - n
  {
    var all := START[n..] + text;
    if n == 7 {
      assert all == text;
    } else {
      StartsFar(n + 1, text);
      assert all[1..] == START[n + 1..] + text;
      assert all[0] == START[n] && all[1] == (if n == 6 then '"' else START[n + 1]);
      assert TS_KEY[0] == '"' && TS_KEY[1] == 't';
    }
  }

  /** The timestamp of a line reads back exactly, whatever text the event holds, in the
      years the text form has room for; in other years the line has no readable
      timestamp. */
  lemma TimestampReadsBack(e: BizEvent, ts: int)
    ensures TimestampOf(Line(e, ts)) == if InRange(ts) then Some(ts) else None
  {
    hide Format, Parse, Body, KindText, InRange, FindText, IndexOf;
    var tail := "\",\"event\":\"" + KindText(e.kind) + "\"" + Body(e) + "}";
    var line := Line(e, ts);
    var rest := TS_KEY + (Format(ts) + tail);
    assert line == START + rest;
    assert rest[..6] == TS_KEY;
    assert START[0..] == START;
    StartsFar(0, rest);
    var value := line[7 + |TS_KEY|..];
    assert value == Format(ts) + tail;
    FormatIsPlain(ts);
    assert value[|Format(ts)|] == '"' && forall i :: 0 <= i < |Format(ts)| ==> value[i] == Format(ts)[i];
    assert IndexOf(value, '"') == |Format(ts)|;
    assert value[..|Format(ts)|] == Format(ts);
    FormatParses(ts);
  }

  // --- The two files ----------------------------------------------------------------------

  /** std::getline over a whole file. */
  function Lines(text: string): seq<string> {
    if text == "" then []
    else
      var k := IndexOf(text, '\n');
      if k == |text| then [text] else [text[..k]] + Lines(text[k + 1..])
  }

  function TextOf(lines: seq<string>): string {
    if lines == [] then "" else lines[0] + "\n" + TextOf(lines[1..])
  }

  lemma {:induction false} LinesOfText(lines: seq<string>)
    requires forall i :: 0 <= i < |lines| ==> '\n' !in lines[i]
    ensures Lines(TextOf(lines)) == lines
  {
    hide IndexOf;
    if lines != [] {
      var first, rest, text := lines[0], lines[1..], TextOf(lines);
      LinesOfText(rest);
      assert text == first + "\n" + TextOf(rest);
      assert text[|first|] == '\n' && forall i :: 0 <= i < |first| ==> text[i] == first[i];
      assert IndexOf(text, '\n') == |first|;
      assert text[..|first|] == first && text[|first| + 1..] == TextOf(rest);
      assert lines == [first] + rest;
    }
  }

  lemma {:induction false} TextSnoc(lines: seq<string>, line: string)
    ensures TextOf(lines + [line]) == TextOf(lines) + line + "\n"
  {
    if lines == [] {
      assert [line][1..] == [];
      assert TextOf([line]) == line + "\n" + "";
      assert [] + [line] == [line];
    } else {
      TextSnoc(lines[1..], line);
      assert (lines + [line])[1..] == lines[1..] + [line];
    }
  }

  /** What is on disk, path.1 and path, and the sink's count. */
  datatype Sink = Sink(previous: Option<string>, current: Option<string>, written: nat)

  /** The line would not fit. */
  predicate Full(rotateBytes: nat, k: Sink, line: string) {
    rotateBytes > 0 && k.written + |line| > rotateBytes
  }

  /** The write rotates the files, and that works. */
  predicate Rotated(rotateBytes: nat, k: Sink, line: string, renamed: bool) {
    Full(rotateBytes, k, line) && renamed && k.current.Some?
  }

  /** FileSink::write (sink.cpp:45-57) with rotate (37-43); `renamed` says whether the
      rename, if there is one, works. */
  function Wrote(rotateBytes: nat, k: Sink, line: string, renamed: bool): Sink {
    var k0 :=
      if !Full(rotateBytes, k, line) then k
      else if renamed && k.current.Some? then Sink(k.current, None, 0)
      else k.(written := 0);
    Sink(k0.previous, Some((if k0.current.Some? then k0.current.value else "") + line + "\n"), k0.written + |line| + 1)
  }

  /** A new process counts what the file already has (sink.cpp:29-35). */
  function Reopened(k: Sink): Sink {
    k.(written := if k.current.Some? then |k.current.value| else 0)
  }

  /** What happens to a log: events recorded at a time, and restarts. */
  datatype Act = Record(event: BizEvent, ts: int, renamed: bool) | Restart

  function After(rotateBytes: nat, acts: seq<Act>): Sink {
    if acts == [] then Sink(None, None, 0)
    else
      var k := After(rotateBytes, acts[..|acts| - 1]);
      match acts[|acts| - 1]
      case Record(event, ts, renamed) => Wrote(rotateBytes, k, Line(event, ts), renamed)
      case Restart => Reopened(k)
  }

  datatype Entry = Entry(event: BizEvent, ts: int)

  /** What was recorded, in order. */
  function Recorded(acts: seq<Act>): seq<Entry> {
    if acts == [] then []
    else
      var front, act := Recorded(acts[..|acts| - 1]), acts[|acts| - 1];
      if act.Record? then front + [Entry(act.event, act.ts)] else front
  }

  function LinesFor(entries: seq<Entry>): seq<string> {
    seq(|entries|, i requires 0 <= i < |entries| => Line(entries[i].event, entries[i].ts))
  }

  function Contents(file: Option<string>): string {
    if file.Some? then file.value else ""
  }

  /** Where the previous and the current file begin in the record: at the last two rotations
      that worked, or at its start. */
  function Cuts(rotateBytes: nat, acts: seq<Act>): (nat, nat) {
    if acts == [] then (0, 0)
    else
      var front, act := acts[..|acts| - 1], acts[|acts| - 1];
      var (p, c) := Cuts(rotateBytes, front);
      if act.Record? && Rotated(rotateBytes, After(rotateBytes, front), Line(act.event, act.ts), act.renamed)
      then (c, |Recorded(front)|) else (p, c)
  }

  /** The files hold the lines of two neighbouring stretches of the record, the later one
      reaching its end. */
  ghost predicate Holds(k: Sink, entries: seq<Entry>, cuts: (nat, nat)) {
    var (p, c) := cuts;
    && p <= c <= |entries| && (entries != [] ==> c < |entries|)
    && Contents(k.previous) == TextOf(LinesFor(entries[p..c]))
    && Contents(k.current) == TextOf(LinesFor(entries[c..]))
  }

  lemma LinesForSnoc(entries: seq<Entry>, x: Entry)
    ensures LinesFor(entries + [x]) == LinesFor(entries) + [Line(x.event, x.ts)]
  {
    hide Line;
  }

  lemma WriteHolds(rotateBytes: nat, k: Sink, entries: seq<Entry>, cuts: (nat, nat), x: Entry, renamed: bool)
    requires Holds(k, entries, cuts)
    ensures var line := Line(x.event, x.ts);
            Holds(Wrote(rotateBytes, k, line, renamed), entries + [x],
                  if Rotated(rotateBytes, k, line, renamed) then (cuts.1, |entries|) else cuts)
  {
    hide Line, LinesFor;
    var (p, c) := cuts;
    var all, line := entries + [x], Line(x.event, x.ts);
    if Rotated(rotateBytes, k, line, renamed) {
      assert all[c..|entries|] == entries[c..] && all[|entries|..] == [] + [x] && entries[|entries|..] == [];
      LinesForSnoc([], x);
      NoLines();
      TextSnoc([], line);
    } else {
      assert all[p..c] == entries[p..c] && all[c..] == entries[c..] + [x];
      LinesForSnoc(entries[c..], x);
      TextSnoc(LinesFor(entries[c..]), line);
    }
  }

  lemma NoLines()
    ensures LinesFor([]) == [] && TextOf([]) == ""
  {}

  /** However records, rotations that work or fail, and restarts come, the two files hold
      the record from the last but one working rotation to its end, cut at the last one. */
  lemma {:induction false} FilesHoldTheEnd(rotateBytes: nat, acts: seq<Act>)
    ensures Holds(After(rotateBytes, acts), Recorded(acts), Cuts(rotateBytes, acts))
  {
    hide Line, Wrote, Rotated;
    if acts == [] {
      NoLines();
    } else {
      var front, act := acts[..|acts| - 1], acts[|acts| - 1];
      FilesHoldTheEnd(rotateBytes, front);
      if act.Record? {
        var x := Entry(act.event, act.ts);
        WriteHolds(rotateBytes, After(rotateBytes, front), Recorded(front), Cuts(rotateBytes, front), x, act.renamed);
      }
    }
  }

  /** A rotated log stays small: while renames work, the current file is within the limit, but
      for the line break at its end, or holds one line only. */
  lemma {:induction false} FilesStaySmall(rotateBytes: nat, acts: seq<Act>)
    requires rotateBytes > 0
    requires forall a :: a in acts && a.Record? ==> a.renamed
    ensures var k := After(rotateBytes, acts);
            && k.written == |Contents(k.current)|
            && (|Contents(k.current)| <= rotateBytes + 1 || Contents(k.current) == LastLine(acts) + "\n")
  {
    hide Line;
    if acts != [] {
      FilesStaySmall(rotateBytes, acts[..|acts| - 1]);
      assert acts[|acts| - 1] in acts;
    }
  }

  function LastLine(acts: seq<Act>): string {
    if acts == [] then ""
    else
      match acts[|acts| - 1]
      case Record(event, ts, _) => Line(event, ts)
      case Restart => LastLine(acts[..|acts| - 1])
  }

  lemma {:induction false} NeverRotates(acts: seq<Act>)
    ensures Cuts(0, acts) == (0, 0)
  {
    if acts != [] {
      NeverRotates(acts[..|acts| - 1]);
    }
  }

  // --- Queries --------------------------------------------------------------------------------

  datatype Query = Query(from: int, until: int, limit: nat)

  predicate Wanted(q: Query, ts: int) {
    q.from <= ts < q.until
  }

  predicate LineWanted(q: Query, line: string) {
    TimestampOf(line).Some? && Wanted(q, TimestampOf(line).value)
  }

  function Matching(q: Query, lines: seq<string>): seq<string> {
    if lines == [] then []
    else
      var front, last := Matching(q, lines[..|lines| - 1]), lines[|lines| - 1];
      if LineWanted(q, last) then front + [last] else front
  }

  function FirstOf(lines: seq<string>, n: nat): seq<string> {
    if |lines| <= n then lines else lines[..n]
  }

  /** The entries in the window, by the time they were recorded at. */
  function InWindow(q: Query, entries: seq<Entry>): seq<Entry> {
    if entries == [] then []
    else
      var front, last := InWindow(q, entries[..|entries| - 1]), entries[|entries| - 1];
      if InRange(last.ts) && Wanted(q, last.ts) then front + [last] else front
  }

  /** An entry is in the window exactly if its time is from `from` to before `until`, and is one
      that a line can say; the others before and after it do not matter. */
  lemma {:induction false} WindowExactly(q: Query, before: seq<Entry>, x: Entry, after: seq<Entry>)
    ensures InWindow(q, []) == []
    ensures InWindow(q, before + [x] + after)
            == InWindow(q, before)
             + (if q.from <= x.ts < q.until && InRange(x.ts) then [x] else [])
             + InWindow(q, after)
  {
    hide InRange;
    var all := before + [x] + after;
    if after == [] {
      assert all == before + [x] && all[..|all| - 1] == before;
    } else {
      var front, last := after[..|after| - 1], after[|after| - 1];
      WindowExactly(q, before, x, front);
      assert all[..|all| - 1] == before + [x] + front;
    }
  }

  lemma {:induction false} MatchingIsInWindow(q: Query, entries: seq<Entry>)
    ensures Matching(q, LinesFor(entries)) == LinesFor(InWindow(q, entries))
  {
    hide Line, TimestampOf, InRange;
    if entries != [] {
      var front, last := entries[..|entries| - 1], entries[|entries| - 1];
      MatchingIsInWindow(q, front);
      TimestampReadsBack(last.event, last.ts);
      var lines := LinesFor(entries);
      assert lines[..|lines| - 1] == LinesFor(front) && lines[|lines| - 1] == Line(last.event, last.ts);
      LinesForSnoc(InWindow(q, front), last);
    }
  }

  /** read_business_log (business_log_reader.cpp:63-76). */
  function Answer(k: Sink, q: Query): seq<string> {
    FirstOf(Matching(q, Lines(Contents(k.previous)) + Lines(Contents(k.current))), q.limit)
  }

  lemma LinesForSplit(entries: seq<Entry>, p: nat, c: nat)
    requires p <= c <= |entries|
    ensures LinesFor(entries[p..c]) + LinesFor(entries[c..]) == LinesFor(entries[p..])
  {
    hide Line;
    var a, b, all := LinesFor(entries[p..c]), LinesFor(entries[c..]), LinesFor(entries[p..]);
    forall i | 0 <= i < |all| ensures (a + b)[i] == all[i] {
      assert entries[p..][i] == entries[p + i];
      assert i >= c - p ==> entries[c..][i - (c - p)] == entries[p + i];
    }
  }

  /** Read-back: after any run of the log, a query gives the lines of the first `limit`
      entries recorded in its window, in the order they were recorded, out of all entries since
      the last but one working rotation: of the whole record if the log never rotates. */
  lemma LogReadsBack(rotateBytes: nat, acts: seq<Act>, q: Query)
    ensures Cuts(rotateBytes, acts).0 <= |Recorded(acts)| && Cuts(0, acts).0 == 0
    ensures Answer(After(rotateBytes, acts), q)
            == FirstOf(LinesFor(InWindow(q, Recorded(acts)[Cuts(rotateBytes, acts).0..])), q.limit)
  {
    hide Line, After, Recorded, Matching, Lines, TextOf, Cuts;
    var entries, k, cuts := Recorded(acts), After(rotateBytes, acts), Cuts(rotateBytes, acts);
    NeverRotates(acts);
    FilesHoldTheEnd(rotateBytes, acts);
    LinesAreLines(entries[cuts.0..cuts.1]);
    LinesAreLines(entries[cuts.1..]);
    LinesForSplit(entries, cuts.0, cuts.1);
    MatchingIsInWindow(q, entries[cuts.0..]);
  }

  lemma LinesAreLines(entries: seq<Entry>)
    ensures Lines(TextOf(LinesFor(entries))) == LinesFor(entries)
  {
    hide Line;
    forall i | 0 <= i < |entries| ensures '\n' !in LinesFor(entries)[i] {
      LineIsOneLine(entries[i].event, entries[i].ts);
    }
    LinesOfText(LinesFor(entries));
  }

  // --- The loops and the sink -------------------------------------------------------------------

  /** json_escape (json.cpp:7-36). */
  method JsonEscape(s: string) returns (out: string)
    ensures out == Escape(s)
  {
    hide EscapeChar;
    out := "";
    assert s[0..] == s && "" + Escape(s) == Escape(s);
    for i := 0 to |s|
      invariant Escape(s) == out + Escape(s[i..])
    {
      assert s[i..][0] == s[i] && s[i..][1..] == s[i + 1..];
      assert out + (EscapeChar(s[i]) + Escape(s[i + 1..])) == out + EscapeChar(s[i]) + Escape(s[i + 1..]);
      out := out + EscapeChar(s[i]);
    }
    assert s[|s|..] == "" && out + "" == out;
  }

  class FileSink {
    const rotateBytes: nat
    var previous: Option<string>
    var current: Option<string>
    var written: nat

    ghost function State(): Sink
      reads this
    {
      Sink(previous, current, written)
    }

    constructor (rotateBytes: nat, previous: Option<string>, current: Option<string>)
      ensures this.rotateBytes == rotateBytes
      ensures State() == Reopened(Sink(previous, current, 0))
    {
      this.rotateBytes := rotateBytes;
      this.previous := previous;
      this.current := current;
      written := if current.Some? then |current.value| else 0;
    }

    method Rotate(renamed: bool)
      modifies this
      ensures written == 0
      ensures if renamed && old(current).Some? then previous == old(current) && current == None
              else previous == old(previous) && current == old(current)
    {
      if renamed && current.Some? {
        previous := current;
        current := None;
      }
      written := 0;
    }

    method Write(line: string, renamed: bool)
      modifies this
      ensures State() == Wrote(rotateBytes, old(State()), line, renamed)
      ensures var rotates := rotateBytes > 0 && old(written) + |line| > rotateBytes && renamed && old(current).Some?;
              if rotates then previous == old(current) && current == Some(line + "\n")
              else previous == old(previous) && current == Some(Contents(old(current)) + line + "\n")
    {
      if rotateBytes > 0 && written + |line| > rotateBytes {
        Rotate(renamed);
      }
      assert "" + line == line;
      current := Some((if current.Some? then current.value else "") + line + "\n");
      written := written + |line| + 1;
    }

    /** BusinessLog::record (business_log.cpp:91-95). */
    method Record(event: BizEvent, ts: int, renamed: bool, ghost acts: seq<Act>)
      requires State() == After(rotateBytes, acts)
      modifies this
      ensures State() == After(rotateBytes, acts + [Act.Record(event, ts, renamed)])
    {
      hide Line, Wrote;
      assert (acts + [Act.Record(event, ts, renamed)])[..|acts|] == acts;
      Write(Line(event, ts), renamed);
    }
  }

  /** A log file as the reader meets it: its content, if it exists, whether it opens, and how
      many of its lines can be read. */
  datatype LogFile = LogFile(content: Option<string>, opens: bool, readable: nat)

  predicate Readable(f: LogFile) {
    f.content.Some? ==> f.opens && f.readable >= |Lines(f.content.value)|
  }

  /** scan (business_log_reader.cpp:34-59): false once the limit is reached. A file that
      cannot be read to its end is an error, unless the limit comes first. */
  method Scan(f: LogFile, q: Query, sofar: seq<string>) returns (r: Result<seq<string>>, more: bool)
    requires |sofar| < q.limit
    ensures r.Ok? ==> r.value == FirstOf(sofar + Matching(q, Lines(Contents(f.content))), q.limit)
    ensures r.Ok? ==> (more <==> |r.value| < q.limit)
    ensures Readable(f) ==> r.Ok?
    ensures r.Err? ==> r.code == Io
    ensures f.content.Some? && !f.opens ==> r.Err?
  {
    hide TimestampOf, Lines;
    var out := sofar;
    more := true;
    if f.content.None? {
      NoLinesInNothing();
      assert sofar + [] == sofar;
      return Ok(out), more;
    }
    if !f.opens {
      return Err(Io), more;
    }
    var lines := Lines(f.content.value);
    for i := 0 to |lines|
      invariant |out| < q.limit && more
      invariant out == sofar + Matching(q, lines[..i])
    {
      if i == f.readable {
        return Err(Io), more;
      }
      assert lines[..i + 1][..i] == lines[..i];
      if LineWanted(q, lines[i]) {
        out := out + [lines[i]];
        if |out| >= q.limit {
          MatchingGrows(q, lines, i + 1);
          assert (sofar + Matching(q, lines))[..q.limit] == out;
          return Ok(out), false;
        }
      }
    }
    assert lines[..|lines|] == lines;
    return Ok(out), more;
  }

  lemma NoLinesInNothing()
    ensures Lines("") == []
  {}

  lemma {:induction false} MatchingGrows(q: Query, lines: seq<string>, n: nat)
    requires n <= |lines|
    ensures Matching(q, lines[..n]) <= Matching(q, lines)
  {
    hide TimestampOf;
    if n == |lines| {
      assert lines[..n] == lines;
    } else {
      MatchingGrows(q, lines[..|lines| - 1], n);
      assert lines[..|lines| - 1][..n] == lines[..n];
    }
  }

  lemma {:induction false} MatchingConcat(q: Query, a: seq<string>, b: seq<string>)
    ensures Matching(q, a + b) == Matching(q, a) + Matching(q, b)
  {
    hide TimestampOf;
    if b == [] {
      assert a + b == a;
    } else {
      var front := b[..|b| - 1];
      MatchingConcat(q, a, front);
      assert (a + b)[..|a + b| - 1] == a + front;
    }
  }

  lemma {:induction false} EmptyWindow(q: Query, lines: seq<string>)
    requires q.from >= q.until
    ensures Matching(q, lines) == []
  {
    if lines != [] {
      EmptyWindow(q, lines[..|lines| - 1]);
    }
  }

  /** read_business_log (business_log_reader.cpp:63-76). */
  method ReadBusinessLog(previous: LogFile, current: LogFile, q: Query) returns (r: Result<seq<string>>)
    ensures r.Ok? ==> r.value == Answer(Sink(previous.content, current.content, 0), q)
    ensures r.Err? ==> r.code == Io
    ensures Readable(previous) && Readable(current) ==> r.Ok?
  {
    hide Matching, Lines, Readable;
    var older, newer := Lines(Contents(previous.content)), Lines(Contents(current.content));
    MatchingConcat(q, older, newer);
    if q.limit == 0 || q.from >= q.until {
      if q.from >= q.until {
        EmptyWindow(q, older + newer);
      }
      return Ok([]);
    }
    assert [] + Matching(q, older) == Matching(q, older);
    var out, more := Scan(previous, q, []);
    if out.Err? {
      return Err(out.code);
    }
    if !more {
      return Ok(out.value);
    }
    r, more := Scan(current, q, out.value);
  }
}
