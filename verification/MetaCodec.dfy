/** Sha256Digest::to_hex and from_hex (src/lib/common/sha256.cpp:37-61). */
module Hex {
  import opened Basics
  import opened FileList

  function HexDigit(n: int): char
    requires 0 <= n < 16
  {
    if n < 10 then '0' + n as char else 'a' + (n - 10) as char
  }

  /** Lower-case hexadecimal digits. */
  lemma HexDigitsAre(n: int)
    requires 0 <= n < 16
    ensures HexDigit(n) == "0123456789abcdef"[n]
  {}

  /** The hex form shows each byte's high half first. */
  lemma HexShows(bytes: seq<Byte>, i: nat)
    requires i < |bytes|
    ensures |HexText(bytes)| == 2 * |bytes|
    ensures HexText(bytes)[2 * i] == "0123456789abcdef"[bytes[i] / 16]
    ensures HexText(bytes)[2 * i + 1] == "0123456789abcdef"[bytes[i] % 16]
  {
    HexDigitsAre(bytes[i] / 16);
    HexDigitsAre(bytes[i] % 16);
  }

  function Nibble(c: char): (n: int)
    ensures -1 <= n < 16
  {
    if '0' <= c <= '9' then c as int - '0' as int
    else if 'a' <= c <= 'f' then c as int - 'a' as int + 10
    else if 'A' <= c <= 'F' then c as int - 'A' as int + 10
    else -1
  }

  function Lower(c: char): char {
    if 'A' <= c <= 'Z' then ('a' as int + (c as int - 'A' as int)) as char else c
  }

  ghost predicate IsHexOf(text: string, bytes: seq<Byte>) {
    |text| == 2 * |bytes| &&
    forall i :: 0 <= i < |bytes| ==>
      text[2 * i] == HexDigit(bytes[i] / 16) && text[2 * i + 1] == HexDigit(bytes[i] % 16)
  }

  function HexText(bytes: seq<Byte>): (s: string)
    ensures IsHexOf(s, bytes)
  {
    if bytes == [] then ""
    else HexText(bytes[..|bytes| - 1]) + [HexDigit(bytes[|bytes| - 1] / 16), HexDigit(bytes[|bytes| - 1] % 16)]
  }

  function ReadHex(text: string): Result<seq<Byte>>
    requires |text| % 2 == 0
  {
    if text == "" then Ok([])
    else
      var front :- ReadHex(text[..|text| - 2]);
      var hi, lo := Nibble(text[|text| - 2]), Nibble(text[|text| - 1]);
      if hi < 0 || lo < 0 then Err(Validation) else Ok(front + [16 * hi + lo])
  }

  function ToHex(d: Digest): string {
    HexText(d)
  }

  function FromHex(text: string): Result<Digest> {
    if |text| != 64 then Err(Validation)
    else
      var bytes :- ReadHex(text);
      HexLength(text);
      Ok(bytes)
  }

  lemma {:induction false} HexLength(text: string)
    requires |text| % 2 == 0
    ensures ReadHex(text).Ok? ==> 2 * |ReadHex(text).value| == |text|
  {
    if text != "" {
      HexLength(text[..|text| - 2]);
    }
  }

  lemma DigitReads(n: int)
    requires 0 <= n < 16
    ensures Nibble(HexDigit(n)) == n
  {}

  lemma {:induction false} ReadsBack(bytes: seq<Byte>)
    ensures ReadHex(HexText(bytes)) == Ok(bytes)
  {
    if bytes != [] {
      ReadsBack(bytes[..|bytes| - 1]);
      ReadsOneMore(bytes[..|bytes| - 1], bytes[|bytes| - 1]);
      assert bytes == bytes[..|bytes| - 1] + [bytes[|bytes| - 1]];
    }
  }

  lemma ReadsOneMore(front: seq<Byte>, b: Byte)
    requires ReadHex(HexText(front)) == Ok(front)
    ensures ReadHex(HexText(front + [b])) == Ok(front + [b])
  {
    hide HexText, ReadHex, HexDigit;
    ReadsPair(HexText(front), front, b / 16, b % 16);
    HexPair(front, b / 16, b % 16);
    assert 16 * (b / 16) + b % 16 == b;
  }

  lemma ReadsPair(text: string, bytes: seq<Byte>, hi: int, lo: int)
    requires |text| % 2 == 0 && ReadHex(text) == Ok(bytes) && 0 <= hi < 16 && 0 <= lo < 16
    ensures ReadHex(text + [HexDigit(hi), HexDigit(lo)]) == Ok(bytes + [16 * hi + lo])
  {
    hide HexDigit, Nibble;
    DigitReads(hi);
    DigitReads(lo);
    var longer := text + [HexDigit(hi), HexDigit(lo)];
    assert longer[..|longer| - 2] == text;
  }

  /** The digest comes back from its hex form. */
  lemma HexRoundTrip(d: Digest)
    ensures FromHex(ToHex(d)) == Ok(d)
  {
    ReadsBack(d);
  }

  lemma NibbleCanonical(c: char)
    ensures Nibble(c) >= 0 ==> HexDigit(Nibble(c)) == Lower(c)
  {}

  function LowerText(s: string): string {
    seq(|s|, i requires 0 <= i < |s| => Lower(s[i]))
  }

  lemma LowerPair(s: string)
    requires |s| >= 2
    ensures LowerText(s) == LowerText(s[..|s| - 2]) + [Lower(s[|s| - 2]), Lower(s[|s| - 1])]
  {
    hide Lower;
  }

  lemma HexPair(front: seq<Byte>, hi: int, lo: int)
    requires 0 <= hi < 16 && 0 <= lo < 16
    ensures HexText(front + [16 * hi + lo]) == HexText(front) + [HexDigit(hi), HexDigit(lo)]
  {
    var v := front + [16 * hi + lo];
    assert v[..|v| - 1] == front;
    assert (16 * hi + lo) / 16 == hi && (16 * hi + lo) % 16 == lo;
  }

  /** The other direction: every accepted text, upper or lower case, is, in
      lower case, the form of the digest it reads as. */
  lemma {:induction false} HexCanonical(text: string)
    requires |text| % 2 == 0 && ReadHex(text).Ok?
    ensures HexText(ReadHex(text).value) == LowerText(text)
  {
    hide Lower, HexDigit, Nibble, HexText, LowerText;
    if text != "" {
      var n := |text|;
      var hi, lo := Nibble(text[n - 2]), Nibble(text[n - 1]);
      HexCanonical(text[..n - 2]);
      NibbleCanonical(text[n - 2]);
      NibbleCanonical(text[n - 1]);
      HexPair(ReadHex(text[..n - 2]).value, hi, lo);
      LowerPair(text);
    } else {
      EmptyForms();
    }
  }

  lemma EmptyForms()
    ensures HexText([]) == "" == LowerText("")
  {}

  /** to_hex, filling the text by index. */
  method ToHexLoop(bytes: seq<Byte>) returns (out: string)
    ensures out == HexText(bytes)
  {
    out := "";
    for i := 0 to |bytes|
      invariant out == HexText(bytes[..i])
    {
      assert bytes[..i + 1][..i] == bytes[..i];
      out := out + [HexDigit(bytes[i] / 16), HexDigit(bytes[i] % 16)];
    }
    assert bytes[..|bytes|] == bytes;
  }

  /** from_hex, pair by pair. */
  method FromHexLoop(hex: string) returns (r: Result<Digest>)
    ensures r == FromHex(hex)
  {
    if |hex| != 64 {
      return Err(Validation);
    }
    var out: seq<Byte> := [];
    for i := 0 to 32
      invariant |out| == i
      invariant ReadHex(hex[..2 * i]) == Ok(out)
    {
      var hi, lo := Nibble(hex[2 * i]), Nibble(hex[2 * i + 1]);
      assert hex[..2 * i + 2][..2 * i] == hex[..2 * i];
      if hi < 0 || lo < 0 {
        BadPrefix(hex, 2 * i + 2);
        return Err(Validation);
      }
      out := out + [16 * hi + lo];
    }
    assert hex[..64] == hex;
    return Ok(out);
  }

  lemma {:induction false} BadPrefix(text: string, k: nat)
    requires |text| % 2 == 0 && k % 2 == 0 && k <= |text| && ReadHex(text[..k]).Err?
    ensures ReadHex(text) == Err(Validation)
    decreases |text|
  {
    if k == |text| {
      assert text[..k] == text;
      OnlyValidation(text);
    } else {
      assert text[..|text| - 2][..k] == text[..k];
      BadPrefix(text[..|text| - 2], k);
    }
  }

  lemma {:induction false} OnlyValidation(text: string)
    requires |text| % 2 == 0
    ensures ReadHex(text).Err? ==> ReadHex(text).code == Validation
  {
    if text != "" {
      OnlyValidation(text[..|text| - 2]);
    }
  }
}

/** meta.json and manifest.json (src/lib/transaction/codec.cpp) over JSON value
    trees; writing and parsing the JSON text itself belongs to Boost.JSON. */
module MetaCodec {
  import opened Basics
  import opened PathOrder
  import opened FileList
  import opened Transactions
  import opened Paths
  import Hex
  import Time

  /** Names of object members; any name the codec does not know is an Other. */
  datatype Key =
    | V | Id | Sender | TargetUser | TargetServer | OriginServer | Comment | StateKey
    | CreatedAt | ExpiresAt | CommittedAt | DeliveredAt | Files | Path | Size | Sha256
    | Other(name: string)

  datatype Json =
    | Null | Bool(b: bool) | Num(n: int) | Real | Str(s: string)
    | Arr(items: seq<Json>) | Obj(fields: map<Key, Json>)

  const DOCUMENT_VERSION := 1

  const UINT64 := 0x1_0000_0000_0000_0000

  function StateText(s: State): string {
    match s
    case Open => "open"
    case Committed => "committed"
    case Delivered => "delivered"
    case Expired => "expired"
  }

  function ParseState(text: string): Result<State> {
    if text == StateText(Open) then Ok(Open)
    else if text == StateText(Committed) then Ok(Committed)
    else if text == StateText(Delivered) then Ok(Delivered)
    else if text == StateText(Expired) then Ok(Expired)
    else Err(Validation)
  }

  lemma StateReads(s: State)
    ensures ParseState(StateText(s)) == Ok(s)
  {
    assert "committed"[0] == 'c' && "delivered"[0] == 'd' && "expired"[0] == 'e' && "open"[0] == 'o';
  }

  /** The forwarder asks only whether a peer's answer says "open". */
  lemma OnlyOpenSaysOpen(s: State)
    ensures StateText(s) == "open" <==> s == Open
  {
    assert "committed"[0] == 'c' && "delivered"[0] == 'd' && "expired"[0] == 'e' && "open"[0] == 'o';
  }

  // --- Encoding ---------------------------------------------------------

  function EncodeEntry(f: FileEntry): Json {
    Obj(map[Path := Str(f.path), Size := Num(f.size), Sha256 := Str(Hex.ToHex(f.sha256))])
  }

  function EncodeEntries(files: seq<FileEntry>): (r: seq<Json>)
    ensures |r| == |files|
    ensures forall i :: 0 <= i < |files| ==> r[i] == EncodeEntry(files[i])
  {
    if files == [] then [] else EncodeEntries(files[..|files| - 1]) + [EncodeEntry(files[|files| - 1])]
  }

  function WithTime(obj: map<Key, Json>, key: Key, t: Option<int>): map<Key, Json> {
    match t
    case None => obj
    case Some(v) => obj[key := Str(Time.Format(v))]
  }

  function MetaBase(tx: Transaction): map<Key, Json> {
    map[V := Num(DOCUMENT_VERSION),
        Id := Str(tx.id),
        Sender := Str(tx.sender),
        TargetUser := Str(tx.targetUser),
        TargetServer := Str(tx.targetServer),
        OriginServer := Str(tx.originServer),
        Comment := Str(tx.comment),
        StateKey := Str(StateText(tx.state)),
        CreatedAt := Str(Time.Format(tx.createdAt)),
        ExpiresAt := Str(Time.Format(tx.expiresAt))]
  }

  function EncodeMeta(tx: Transaction): Json {
    var timed := WithTime(WithTime(MetaBase(tx), CommittedAt, tx.committedAt), DeliveredAt, tx.deliveredAt);
    Obj(timed[Files := Arr(EncodeEntries(tx.files))])
  }

  function EncodeManifest(id: string, files: seq<FileEntry>): Json {
    Obj(map[V := Num(DOCUMENT_VERSION), Id := Str(id), Files := Arr(EncodeEntries(files))])
  }

  // --- Decoding ---------------------------------------------------------

  function GetString(obj: map<Key, Json>, key: Key): Result<string> {
    if key in obj && obj[key].Str? then Ok(obj[key].s) else Err(Validation)
  }

  function GetOptionalString(obj: map<Key, Json>, key: Key): Result<string> {
    if key !in obj || obj[key].Null? then Ok("") else GetString(obj, key)
  }

  function GetName(obj: map<Key, Json>, key: Key): Result<string> {
    var s :- GetString(obj, key);
    if s == "" then Err(Validation) else Ok(s)
  }

  function GetUint64(obj: map<Key, Json>, key: Key): Result<nat> {
    if key in obj && obj[key].Num? && 0 <= obj[key].n < UINT64 then Ok(obj[key].n) else Err(Validation)
  }

  function GetTimestamp(obj: map<Key, Json>, key: Key): Result<int> {
    var text :- GetString(obj, key);
    Time.Parse(text)
  }

  function GetOptionalTimestamp(obj: map<Key, Json>, key: Key): Result<Option<int>> {
    if key !in obj || obj[key].Null? then Ok(None)
    else
      var t :- GetTimestamp(obj, key);
      Ok(Some(t))
  }

  function GetId(obj: map<Key, Json>): Result<string> {
    var s :- GetString(obj, Id);
    if ValidId(s) then Ok(s) else Err(Validation)
  }

  function CheckVersion(obj: map<Key, Json>): Result<()> {
    var v :- GetUint64(obj, V);
    if v == DOCUMENT_VERSION then Ok(()) else Err(Validation)
  }

  function DecodeEntry(item: Json): Result<FileEntry> {
    if !item.Obj? then Err(Validation)
    else
      var path :- GetString(item.fields, Path);
      if !ValidPath(path) then Err(Validation)
      else
        var size :- GetUint64(item.fields, Size);
        var hex :- GetString(item.fields, Sha256);
        var sha256 :- Hex.FromHex(hex);
        Ok(FileEntry(path, size, sha256))
  }

  function DecodeEntries(items: seq<Json>): Result<seq<FileEntry>> {
    if items == [] then Ok([])
    else
      var front :- DecodeEntries(items[..|items| - 1]);
      var e :- DecodeEntry(items[|items| - 1]);
      Ok(front + [e])
  }

  /** std::ranges::sort by path: an ordering of the same entries. Where two
      entries share a path the order does not matter, the list is refused. */
  function InsertByPath(sorted: seq<FileEntry>, e: FileEntry): seq<FileEntry> {
    if sorted == [] || Less(e.path, sorted[0].path) then [e] + sorted
    else [sorted[0]] + InsertByPath(sorted[1..], e)
  }

  function SortByPath(files: seq<FileEntry>): seq<FileEntry> {
    if files == [] then [] else InsertByPath(SortByPath(files[..|files| - 1]), files[|files| - 1])
  }

  predicate HasAdjacentDuplicate(files: seq<FileEntry>) {
    exists i :: 0 <= i < |files| - 1 && files[i].path == files[i + 1].path
  }

  function DecodeFiles(obj: map<Key, Json>): Result<seq<FileEntry>> {
    if Files !in obj || !obj[Files].Arr? then Err(Validation)
    else
      var entries :- DecodeEntries(obj[Files].items);
      var files := SortByPath(entries);
      if HasAdjacentDuplicate(files) then Err(Validation) else Ok(files)
  }

  function DecodeMeta(doc: Json): Result<Transaction> {
    if !doc.Obj? then Err(Validation)
    else
      var obj := doc.fields;
      var _ :- CheckVersion(obj);
      var id :- GetId(obj);
      var sender :- GetName(obj, Sender);
      var targetUser :- GetName(obj, TargetUser);
      var targetServer :- GetString(obj, TargetServer);
      var originServer :- GetString(obj, OriginServer);
      var comment :- GetOptionalString(obj, Comment);
      var stateText :- GetString(obj, StateKey);
      var state :- ParseState(stateText);
      var createdAt :- GetTimestamp(obj, CreatedAt);
      var expiresAt :- GetTimestamp(obj, ExpiresAt);
      var committedAt :- GetOptionalTimestamp(obj, CommittedAt);
      var deliveredAt :- GetOptionalTimestamp(obj, DeliveredAt);
      var files :- DecodeFiles(obj);
      Ok(Transaction(id, sender, targetUser, targetServer, originServer, comment, state,
                     createdAt, expiresAt, committedAt, deliveredAt, files))
  }

  function DecodeManifest(doc: Json): Result<seq<FileEntry>> {
    if !doc.Obj? then Err(Validation)
    else
      var _ :- CheckVersion(doc.fields);
      DecodeFiles(doc.fields)
  }

  // --- What the documents can carry ---------------------------------------

  predicate EntryOk(e: FileEntry) {
    ValidPath(e.path) && e.size < UINT64
  }

  /** File lists that survive: every entry well formed, strictly sorted. */
  ghost predicate FilesOk(files: seq<FileEntry>) {
    Sorted(files) && forall i :: 0 <= i < |files| ==> EntryOk(files[i])
  }

  predicate TimesOk(tx: Transaction) {
    && Time.InRange(tx.createdAt) && Time.InRange(tx.expiresAt)
    && (tx.committedAt.Some? ==> Time.InRange(tx.committedAt.value))
    && (tx.deliveredAt.Some? ==> Time.InRange(tx.deliveredAt.value))
  }

  ghost predicate FieldsOk(tx: Transaction) {
    ValidId(tx.id) && tx.sender != "" && tx.targetUser != "" && FilesOk(tx.files)
  }

  // --- Sorting --------------------------------------------------------------

  lemma {:induction false} InsertAtEnd(sorted: seq<FileEntry>, e: FileEntry)
    requires forall i :: 0 <= i < |sorted| ==> !Less(e.path, sorted[i].path)
    ensures InsertByPath(sorted, e) == sorted + [e]
  {
    if sorted != [] {
      InsertAtEnd(sorted[1..], e);
      assert sorted == [sorted[0]] + sorted[1..];
    }
  }

  lemma NotAbove(a: string, b: string)
    requires Less(a, b)
    ensures !Less(b, a)
  {
    if Less(b, a) {
      Transitive(a, b, a);
      Irreflexive(a);
    }
  }

  /** A strictly sorted list is left as it is. */
  lemma {:induction false} SortKeepsSorted(files: seq<FileEntry>)
    requires Sorted(files)
    ensures SortByPath(files) == files
  {
    if files != [] {
      var front, e := files[..|files| - 1], files[|files| - 1];
      SortKeepsSorted(front);
      forall i | 0 <= i < |front| ensures !Less(e.path, front[i].path) {
        NotAbove(front[i].path, e.path);
      }
      InsertAtEnd(front, e);
      assert files == front + [e];
    }
  }

  ghost predicate Ascending(files: seq<FileEntry>) {
    forall i, j :: 0 <= i < j < |files| ==> !Less(files[j].path, files[i].path)
  }

  lemma {:induction false} InsertKeepsAll(sorted: seq<FileEntry>, e: FileEntry)
    ensures multiset(InsertByPath(sorted, e)) == multiset(sorted) + multiset{e}
    ensures forall x :: x in InsertByPath(sorted, e) <==> x == e || x in sorted
  {
    if sorted != [] && !Less(e.path, sorted[0].path) {
      InsertKeepsAll(sorted[1..], e);
      assert sorted == [sorted[0]] + sorted[1..];
    }
  }

  lemma {:induction false} InsertAscends(sorted: seq<FileEntry>, e: FileEntry)
    requires Ascending(sorted)
    ensures Ascending(InsertByPath(sorted, e))
  {
    var r := InsertByPath(sorted, e);
    if sorted == [] {
    } else if Less(e.path, sorted[0].path) {
      forall i, j | 0 <= i < j < |r| ensures !Less(r[j].path, r[i].path) {
        assert r[j] == sorted[j - 1];
        if i == 0 && Less(r[j].path, e.path) {
          Transitive(r[j].path, e.path, sorted[0].path);
          Irreflexive(sorted[0].path);
        }
      }
    } else {
      var rest := InsertByPath(sorted[1..], e);
      InsertAscends(sorted[1..], e);
      InsertKeepsAll(sorted[1..], e);
      forall j | 0 <= j < |rest| ensures !Less(rest[j].path, sorted[0].path) {
        assert rest[j] in rest;
      }
    }
  }

  /** Sorting orders the entries and neither loses nor adds one. */
  lemma {:induction false} SortSorts(files: seq<FileEntry>)
    ensures Ascending(SortByPath(files))
    ensures multiset(SortByPath(files)) == multiset(files)
  {
    if files != [] {
      hide Ascending, InsertByPath;
      var front, e := files[..|files| - 1], files[|files| - 1];
      SortSorts(front);
      InsertAscends(SortByPath(front), e);
      InsertKeepsAll(SortByPath(front), e);
      assert files == front + [e];
    }
  }

  /** adjacent_find on an ascending list finds every duplicate. */
  lemma {:induction false} NoDuplicateIsSorted(files: seq<FileEntry>)
    requires Ascending(files) && !HasAdjacentDuplicate(files)
    ensures Sorted(files)
  {
    forall i, j | 0 <= i < j < |files| ensures Less(files[i].path, files[j].path) {
      StepLess(files, i);
      if i + 1 < j {
        Total(files[i + 1].path, files[j].path);
        if Less(files[i + 1].path, files[j].path) {
          Transitive(files[i].path, files[i + 1].path, files[j].path);
        }
      }
    }
  }

  lemma StepLess(files: seq<FileEntry>, i: nat)
    requires Ascending(files) && !HasAdjacentDuplicate(files) && i + 1 < |files|
    ensures Less(files[i].path, files[i + 1].path)
  {
    Total(files[i].path, files[i + 1].path);
  }

  lemma SortedHasNoDuplicate(files: seq<FileEntry>)
    requires Sorted(files)
    ensures !HasAdjacentDuplicate(files)
  {
    forall i | 0 <= i < |files| - 1 ensures files[i].path != files[i + 1].path {
      Irreflexive(files[i].path);
    }
  }

  // --- Round trips ----------------------------------------------------------

  lemma EntryRoundTrip(e: FileEntry)
    ensures DecodeEntry(EncodeEntry(e)) == if EntryOk(e) then Ok(e) else Err(Validation)
  {
    Hex.HexRoundTrip(e.sha256);
  }

  lemma EntriesRoundTrip(files: seq<FileEntry>)
    ensures (forall i :: 0 <= i < |files| ==> EntryOk(files[i])) ==> DecodeEntries(EncodeEntries(files)) == Ok(files)
    ensures DecodeEntries(EncodeEntries(files)).Ok? ==> forall i :: 0 <= i < |files| ==> EntryOk(files[i])
  {
    hide EntryOk, DecodeEntries, EncodeEntries;
    if forall i :: 0 <= i < |files| ==> EntryOk(files[i]) { GoodEntriesReturn(files); }
    if DecodeEntries(EncodeEntries(files)).Ok? { ReturnedAreGood(files); }
  }

  lemma {:induction false} GoodEntriesReturn(files: seq<FileEntry>)
    requires forall i :: 0 <= i < |files| ==> EntryOk(files[i])
    ensures DecodeEntries(EncodeEntries(files)) == Ok(files)
  {
    hide EntryOk, EncodeEntry, DecodeEntry;
    if files != [] {
      hide DecodeEntries, EncodeEntries;
      var front, e := files[..|files| - 1], files[|files| - 1];
      GoodEntriesReturn(front);
      EntryRoundTrip(e);
      OneMoreEntry(front, e);
      assert files == front + [e];
    }
  }

  lemma {:induction false} ReturnedAreGood(files: seq<FileEntry>)
    requires DecodeEntries(EncodeEntries(files)).Ok?
    ensures forall i :: 0 <= i < |files| ==> EntryOk(files[i])
  {
    hide EntryOk, EncodeEntry, DecodeEntry;
    if files != [] {
      hide DecodeEntries, EncodeEntries;
      var front, e := files[..|files| - 1], files[|files| - 1];
      assert files == front + [e];
      OneMoreEntry(front, e);
      ReturnedAreGood(front);
      EntryRoundTrip(e);
    }
  }

  lemma OneMoreEntry(front: seq<FileEntry>, e: FileEntry)
    ensures var rest, last := DecodeEntries(EncodeEntries(front)), DecodeEntry(EncodeEntry(e));
            DecodeEntries(EncodeEntries(front + [e])) == if rest.Err? then Err(rest.code)
                                                         else if last.Err? then Err(last.code)
                                                         else Ok(rest.value + [last.value])
  {
    hide EncodeEntry, DecodeEntry;
    var items := EncodeEntries(front + [e]);
    assert (front + [e])[..|front|] == front;
    assert items[..|items| - 1] == EncodeEntries(front);
  }

  lemma AcceptedIsSorted(files: seq<FileEntry>)
    requires SortByPath(files) == files && !HasAdjacentDuplicate(files)
    ensures Sorted(files)
  {
    SortSorts(files);
    NoDuplicateIsSorted(files);
  }

  /** A file list is read back exactly when it is well formed and sorted. */
  lemma FilesRoundTrip(obj: map<Key, Json>, files: seq<FileEntry>)
    requires Files in obj && obj[Files] == Arr(EncodeEntries(files))
    ensures DecodeFiles(obj) == Ok(files) <==> FilesOk(files)
  {
    hide EntryOk, EncodeEntries, DecodeEntries, SortByPath, HasAdjacentDuplicate, Sorted;
    EntriesRoundTrip(files);
    if FilesOk(files) {
      SortKeepsSorted(files);
      SortedHasNoDuplicate(files);
    } else if DecodeFiles(obj) == Ok(files) {
      AcceptedIsSorted(files);
    }
  }

  /** What the optional times and the files add to the other fields. */
  lemma MetaExtras(tx: Transaction)
    ensures var o, base := EncodeMeta(tx).fields, MetaBase(tx);
            && (forall key :: key != CommittedAt && key != DeliveredAt && key != Files ==>
                  (key in o <==> key in base) && (key in base ==> o[key] == base[key]))
            && Files in o && o[Files] == Arr(EncodeEntries(tx.files))
            && (tx.committedAt.Some? ==> CommittedAt in o && o[CommittedAt] == Str(Time.Format(tx.committedAt.value)))
            && (tx.deliveredAt.Some? ==> DeliveredAt in o && o[DeliveredAt] == Str(Time.Format(tx.deliveredAt.value)))
            && (tx.committedAt.None? ==> (CommittedAt in o <==> CommittedAt in base))
            && (tx.deliveredAt.None? ==> (DeliveredAt in o <==> DeliveredAt in base))
  {
    hide Time.Format, EncodeEntries, MetaBase;
  }

  /** The fields of an encoded transaction, one by one. */
  lemma MetaFields(tx: Transaction)
    ensures var o := EncodeMeta(tx).fields;
            && CheckVersion(o) == Ok(())
            && GetString(o, Id) == Ok(tx.id)
            && GetString(o, Sender) == Ok(tx.sender)
            && GetString(o, TargetUser) == Ok(tx.targetUser)
            && GetString(o, TargetServer) == Ok(tx.targetServer)
            && GetString(o, OriginServer) == Ok(tx.originServer)
            && GetOptionalString(o, Comment) == Ok(tx.comment)
            && GetString(o, StateKey) == Ok(StateText(tx.state))
            && GetString(o, CreatedAt) == Ok(Time.Format(tx.createdAt))
            && GetString(o, ExpiresAt) == Ok(Time.Format(tx.expiresAt))
            && Files in o && o[Files] == Arr(EncodeEntries(tx.files))
            && (CommittedAt in o <==> tx.committedAt.Some?)
            && (DeliveredAt in o <==> tx.deliveredAt.Some?)
            && (tx.committedAt.Some? ==> o[CommittedAt] == Str(Time.Format(tx.committedAt.value)))
            && (tx.deliveredAt.Some? ==> o[DeliveredAt] == Str(Time.Format(tx.deliveredAt.value)))
  {
    hide Time.Format, EncodeEntries, StateText, EncodeMeta, MetaBase;
    MetaExtras(tx);
    BaseFields(tx);
  }

  lemma BaseFields(tx: Transaction)
    ensures var o := MetaBase(tx);
            && V in o && o[V] == Num(DOCUMENT_VERSION)
            && Id in o && o[Id] == Str(tx.id)
            && Sender in o && o[Sender] == Str(tx.sender)
            && TargetUser in o && o[TargetUser] == Str(tx.targetUser)
            && TargetServer in o && o[TargetServer] == Str(tx.targetServer)
            && OriginServer in o && o[OriginServer] == Str(tx.originServer)
            && Comment in o && o[Comment] == Str(tx.comment)
            && StateKey in o && o[StateKey] == Str(StateText(tx.state))
            && CreatedAt in o && o[CreatedAt] == Str(Time.Format(tx.createdAt))
            && ExpiresAt in o && o[ExpiresAt] == Str(Time.Format(tx.expiresAt))
            && CommittedAt !in o && DeliveredAt !in o
  {
    hide Time.Format, StateText;
  }

  /** decode_meta undoes encode_meta exactly for the transactions meta.json has
      room for: valid id, names present, well formed sorted files, and every
      time in the years 0000 to 9999. */
  lemma MetaRoundTrip(tx: Transaction)
    ensures DecodeMeta(EncodeMeta(tx)) == Ok(tx) <==> FieldsOk(tx) && TimesOk(tx)
  {
    hide Time.Format, Time.Parse, Time.InRange, DecodeFiles, CheckVersion, EncodeEntries, FilesOk, ValidId;
    MetaFields(tx);
    StateReads(tx.state);
    FilesRoundTrip(EncodeMeta(tx).fields, tx.files);
    Time.FormatParses(tx.createdAt);
    Time.FormatParses(tx.expiresAt);
    if tx.committedAt.Some? { Time.FormatParses(tx.committedAt.value); }
    if tx.deliveredAt.Some? { Time.FormatParses(tx.deliveredAt.value); }
  }

  lemma ManifestRoundTrip(id: string, files: seq<FileEntry>)
    ensures DecodeManifest(EncodeManifest(id, files)) == Ok(files) <==> FilesOk(files)
  {
    FilesRoundTrip(EncodeManifest(id, files).fields, files);
  }

  lemma {:induction false} DecodedEntriesOk(items: seq<Json>)
    ensures DecodeEntries(items).Ok? ==>
              forall i :: 0 <= i < |DecodeEntries(items).value| ==> EntryOk(DecodeEntries(items).value[i])
  {
    if items != [] {
      DecodedEntriesOk(items[..|items| - 1]);
    }
  }

  lemma DecodedFilesOk(obj: map<Key, Json>)
    ensures DecodeFiles(obj).Ok? ==> FilesOk(DecodeFiles(obj).value)
  {
    if DecodeFiles(obj).Ok? {
      var entries := DecodeEntries(obj[Files].items).value;
      var files := SortByPath(entries);
      DecodedEntriesOk(obj[Files].items);
      SortSorts(entries);
      NoDuplicateIsSorted(files);
      forall i | 0 <= i < |files| ensures EntryOk(files[i]) {
        assert files[i] in multiset(files);
        assert files[i] in entries;
      }
    }
  }

  lemma TimestampInRange(obj: map<Key, Json>, key: Key)
    ensures GetTimestamp(obj, key).Ok? ==> Time.InRange(GetTimestamp(obj, key).value)
  {
    hide Time.Parse, Time.InRange;
    if GetTimestamp(obj, key).Ok? {
      Time.ParsedIsFormatted(obj[key].s);
    }
  }

  /** Whatever decode_meta accepts, written by this server or not, is a
      transaction that encode_meta can carry: one rewrite normalises the document
      and further rewrites change nothing. */
  lemma DecodedIsEncodable(doc: Json)
    requires DecodeMeta(doc).Ok?
    ensures FieldsOk(DecodeMeta(doc).value) && TimesOk(DecodeMeta(doc).value)
    ensures DecodeMeta(EncodeMeta(DecodeMeta(doc).value)) == DecodeMeta(doc)
  {
    hide Time.Parse, Time.InRange, DecodeFiles, EncodeMeta, ValidId;
    var obj := doc.fields;
    TimestampInRange(obj, CreatedAt);
    TimestampInRange(obj, ExpiresAt);
    TimestampInRange(obj, CommittedAt);
    TimestampInRange(obj, DeliveredAt);
    DecodedFilesOk(obj);
    MetaRoundTrip(DecodeMeta(doc).value);
  }

  /** A document that is accepted says what it is read as: its version is 1, and every field of
      the record stands under its own key; comment and times may be missing or null. */
  lemma DecodedSays(doc: Json)
    requires DecodeMeta(doc).Ok?
    ensures doc.Obj?
    ensures var o, tx := doc.fields, DecodeMeta(doc).value;
            && V in o && o[V] == Num(1)
            && Id in o && o[Id] == Str(tx.id) && Sender in o && o[Sender] == Str(tx.sender)
            && TargetUser in o && o[TargetUser] == Str(tx.targetUser)
            && TargetServer in o && o[TargetServer] == Str(tx.targetServer)
            && OriginServer in o && o[OriginServer] == Str(tx.originServer)
            && tx.comment == (if Comment in o && !o[Comment].Null? then o[Comment].s else "")
            && StateKey in o && o[StateKey] == Str(StateText(tx.state))
            && CreatedAt in o && o[CreatedAt] == Str(Time.Format(tx.createdAt))
            && ExpiresAt in o && o[ExpiresAt] == Str(Time.Format(tx.expiresAt))
            && SaysTime(o, CommittedAt, tx.committedAt) && SaysTime(o, DeliveredAt, tx.deliveredAt)
            && Files in o && o[Files].Arr? && DecodeFiles(o) == Ok(tx.files)
  {
    hide Time.Format, Time.Parse, DecodeFiles, ValidId;
    var obj := doc.fields;
    TimestampSays(obj, CreatedAt);
    TimestampSays(obj, ExpiresAt);
    TimestampSays(obj, CommittedAt);
    TimestampSays(obj, DeliveredAt);
    FilesAreArray(obj);
  }

  predicate SaysTime(o: map<Key, Json>, key: Key, t: Option<int>) {
    if key in o && !o[key].Null? then t.Some? && o[key] == Str(Time.Format(t.value)) else t.None?
  }

  lemma TimestampSays(obj: map<Key, Json>, key: Key)
    ensures GetTimestamp(obj, key).Ok? ==> key in obj && obj[key] == Str(Time.Format(GetTimestamp(obj, key).value))
  {
    hide Time.Format, Time.Parse;
    if key in obj && obj[key].Str? && Time.Parse(obj[key].s).Ok? {
      Time.ParsedIsFormatted(obj[key].s);
    }
  }

  lemma FilesAreArray(obj: map<Key, Json>)
    ensures DecodeFiles(obj).Ok? ==> Files in obj && obj[Files].Arr?
  {}

  /** Every getter gives the record's field. */
  predicate Parts(o: map<Key, Json>, tx: Transaction) {
    && CheckVersion(o).Ok? && GetId(o) == Ok(tx.id)
    && GetName(o, Sender) == Ok(tx.sender) && GetName(o, TargetUser) == Ok(tx.targetUser)
    && GetString(o, TargetServer) == Ok(tx.targetServer) && GetString(o, OriginServer) == Ok(tx.originServer)
    && GetOptionalString(o, Comment) == Ok(tx.comment)
    && GetString(o, StateKey).Ok? && ParseState(GetString(o, StateKey).value) == Ok(tx.state)
    && GetTimestamp(o, CreatedAt) == Ok(tx.createdAt) && GetTimestamp(o, ExpiresAt) == Ok(tx.expiresAt)
    && GetOptionalTimestamp(o, CommittedAt) == Ok(tx.committedAt)
    && GetOptionalTimestamp(o, DeliveredAt) == Ok(tx.deliveredAt)
    && DecodeFiles(o) == Ok(tx.files)
  }

  lemma IntoParts(o: map<Key, Json>)
    requires DecodeMeta(Obj(o)).Ok?
    ensures Parts(o, DecodeMeta(Obj(o)).value)
  {
    hide GetString, GetName, GetId, CheckVersion, GetTimestamp, GetOptionalTimestamp, DecodeFiles, ParseState, GetOptionalString;
  }

  lemma FromParts(o: map<Key, Json>, tx: Transaction)
    requires Parts(o, tx)
    ensures DecodeMeta(Obj(o)) == Ok(tx)
  {
    hide GetString, GetName, GetId, CheckVersion, GetTimestamp, GetOptionalTimestamp, DecodeFiles, ParseState, GetOptionalString;
  }

  /** A document without a comment, as they were written before there were any, is read like
      the same one with it, with an empty comment. */
  lemma CommentIsOptional(doc: Json)
    requires doc.Obj? && DecodeMeta(doc).Ok?
    ensures DecodeMeta(Obj(doc.fields - {Comment})) == Ok(DecodeMeta(doc).value.(comment := ""))
  {
    hide Parts, DecodeMeta;
    var o := doc.fields;
    var o' := o - {Comment};
    IntoParts(o);
    assert Agree(o, o');
    SameParts(o, o', DecodeMeta(doc).value);
    FromParts(o', DecodeMeta(doc).value.(comment := ""));
  }

  ghost predicate Agree(o: map<Key, Json>, o': map<Key, Json>) {
    Comment !in o' && forall key: Key :: key != Comment ==> SameAt(o, o', key)
  }

  predicate SameAt(o: map<Key, Json>, o': map<Key, Json>, key: Key) {
    (key in o <==> key in o') && (key in o ==> o[key] == o'[key])
  }

  lemma SameParts(o: map<Key, Json>, o': map<Key, Json>, tx: Transaction)
    requires Agree(o, o') && Parts(o, tx)
    ensures Parts(o', tx.(comment := ""))
  {
    hide GetString, GetName, GetId, CheckVersion, GetTimestamp, GetOptionalTimestamp, DecodeFiles, ParseState, SameAt;
    SameReads(o, o', V); SameReads(o, o', Id); SameReads(o, o', Sender); SameReads(o, o', TargetUser);
    SameReads(o, o', TargetServer); SameReads(o, o', OriginServer); SameReads(o, o', StateKey);
    SameReads(o, o', CreatedAt); SameReads(o, o', ExpiresAt); SameReads(o, o', CommittedAt);
    SameReads(o, o', DeliveredAt); SameReads(o, o', Files);
  }

  lemma SameReads(o: map<Key, Json>, o': map<Key, Json>, key: Key)
    requires SameAt(o, o', key)
    ensures GetString(o, key) == GetString(o', key) && GetName(o, key) == GetName(o', key)
    ensures key == Id ==> GetId(o) == GetId(o')
    ensures key == V ==> CheckVersion(o) == CheckVersion(o')
    ensures GetTimestamp(o, key) == GetTimestamp(o', key) && GetOptionalTimestamp(o, key) == GetOptionalTimestamp(o', key)
    ensures key == Files ==> DecodeFiles(o) == DecodeFiles(o')
  {
    hide Time.Parse, DecodeEntries;
  }

  /** encode_files (codec.cpp:110-121). */
  method EncodeFilesLoop(files: seq<FileEntry>) returns (arr: seq<Json>)
    ensures arr == EncodeEntries(files)
  {
    arr := [];
    for i := 0 to |files|
      invariant arr == EncodeEntries(files[..i])
    {
      assert files[..i + 1][..i] == files[..i];
      arr := arr + [EncodeEntry(files[i])];
    }
    assert files[..|files|] == files;
  }

  lemma {:induction false} BadItem(items: seq<Json>, k: nat)
    requires k < |items| && DecodeEntry(items[k]).Err?
    ensures DecodeEntries(items).Err?
  {
    if k < |items| - 1 {
      BadItem(items[..|items| - 1], k);
    }
  }

  /** decode_files (codec.cpp:123-150): build, sort in place, refuse duplicates. */
  method DecodeFilesLoop(obj: map<Key, Json>) returns (r: Result<seq<FileEntry>>)
    ensures r.Ok? <==> DecodeFiles(obj).Ok?
    ensures r.Ok? ==> r == DecodeFiles(obj) && FilesOk(r.value)
  {
    if Files !in obj || !obj[Files].Arr? {
      return Err(Validation);
    }
    var items := obj[Files].items;
    var files: seq<FileEntry> := [];
    for i := 0 to |items|
      invariant DecodeEntries(items[..i]) == Ok(files)
    {
      var e := DecodeEntry(items[i]);
      if e.Err? {
        BadItem(items, i);
        return Err(Validation);
      }
      assert items[..i + 1][..i] == items[..i];
      files := files + [e.value];
    }
    assert items[..|items|] == items;
    files := SortByPath(files);
    DecodedFilesOk(obj);
    if HasAdjacentDuplicate(files) {
      return Err(Validation);
    }
    return Ok(files);
  }
}
