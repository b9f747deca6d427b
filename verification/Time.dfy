/** The proleptic Gregorian calendar std::chrono uses for sys_days, as day
    counts from 1970-01-01. */
module Calendar {

  datatype Date = Date(year: int, month: int, day: int)

  predicate Leap(y: int) {
    y % 4 == 0 && (y % 100 != 0 || y % 400 == 0)
  }

  function MonthLength(y: int, m: int): (n: int)
    ensures 28 <= n <= 31
  {
    if m == 2 then (if Leap(y) then 29 else 28)
    else if m == 4 || m == 6 || m == 9 || m == 11 then 30
    else 31
  }

  function YearLength(y: int): int {
    if Leap(y) then 366 else 365
  }

  /** year_month_day::ok(). */
  predicate Valid(d: Date) {
    1 <= d.month <= 12 && 1 <= d.day <= MonthLength(d.year, d.month)
  }

  /** Days from 0000-01-01 to January 1st of year y. */
  function DaysBeforeYear(y: int): int {
    365 * y + (y + 3) / 4 - (y + 99) / 100 + (y + 399) / 400
  }

  /** Days from January 1st to the first of month m, for 1 <= m <= 13. */
  function DaysBeforeMonth(y: int, m: int): int
    requires 1 <= m <= 13
    decreases m
  {
    if m == 1 then 0 else DaysBeforeMonth(y, m - 1) + MonthLength(y, m - 1)
  }

  const EPOCH := 719528 // 1970-01-01

  /** sys_days{date}. */
  function DayNumber(d: Date): int
    requires Valid(d)
  {
    DaysBeforeYear(d.year) + DaysBeforeMonth(d.year, d.month) + d.day - 1 - EPOCH
  }

  function NextDay(d: Date): Date {
    if d.day < MonthLength(d.year, d.month) then d.(day := d.day + 1)
    else if d.month < 12 then Date(d.year, d.month + 1, 1)
    else Date(d.year + 1, 1, 1)
  }

  lemma YearStep(y: int)
    ensures DaysBeforeYear(y + 1) == DaysBeforeYear(y) + YearLength(y)
  {
    assert (y + 4) / 4 == (y + 3) / 4 + (if y % 4 == 0 then 1 else 0) by { Ceil4(y); }
    assert (y + 100) / 100 == (y + 99) / 100 + (if y % 100 == 0 then 1 else 0) by { Ceil100(y); }
    assert (y + 400) / 400 == (y + 399) / 400 + (if y % 400 == 0 then 1 else 0) by { Ceil400(y); }
    Centuries(y);
  }

  lemma Centuries(y: int)
    ensures y % 100 == 0 ==> y % 4 == 0
    ensures y % 400 == 0 ==> y % 100 == 0
  {
    if y % 100 == 0 {
      var q := y / 100;
      assert y == 4 * (25 * q);
    }
    if y % 400 == 0 {
      var q := y / 400;
      assert y == 100 * (4 * q);
    }
  }

  lemma Ceil4(y: int)
    ensures (y + 4) / 4 == (y + 3) / 4 + (if y % 4 == 0 then 1 else 0)
  {}

  lemma Ceil100(y: int)
    ensures (y + 100) / 100 == (y + 99) / 100 + (if y % 100 == 0 then 1 else 0)
  {}

  lemma Ceil400(y: int)
    ensures (y + 400) / 400 == (y + 399) / 400 + (if y % 400 == 0 then 1 else 0)
  {}

  lemma MonthsFillYear(y: int)
    ensures DaysBeforeMonth(y, 13) == YearLength(y)
  {
    assert DaysBeforeMonth(y, 4) == 31 + MonthLength(y, 2) + 31;
    assert DaysBeforeMonth(y, 7) == DaysBeforeMonth(y, 4) + 91;
    assert DaysBeforeMonth(y, 10) == DaysBeforeMonth(y, 7) + 92;
  }

  lemma {:induction false} MonthsMonotone(y: int, a: int, b: int)
    requires 1 <= a <= b <= 13
    ensures DaysBeforeMonth(y, a) + 28 * (b - a) <= DaysBeforeMonth(y, b)
    decreases b
  {
    if a < b {
      MonthsMonotone(y, a, b - 1);
    }
  }

  lemma {:induction false} YearsMonotone(a: int, b: int)
    requires a <= b
    ensures DaysBeforeYear(a) + 365 * (b - a) <= DaysBeforeYear(b)
    decreases b - a
  {
    if a < b {
      YearsMonotone(a, b - 1);
      YearStep(b - 1);
    }
  }

  /** The day count is the calendar's: it starts at 1970-01-01 and grows by one
      from each date to the next. */
  lemma DayNumberCounts(d: Date)
    requires Valid(d)
    ensures Valid(NextDay(d)) && DayNumber(NextDay(d)) == DayNumber(d) + 1
    ensures DayNumber(Date(1970, 1, 1)) == 0
  {
    if d.day == MonthLength(d.year, d.month) && d.month == 12 {
      YearStep(d.year);
      MonthsFillYear(d.year);
    }
  }

  /** The year whose span of days contains n, searched from y. */
  function YearFrom(n: int, y: int): (r: int)
    ensures DaysBeforeYear(r) <= n < DaysBeforeYear(r + 1)
    decreases if n < DaysBeforeYear(y) then DaysBeforeYear(y) - n
              else if n < DaysBeforeYear(y + 1) then 0 else n - DaysBeforeYear(y)
  {
    YearStep(y);
    YearStep(y - 1);
    if n < DaysBeforeYear(y) then YearFrom(n, y - 1)
    else if n >= DaysBeforeYear(y + 1) then
      YearStep(y + 1);
      YearFrom(n, y + 1)
    else y
  }

  /** The month containing day-of-year r, searched from m. */
  function MonthFrom(y: int, r: int, m: int): (k: int)
    requires 1 <= m <= 12 && DaysBeforeMonth(y, m) <= r < DaysBeforeMonth(y, 13)
    ensures m <= k <= 12 && DaysBeforeMonth(y, k) <= r < DaysBeforeMonth(y, k + 1)
    decreases 12 - m
  {
    if m == 12 || r < DaysBeforeMonth(y, m + 1) then m else MonthFrom(y, r, m + 1)
  }

  /** year_month_day{days}. */
  function DateOf(n: int): (d: Date)
    ensures Valid(d) && DayNumber(d) == n
  {
    var k := n + EPOCH;
    var y := YearFrom(k, 1970);
    YearStep(y);
    MonthsFillYear(y);
    var r := k - DaysBeforeYear(y);
    var m := MonthFrom(y, r, 1);
    Date(y, m, r - DaysBeforeMonth(y, m) + 1)
  }

  lemma DayInYear(d: Date)
    requires Valid(d)
    ensures DaysBeforeYear(d.year) <= DayNumber(d) + EPOCH < DaysBeforeYear(d.year + 1)
  {
    MonthsMonotone(d.year, 1, d.month);
    MonthsMonotone(d.year, d.month + 1, 13);
    MonthsFillYear(d.year);
    YearStep(d.year);
  }

  lemma YearUnique(n: int, a: int, b: int)
    requires DaysBeforeYear(a) <= n < DaysBeforeYear(a + 1)
    requires DaysBeforeYear(b) <= n < DaysBeforeYear(b + 1)
    ensures a == b
  {
    if a < b { YearsMonotone(a + 1, b); }
    if b < a { YearsMonotone(b + 1, a); }
  }

  lemma MonthUnique(y: int, r: int, a: int, b: int)
    requires 1 <= a <= 12 && DaysBeforeMonth(y, a) <= r < DaysBeforeMonth(y, a + 1)
    requires 1 <= b <= 12 && DaysBeforeMonth(y, b) <= r < DaysBeforeMonth(y, b + 1)
    ensures a == b
  {
    if a < b { MonthsMonotone(y, a + 1, b); }
    if b < a { MonthsMonotone(y, b + 1, a); }
  }

  /** Two valid dates with the same day count are the same date, so DateOf and
      DayNumber are inverse to each other. */
  lemma DateUnique(a: Date, b: Date)
    requires Valid(a) && Valid(b) && DayNumber(a) == DayNumber(b)
    ensures a == b
  {
    DayInYear(a);
    DayInYear(b);
    YearUnique(DayNumber(a) + EPOCH, a.year, b.year);
    MonthUnique(a.year, DaysBeforeMonth(a.year, a.month) + a.day - 1, a.month, b.month);
  }
}

/** Timestamps in whole seconds (src/lib/common/time.cpp). */
module Time {
  import opened Basics
  import opened Calendar

  const DAY := 86400

  const MAX_RETENTION_DAYS := 3650

  function YearOf(t: int): int {
    DateOf(t / DAY).year
  }

  /** The years the four-digit text form has room for. */
  predicate InRange(t: int) {
    0 <= YearOf(t) <= 9999
  }

  function Digit(n: int): char
    requires 0 <= n <= 9
  {
    '0' + n as char
  }

  predicate IsDigit(c: char) {
    '0' <= c <= '9'
  }

  /** Decimal digits of n, at least four of them ("%Y"). */
  function Decimal4(n: nat): (s: string)
    ensures |s| >= 4 && (n >= 10000 ==> |s| >= 5)
  {
    if n < 10000 then [Digit(n / 1000), Digit(n / 100 % 10), Digit(n / 10 % 10), Digit(n % 10)]
    else Decimal4(n / 10) + [Digit(n % 10)]
  }

  function YearText(y: int): string {
    if y < 0 then "-" + Decimal4(-y) else Decimal4(y)
  }

  function Two(n: int): string
    requires 0 <= n <= 99
  {
    [Digit(n / 10), Digit(n % 10)]
  }

  predicate ClockOk(h: int, m: int, s: int) {
    0 <= h <= 23 && 0 <= m <= 59 && 0 <= s <= 59
  }

  /** The text of a date and a time of day. */
  function Layout(d: Date, h: int, m: int, s: int): string
    requires Valid(d) && ClockOk(h, m, s)
  {
    YearText(d.year) + "-" + Two(d.month) + "-" + Two(d.day)
    + "T" + Two(h) + ":" + Two(m) + ":" + Two(s) + "Z"
  }

  /** format_iso8601 (time.cpp:39-41): "%FT%TZ". */
  function Format(t: int): string {
    var s := t % DAY;
    Layout(DateOf(t / DAY), s / 3600, s / 60 % 60, s % 60)
  }

  const PATTERN := "dddd-dd-ddTdd:dd:ddZ"

  predicate HasShape(text: string) {
    |text| == |PATTERN|
    && forall i :: 0 <= i < |text| ==>
         if PATTERN[i] == 'd' then IsDigit(text[i]) else text[i] == PATTERN[i]
  }

  function Digits(text: string, pos: nat, len: nat): int
    requires pos + len <= |text|
  {
    if len == 0 then 0 else 10 * Digits(text, pos, len - 1) + (text[pos + len - 1] as int - '0' as int)
  }

  /** parse_iso8601 (time.cpp:43-63). */
  function Parse(text: string): Result<int> {
    if !HasShape(text) then Err(Validation)
    else
      var date := Date(Digits(text, 0, 4), Digits(text, 5, 2), Digits(text, 8, 2));
      var h, m, s := Digits(text, 11, 2), Digits(text, 14, 2), Digits(text, 17, 2);
      if !Valid(date) || h > 23 || m > 59 || s > 59 then Err(Validation)
      else Ok(DayNumber(date) * DAY + h * 3600 + m * 60 + s)
  }

  /** expires_at (time.cpp:105-112). */
  function ExpiresAt(created: int, days: int): Result<int> {
    if days < 1 || days > MAX_RETENTION_DAYS then Err(Validation)
    else Ok(created + days * DAY)
  }

  lemma TwoDigits(text: string, pos: nat)
    requires pos + 2 <= |text|
    ensures Digits(text, pos, 2) == 10 * (text[pos] as int - '0' as int) + (text[pos + 1] as int - '0' as int)
  {
    assert Digits(text, pos, 1) == text[pos] as int - '0' as int;
  }

  lemma FourDigits(text: string)
    requires 4 <= |text|
    ensures Digits(text, 0, 4)
         == 1000 * (text[0] as int - '0' as int) + 100 * (text[1] as int - '0' as int)
            + 10 * (text[2] as int - '0' as int) + (text[3] as int - '0' as int)
  {
    TwoDigits(text, 0);
    assert Digits(text, 0, 3) == 10 * Digits(text, 0, 2) + (text[2] as int - '0' as int);
  }

  lemma TwoReads(n: int)
    requires 0 <= n <= 99
    ensures Digits(Two(n), 0, 2) == n
    ensures IsDigit(Two(n)[0]) && IsDigit(Two(n)[1])
  {
    TwoDigits(Two(n), 0);
  }

  lemma FourReads(n: nat)
    requires n <= 9999
    ensures |Decimal4(n)| == 4 && Digits(Decimal4(n), 0, 4) == n
    ensures forall i :: 0 <= i < 4 ==> IsDigit(Decimal4(n)[i])
  {
    FourDigits(Decimal4(n));
    var a, b := n / 10, n / 100;
    assert n == 10 * a + n % 10 && a == 10 * b + a % 10 && b == 10 * (n / 1000) + b % 10;
  }

  lemma {:induction false} DigitsSlice(text: string, pos: nat, len: nat)
    requires pos + len <= |text|
    ensures Digits(text, pos, len) == Digits(text[pos..pos + len], 0, len)
    decreases len
  {
    DigitsPrefix(text[pos..pos + len], text, pos, len);
  }

  lemma {:induction false} DigitsPrefix(part: string, text: string, pos: nat, len: nat)
    requires pos + len <= |text| && len <= |part| && forall i :: 0 <= i < len ==> part[i] == text[pos + i]
    ensures Digits(text, pos, len) == Digits(part, 0, len)
    decreases len
  {
    if len > 0 {
      DigitsPrefix(part, text, pos, len - 1);
    }
  }

  /** Two digit characters are the two-digit text of the number they read as. */
  lemma TwoOf(text: string)
    requires |text| == 2 && IsDigit(text[0]) && IsDigit(text[1])
    ensures 0 <= Digits(text, 0, 2) <= 99 && Two(Digits(text, 0, 2)) == text
  {
    TwoDigits(text, 0);
  }

  lemma FourOf(text: string)
    requires |text| == 4 && forall i :: 0 <= i < 4 ==> IsDigit(text[i])
    ensures 0 <= Digits(text, 0, 4) <= 9999 && Decimal4(Digits(text, 0, 4)) == text
  {
    FourDigits(text);
    var n := Digits(text, 0, 4);
    DigitsOfSum(text[0] as int - '0' as int, text[1] as int - '0' as int,
                text[2] as int - '0' as int, text[3] as int - '0' as int, n);
  }

  lemma DigitsOfSum(a: int, b: int, c: int, d: int, n: int)
    requires 0 <= a <= 9 && 0 <= b <= 9 && 0 <= c <= 9 && 0 <= d <= 9
    requires n == 1000 * a + 100 * b + 10 * c + d
    ensures n / 1000 == a && n / 100 % 10 == b && n / 10 % 10 == c && n % 10 == d
  {
    assert n / 10 == 100 * a + 10 * b + c;
    assert n / 100 == 10 * a + b;
  }

  /** Texts with the right shape are the layouts of six small numbers. */
  predicate Pieces(text: string, y: string, mo: string, d: string, h: string, mi: string, s: string) {
    && |y| == 4 && |mo| == 2 && |d| == 2 && |h| == 2 && |mi| == 2 && |s| == 2
    && text == y + "-" + mo + "-" + d + "T" + h + ":" + mi + ":" + s + "Z"
  }

  lemma PiecesShape(text: string, y: string, mo: string, d: string, h: string, mi: string, s: string)
    requires Pieces(text, y, mo, d, h, mi, s)
    requires forall i :: 0 <= i < 4 ==> IsDigit(y[i])
    requires forall i :: 0 <= i < 2 ==> IsDigit(mo[i]) && IsDigit(d[i]) && IsDigit(h[i]) && IsDigit(mi[i]) && IsDigit(s[i])
    ensures HasShape(text)
  {
    assert |text| == 20;
  }

  lemma PiecesSlices(text: string, y: string, mo: string, d: string, h: string, mi: string, s: string)
    requires Pieces(text, y, mo, d, h, mi, s)
    ensures |text| == 20
    ensures text[0..4] == y && text[5..7] == mo && text[8..10] == d
    ensures text[11..13] == h && text[14..16] == mi && text[17..19] == s
  {
  }

  lemma ShapePieces(text: string)
    requires HasShape(text)
    ensures Pieces(text, text[0..4], text[5..7], text[8..10], text[11..13], text[14..16], text[17..19])
  {
    assert text[4] == PATTERN[4] == '-' && text[7] == PATTERN[7] == '-' && text[10] == PATTERN[10] == 'T';
    assert text[13] == PATTERN[13] == ':' && text[16] == PATTERN[16] == ':' && text[19] == PATTERN[19] == 'Z';
  }

  /** The numbers Parse reads from the six pieces. */
  lemma PiecesDigits(text: string, y: string, mo: string, d: string, h: string, mi: string, s: string)
    requires Pieces(text, y, mo, d, h, mi, s)
    ensures |text| == 20
    ensures Digits(text, 0, 4) == Digits(y, 0, 4)
    ensures Digits(text, 5, 2) == Digits(mo, 0, 2) && Digits(text, 8, 2) == Digits(d, 0, 2)
    ensures Digits(text, 11, 2) == Digits(h, 0, 2) && Digits(text, 14, 2) == Digits(mi, 0, 2)
    ensures Digits(text, 17, 2) == Digits(s, 0, 2)
  {
    PiecesSlices(text, y, mo, d, h, mi, s);
    DigitsSlice(text, 0, 4);
    DigitsSlice(text, 5, 2);
    DigitsSlice(text, 8, 2);
    DigitsSlice(text, 11, 2);
    DigitsSlice(text, 14, 2);
    DigitsSlice(text, 17, 2);
  }

  /** Parse inverts the layout of any date in the years 0000 to 9999. */
  lemma ParseLayout(d: Date, h: int, m: int, s: int)
    requires Valid(d) && ClockOk(h, m, s) && 0 <= d.year <= 9999
    ensures Parse(Layout(d, h, m, s)) == Ok(DayNumber(d) * DAY + h * 3600 + m * 60 + s)
  {
    var text := Layout(d, h, m, s);
    FourReads(d.year);
    TwoReads(d.month);
    TwoReads(d.day);
    TwoReads(h);
    TwoReads(m);
    TwoReads(s);
    PiecesShape(text, YearText(d.year), Two(d.month), Two(d.day), Two(h), Two(m), Two(s));
    PiecesDigits(text, YearText(d.year), Two(d.month), Two(d.day), Two(h), Two(m), Two(s));
  }

  /** What Parse accepts is the layout of the fields it read. */
  lemma ParsedLayout(text: string) returns (d: Date, h: int, m: int, s: int)
    requires Parse(text).Ok?
    ensures Valid(d) && ClockOk(h, m, s) && 0 <= d.year <= 9999
    ensures text == Layout(d, h, m, s)
    ensures Parse(text).value == DayNumber(d) * DAY + h * 3600 + m * 60 + s
  {
    hide DayNumber, Digits, Two, Decimal4, Valid, HasShape;
    ShapePieces(text);
    d := Date(Digits(text, 0, 4), Digits(text, 5, 2), Digits(text, 8, 2));
    h, m, s := Digits(text, 11, 2), Digits(text, 14, 2), Digits(text, 17, 2);
    FourAt(text);
    TwoAt(text, 5);
    TwoAt(text, 8);
    TwoAt(text, 11);
    TwoAt(text, 14);
    TwoAt(text, 17);
  }

  lemma FourAt(text: string)
    requires HasShape(text)
    ensures 0 <= Digits(text, 0, 4) <= 9999 && Decimal4(Digits(text, 0, 4)) == text[0..4]
  {
    assert PATTERN[0] == PATTERN[1] == PATTERN[2] == PATTERN[3] == 'd';
    FourOf(text[0..4]);
    DigitsSlice(text, 0, 4);
  }

  lemma TwoAt(text: string, p: nat)
    requires HasShape(text) && (p == 5 || p == 8 || p == 11 || p == 14 || p == 17)
    ensures 0 <= Digits(text, p, 2) <= 99 && Two(Digits(text, p, 2)) == text[p..p + 2]
  {
    assert PATTERN[p] == PATTERN[p + 1] == 'd';
    TwoOf(text[p..p + 2]);
    DigitsSlice(text, p, 2);
  }

  lemma ClockFields(day: int, h: int, m: int, s: int)
    requires ClockOk(h, m, s)
    ensures var t := day * DAY + h * 3600 + m * 60 + s;
            t / DAY == day && t % DAY / 3600 == h && t % DAY / 60 % 60 == m && t % DAY % 60 == s
  {
    var t := day * DAY + h * 3600 + m * 60 + s;
    assert t / DAY == day;
    var c := t % DAY;
    assert c / 60 == h * 60 + m;
  }

  /** parse_iso8601 accepts only what format_iso8601 produces, and reads it back. */
  lemma ParsedIsFormatted(text: string)
    requires Parse(text).Ok?
    ensures Format(Parse(text).value) == text && InRange(Parse(text).value)
  {
    hide DateOf, DayNumber, Layout, Parse;
    var d, h, m, s := ParsedLayout(text);
    ClockFields(DayNumber(d), h, m, s);
    DateUnique(DateOf(DayNumber(d)), d);
  }

  /** The text shows the date and the clock: the year first, the seconds last, each number
      with leading zeros. */
  predicate Shows(text: string, d: Date, h: int, m: int, s: int) {
    && |text| == 20 && text[4] == text[7] == '-' && text[10] == 'T' && text[13] == text[16] == ':' && text[19] == 'Z'
    && (forall i :: i in {0, 1, 2, 3, 5, 6, 8, 9, 11, 12, 14, 15, 17, 18} ==> '0' <= text[i] <= '9')
    && var n := (i: int) requires 0 <= i < |text| => text[i] as int - '0' as int;
    && d.year == 1000 * n(0) + 100 * n(1) + 10 * n(2) + n(3)
    && d.month == 10 * n(5) + n(6) && d.day == 10 * n(8) + n(9)
    && h == 10 * n(11) + n(12) && m == 10 * n(14) + n(15) && s == 10 * n(17) + n(18)
  }

  /** The text of a time shows its date and clock, and time 0 is the first second of 1970. */
  lemma FormatShows(d: Date, h: int, m: int, s: int)
    requires Valid(d) && ClockOk(h, m, s) && 0 <= d.year <= 9999
    ensures Shows(Format(DayNumber(d) * 86400 + h * 3600 + m * 60 + s), d, h, m, s)
    ensures DayNumber(Date(1970, 1, 1)) == 0
  {
    hide DateOf, DayNumber, Layout, Shows;
    LayoutShows(d, h, m, s);
    EpochIsZero();
    ClockFields(DayNumber(d), h, m, s);
    DateUnique(DateOf(DayNumber(d)), d);
  }

  lemma EpochIsZero()
    ensures DayNumber(Date(1970, 1, 1)) == 0
  {}

  lemma LayoutShows(d: Date, h: int, m: int, s: int)
    requires Valid(d) && ClockOk(h, m, s) && 0 <= d.year <= 9999
    ensures Shows(Layout(d, h, m, s), d, h, m, s)
  {
    var text := Layout(d, h, m, s);
    FourReads(d.year);
    TwoReads(d.month); TwoReads(d.day); TwoReads(h); TwoReads(m); TwoReads(s);
    hide Two, Decimal4, Digits;
    PiecesSlices(text, YearText(d.year), Two(d.month), Two(d.day), Two(h), Two(m), Two(s));
    FourDigits(Decimal4(d.year));
    TwoDigits(Two(d.month), 0); TwoDigits(Two(d.day), 0);
    TwoDigits(Two(h), 0); TwoDigits(Two(m), 0); TwoDigits(Two(s), 0);
  }

  lemma LongYear(d: Date, h: int, m: int, s: int)
    requires Valid(d) && ClockOk(h, m, s) && !(0 <= d.year <= 9999)
    ensures Parse(Layout(d, h, m, s)).Err?
  {
    assert |YearText(d.year)| >= 5;
  }

  lemma Recompose(t: int)
    ensures var s := t % DAY;
            ClockOk(s / 3600, s / 60 % 60, s % 60)
            && t == t / DAY * DAY + s / 3600 * 3600 + s / 60 % 60 * 60 + s % 60
  {
    var s := t % DAY;
    var q := s / 60;
    assert s == 60 * q + s % 60 && q == 60 * (q / 60) + q % 60 && q / 60 == s / 3600;
  }

  /** A timestamp survives the text form exactly in the years 0000 to 9999. */
  lemma FormatParses(t: int)
    ensures Parse(Format(t)) == Ok(t) <==> InRange(t)
    ensures Parse(Format(t)).Ok? <==> InRange(t)
  {
    hide DateOf, DayNumber, Layout, Parse;
    var d, s := DateOf(t / DAY), t % DAY;
    Recompose(t);
    if InRange(t) {
      ParseLayout(d, s / 3600, s / 60 % 60, s % 60);
    } else {
      LongYear(d, s / 3600, s / 60 % 60, s % 60);
    }
  }

  /** has_iso_shape (time.cpp:14-26). */
  method HasIsoShape(text: string) returns (ok: bool)
    ensures ok == HasShape(text)
  {
    if |text| != |PATTERN| {
      return false;
    }
    for i := 0 to |text|
      invariant forall j :: 0 <= j < i ==>
                  if PATTERN[j] == 'd' then IsDigit(text[j]) else text[j] == PATTERN[j]
    {
      var want := PATTERN[i];
      var fits := if want == 'd' then IsDigit(text[i]) else text[i] == want;
      if !fits {
        return false;
      }
    }
    return true;
  }

  /** digits (time.cpp:29-35). */
  method ReadDigits(text: string, pos: nat, len: nat) returns (v: int)
    requires pos + len <= |text|
    ensures v == Digits(text, pos, len)
  {
    v := 0;
    for i := pos to pos + len
      invariant v == Digits(text, pos, i - pos)
    {
      v := v * 10 + (text[i] as int - '0' as int);
    }
  }

  /** parse_iso8601 (time.cpp:43-63). */
  method ParseIso8601(text: string) returns (r: Result<int>)
    ensures r == Parse(text)
  {
    var shape := HasIsoShape(text);
    if !shape {
      r := Err(Validation);
    } else {
      var year := ReadDigits(text, 0, 4);
      var month := ReadDigits(text, 5, 2);
      var day := ReadDigits(text, 8, 2);
      var date := Date(year, month, day);
      var hour := ReadDigits(text, 11, 2);
      var minute := ReadDigits(text, 14, 2);
      var second := ReadDigits(text, 17, 2);
      if !Valid(date) || hour > 23 || minute > 59 || second > 59 {
        r := Err(Validation);
      } else {
        r := Ok(DayNumber(date) * DAY + hour * 3600 + minute * 60 + second);
      }
    }
  }
}
