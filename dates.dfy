/**
  * Calendar dates as the backend handles them (Python's `datetime.date`): the
  * proleptic Gregorian calendar over years 1 to 9999, the day count behind
  * `timedelta` arithmetic, `strftime('%Y-%m-%d')` rendering and
  * `strptime(s, '%Y-%m-%d')` parsing.
  */
module Dates {
  import opened Options
  import opened Text

  datatype Date = Date(year: int, month: int, day: int)

  predicate IsLeapYear(y: int) {
    y % 4 == 0 && (y % 100 != 0 || y % 400 == 0)
  }

  function DaysInMonth(y: int, m: int): (n: int)
    ensures 28 <= n <= 31
  {
    if m == 2 then (if IsLeapYear(y) then 29 else 28)
    else if m == 4 || m == 6 || m == 9 || m == 11 then 30
    else 31
  }

  function DaysInYear(y: int): int {
    if IsLeapYear(y) then 366 else 365
  }

  /** The dates `datetime.date` can hold. */
  predicate ValidDate(d: Date) {
    1 <= d.year <= 9999 && 1 <= d.month <= 12 && 1 <= d.day <= DaysInMonth(d.year, d.month)
  }

  type CalendarDate = d: Date | ValidDate(d) witness Date(1970, 1, 1)

  /** Chronological order: `a` is strictly earlier than `b`. */
  predicate Before(a: Date, b: Date) {
    || a.year < b.year
    || (a.year == b.year && (a.month < b.month || (a.month == b.month && a.day < b.day)))
  }

  /** `a <= b` on dates. */
  predicate NotAfter(a: Date, b: Date) {
    !Before(b, a)
  }

  // ---------------------------------------------------------------------------
  // Day numbers: `date.toordinal`, where 0001-01-01 is day 1.

  function DaysBeforeYear(y: int): (n: int)
    requires y >= 1
    ensures n >= 365 * (y - 1)
    decreases y
  {
    if y == 1 then 0 else DaysBeforeYear(y - 1) + DaysInYear(y - 1)
  }

  function DaysBeforeMonth(y: int, m: int): int
    requires 1 <= m <= 12
  {
    if m == 1 then 0 else DaysBeforeMonth(y, m - 1) + DaysInMonth(y, m - 1)
  }

  /** The months before December make up the year but its last 31 days. */
  lemma DaysBeforeDecember(y: int)
    ensures DaysBeforeMonth(y, 12) + 31 == DaysInYear(y)
  {
    var leap := if IsLeapYear(y) then 1 else 0;
    assert DaysBeforeMonth(y, 2) == 31;
    assert DaysBeforeMonth(y, 3) == 59 + leap;
    assert DaysBeforeMonth(y, 4) == 90 + leap;
    assert DaysBeforeMonth(y, 5) == 120 + leap;
    assert DaysBeforeMonth(y, 6) == 151 + leap;
    assert DaysBeforeMonth(y, 7) == 181 + leap;
    assert DaysBeforeMonth(y, 8) == 212 + leap;
    assert DaysBeforeMonth(y, 9) == 243 + leap;
    assert DaysBeforeMonth(y, 10) == 273 + leap;
    assert DaysBeforeMonth(y, 11) == 304 + leap;
    assert DaysBeforeMonth(y, 12) == 334 + leap;
  }

  function Ordinal(d: CalendarDate): int {
    DaysBeforeYear(d.year) + DaysBeforeMonth(d.year, d.month) + d.day
  }

  /** The day before `d` (one step of `d - timedelta(days=1)`). */
  function PrevDay(d: Date): Date {
    if d.day > 1 then Date(d.year, d.month, d.day - 1)
    else if d.month > 1 then Date(d.year, d.month - 1, DaysInMonth(d.year, d.month - 1))
    else Date(d.year - 1, 12, 31)
  }

  /** Stepping back one day lowers the day number by one, as long as the result is still a date. */
  lemma PrevDayStep(d: CalendarDate)
    requires Ordinal(d) > 1
    ensures ValidDate(PrevDay(d))
    ensures Ordinal(PrevDay(d)) == Ordinal(d) - 1
    ensures Before(PrevDay(d), d)
  {
    if d.day == 1 && d.month == 1 {
      assert d.year > 1;
      assert DaysBeforeYear(d.year) == DaysBeforeYear(d.year - 1) + DaysInYear(d.year - 1);
      DaysBeforeDecember(d.year - 1);
    }
  }

  /** `d - timedelta(days=n)`. */
  function SubtractDays(d: Date, n: nat): Date
    decreases n
  {
    if n == 0 then d else SubtractDays(PrevDay(d), n - 1)
  }

  /**
    * Going back `n` days from a date whose day number exceeds `n` gives a date
    * whose day number is exactly `n` lower; otherwise Python raises OverflowError.
    */
  lemma {:induction false} SubtractDaysStep(d: CalendarDate, n: nat)
    requires Ordinal(d) > n
    ensures ValidDate(SubtractDays(d, n))
    ensures Ordinal(SubtractDays(d, n)) == Ordinal(d) - n
    ensures n > 0 ==> Before(SubtractDays(d, n), d)
    decreases n
  {
    if n > 0 {
      PrevDayStep(d);
      var p: CalendarDate := PrevDay(d);
      SubtractDaysStep(p, n - 1);
    }
  }

  // ---------------------------------------------------------------------------
  // Rendering: `strftime('%Y-%m-%d')` and `strftime('%Y-%m-%d %H:%M:%S')`.

  predicate IsDigit(c: char) {
    '0' <= c <= '9'
  }

  function DigitValue(c: char): int {
    c as int - '0' as int
  }

  function DigitChar(n: int): char
    requires 0 <= n <= 9
  {
    ('0' as int + n) as char
  }

  /** Two zero-padded decimal digits. */
  function Pad2(n: int): string
    requires 0 <= n < 100
  {
    [DigitChar(n / 10), DigitChar(n % 10)]
  }

  /** Four zero-padded decimal digits. */
  function Pad4(n: int): (s: string)
    requires 0 <= n < 10000
    ensures |s| == 4
  {
    Pad2(n / 100) + Pad2(n % 100)
  }

  /** The two characters at `i` and `i + 1` read as a two-digit decimal number. */
  function Digits2(s: string, i: nat): int
    requires i + 1 < |s|
  {
    10 * DigitValue(s[i]) + DigitValue(s[i + 1])
  }

  /** `isoformat()` of a date: `YYYY-MM-DD`, every field zero-padded to its width. */
  function FormatDate(d: CalendarDate): (s: string)
    ensures |s| == 10 && s[4] == '-' && s[7] == '-'
    ensures IsDigit(s[0]) && IsDigit(s[1]) && IsDigit(s[2]) && IsDigit(s[3])
    ensures IsDigit(s[5]) && IsDigit(s[6]) && IsDigit(s[8]) && IsDigit(s[9])
    ensures Year4(s[..4]) == d.year && Digits2(s, 5) == d.month && Digits2(s, 8) == d.day
  {
    Pad4Decodes(d.year);
    Pad2Decodes(d.month);
    Pad2Decodes(d.day);
    Pad4(d.year) + "-" + Pad2(d.month) + "-" + Pad2(d.day)
  }

  /** A wall-clock reading to the second (the microseconds `strftime` drops are not kept). */
  datatype Timestamp = Timestamp(date: CalendarDate, hour: int, minute: int, second: int)

  type Instant = t: Timestamp | 0 <= t.hour < 24 && 0 <= t.minute < 60 && 0 <= t.second < 60
    witness Timestamp(Date(1970, 1, 1), 0, 0, 0)

  /** `strftime('%Y-%m-%d %H:%M:%S')`: the ISO date, a space, and the time of day zero-padded. */
  function FormatInstant(t: Instant): (s: string)
    ensures |s| == 19 && s[..10] == FormatDate(t.date) && s[10] == ' ' && s[13] == ':' && s[16] == ':'
    ensures IsDigit(s[11]) && IsDigit(s[12]) && IsDigit(s[14]) && IsDigit(s[15]) && IsDigit(s[17]) && IsDigit(s[18])
    ensures Digits2(s, 11) == t.hour && Digits2(s, 14) == t.minute && Digits2(s, 17) == t.second
  {
    Pad2Decodes(t.hour);
    Pad2Decodes(t.minute);
    Pad2Decodes(t.second);
    FormatDate(t.date) + " " + Pad2(t.hour) + ":" + Pad2(t.minute) + ":" + Pad2(t.second)
  }

  // ---------------------------------------------------------------------------
  // Parsing: `datetime.strptime(s, '%Y-%m-%d').date()`.
  // `%Y` is four digits, `%m` is `1[0-2]|0[1-9]|[1-9]` and `%d` is
  // `3[01]|[12]\d|0[1-9]|[1-9]| [1-9]`; the whole string must be consumed and the
  // result must be a real calendar date, otherwise strptime raises ValueError.

  function Year4(t: string): int
    requires |t| == 4
  {
    1000 * DigitValue(t[0]) + 100 * DigitValue(t[1]) + 10 * DigitValue(t[2]) + DigitValue(t[3])
  }

  function MonthToken(t: string): Option<int> {
    if |t| == 2 && t[0] == '1' && '0' <= t[1] <= '2' then Some(10 + DigitValue(t[1]))
    else if |t| == 2 && t[0] == '0' && '1' <= t[1] <= '9' then Some(DigitValue(t[1]))
    else if |t| == 1 && '1' <= t[0] <= '9' then Some(DigitValue(t[0]))
    else None
  }

  function DayToken(t: string): Option<int> {
    if |t| == 2 && t[0] == '3' && '0' <= t[1] <= '1' then Some(30 + DigitValue(t[1]))
    else if |t| == 2 && '1' <= t[0] <= '2' && IsDigit(t[1]) then Some(10 * DigitValue(t[0]) + DigitValue(t[1]))
    else if |t| == 2 && t[0] == '0' && '1' <= t[1] <= '9' then Some(DigitValue(t[1]))
    else if |t| == 1 && '1' <= t[0] <= '9' then Some(DigitValue(t[0]))
    else if |t| == 2 && t[0] == ' ' && '1' <= t[1] <= '9' then Some(DigitValue(t[1]))
    else None
  }

  function ParseDate(s: string): Option<CalendarDate> {
    if |s| < 8 || !(IsDigit(s[0]) && IsDigit(s[1]) && IsDigit(s[2]) && IsDigit(s[3])) || s[4] != '-' then None
    else
      // the month token is one or two characters long and is followed by '-'
      var sep := if s[6] == '-' then 6 else 7;
      if s[sep] != '-' then None
      else
        match (MonthToken(s[5..sep]), DayToken(s[sep + 1..]))
        case (Some(m), Some(day)) =>
          var d := Date(Year4(s[..4]), m, day);
          if ValidDate(d) then Some(d) else None
        case _ => None
  }

  lemma Pad2Decodes(n: int)
    requires 0 <= n < 100
    ensures 10 * DigitValue(Pad2(n)[0]) + DigitValue(Pad2(n)[1]) == n
  {
  }

  lemma Pad4Decodes(n: int)
    requires 0 <= n < 10000
    ensures Year4(Pad4(n)) == n
  {
    Pad2Decodes(n / 100);
    Pad2Decodes(n % 100);
  }

  /** Zero padding makes the text order agree with the numeric order. */
  lemma Pad2Ordered(x: int, y: int)
    requires 0 <= x < y < 100
    ensures StrLess(Pad2(x), Pad2(y))
  {
    var a, b := Pad2(x), Pad2(y);
    if x / 10 == y / 10 {
      assert a[1..] == [a[1]] && b[1..] == [b[1]];
      assert StrLess(a[1..], b[1..]);
    }
  }

  lemma Pad4Ordered(x: int, y: int)
    requires 0 <= x < y < 10000
    ensures StrLess(Pad4(x), Pad4(y))
  {
    if x / 100 < y / 100 {
      Pad2Ordered(x / 100, y / 100);
      StrLessSettled(Pad2(x / 100), Pad2(y / 100), Pad2(x % 100), Pad2(y % 100));
    } else {
      Pad2Ordered(x % 100, y % 100);
      StrLessCommonPrefix(Pad2(x / 100), Pad2(x % 100), Pad2(y % 100));
    }
  }

  /**
    * Rendered dates sort as text exactly as the dates sort in time, so the
    * frontend's comparisons of date strings and SQLite's comparisons of the
    * stored text follow the calendar.
    */
  lemma FormatDateOrdered(a: CalendarDate, b: CalendarDate)
    ensures Before(a, b) <==> StrLess(FormatDate(a), FormatDate(b))
  {
    if Before(a, b) {
      FormatDateOrderedForward(a, b);
    } else if a == b {
      StrLessIrreflexive(FormatDate(a));
    } else {
      FormatDateOrderedForward(b, a);
      StrLessAsymmetric(FormatDate(b), FormatDate(a));
    }
  }

  lemma FormatDateOrderedForward(a: CalendarDate, b: CalendarDate)
    requires Before(a, b)
    ensures StrLess(FormatDate(a), FormatDate(b))
  {
    var ta := "-" + Pad2(a.month) + "-" + Pad2(a.day);
    var tb := "-" + Pad2(b.month) + "-" + Pad2(b.day);
    assert FormatDate(a) == Pad4(a.year) + ta;
    assert FormatDate(b) == Pad4(b.year) + tb;
    if a.year < b.year {
      Pad4Ordered(a.year, b.year);
      StrLessSettled(Pad4(a.year), Pad4(b.year), ta, tb);
    } else {
      var da := "-" + Pad2(a.day);
      var db := "-" + Pad2(b.day);
      assert ta == "-" + (Pad2(a.month) + da) && tb == "-" + (Pad2(b.month) + db);
      if a.month < b.month {
        Pad2Ordered(a.month, b.month);
        StrLessSettled(Pad2(a.month), Pad2(b.month), da, db);
      } else {
        Pad2Ordered(a.day, b.day);
        StrLessCommonPrefix("-", Pad2(a.day), Pad2(b.day));
        StrLessCommonPrefix(Pad2(a.month), da, db);
      }
      StrLessCommonPrefix("-", Pad2(a.month) + da, Pad2(b.month) + db);
      StrLessCommonPrefix(Pad4(a.year), ta, tb);
    }
  }

  /** Parsing a rendered date gives the date back: `strftime` output is always accepted by `strptime`. */
  lemma ParseFormatRoundTrip(d: CalendarDate)
    ensures ParseDate(FormatDate(d)) == Some(d)
  {
    var s := FormatDate(d);
    Pad4Decodes(d.year);
    assert s[..4] == Pad4(d.year);
    assert s[5..7] == Pad2(d.month);
    assert s[8..] == Pad2(d.day);
    assert MonthToken(Pad2(d.month)) == Some(d.month);
    assert DayToken(Pad2(d.day)) == Some(d.day);
  }

  /** strptime is more lenient than the rendered form: it takes one-digit months and days. */
  lemma ParseAcceptsShortFields()
    ensures ParseDate("2024-1-5") == Some(Date(2024, 1, 5))
  {
    assert MonthToken("1") == Some(1);
    assert DayToken("5") == Some(5);
    assert Year4("2024") == 2024;
  }

  /** A day that its month does not have is refused. */
  lemma ParseRejectsMissingDay()
    ensures ParseDate("2023-02-29") == None
  {
    assert MonthToken("02") == Some(2);
    assert DayToken("29") == Some(29);
    assert !IsLeapYear(2023);
  }
}
