/**
 * Calendar dates as the sources use them: Python's datetime.date (ordered
 * field by field, parsed with strptime("%Y-%m-%d"), printed by isoformat(),
 * shifted by timedelta(days=n)) and SQLite's date() function.
 */
module Dates {
  import opened Wrappers
  import opened Text

  datatype Date = Date(year: int, month: int, day: int)

  /** Gregorian leap years, extended to year 0 as SQLite does. */
  predicate IsLeapYear(y: int) {
    y % 4 == 0 && (y % 100 != 0 || y % 400 == 0)
  }

  function DaysInMonth(y: int, m: int): (n: int)
    ensures 28 <= n <= 31
  {
    if m == 2 then (if IsLeapYear(y) then 29 else 28)
    else if m == 4 || m == 6 || m == 9 || m == 11 then 30
    else 31
  }

  /** A day that exists in the proleptic Gregorian calendar. */
  predicate IsCalendarDate(d: Date) {
    d.year >= 0 && 1 <= d.month <= 12 && 1 <= d.day <= DaysInMonth(d.year, d.month)
  }

  /** A value datetime.date accepts: years 1 to 9999. */
  predicate IsPythonDate(d: Date) {
    IsCalendarDate(d) && 1 <= d.year <= 9999
  }

  /** Python's `a < b` on dates. */
  predicate Before(a: Date, b: Date) {
    a.year < b.year || (a.year == b.year && (a.month < b.month || (a.month == b.month && a.day < b.day)))
  }

  /** Python's `a <= b` on dates. */
  predicate NotAfter(a: Date, b: Date) {
    Before(a, b) || a == b
  }

  /** The day after `d`: a calendar date later than `d` (see NextDayIsNext). */
  function NextDay(d: Date): (n: Date)
    requires IsCalendarDate(d)
    ensures IsCalendarDate(n) && Before(d, n)
  {
    if d.day < DaysInMonth(d.year, d.month) then Date(d.year, d.month, d.day + 1)
    else if d.month < 12 then Date(d.year, d.month + 1, 1)
    else Date(d.year + 1, 1, 1)
  }

  /** No calendar date lies strictly between a date and the next one. */
  lemma NextDayIsNext(d: Date, x: Date)
    requires IsCalendarDate(d) && IsCalendarDate(x) && Before(d, x)
    ensures NotAfter(NextDay(d), x)
  {
  }

  /** The first day of the month after `d`'s. */
  function FirstOfNextMonth(d: Date): (r: Date)
    requires IsCalendarDate(d)
    ensures IsCalendarDate(r) && Before(d, r) && r.day == 1
  {
    if d.month < 12 then Date(d.year, d.month + 1, 1) else Date(d.year + 1, 1, 1)
  }

  /**
   * d + timedelta(days=n): the day number is advanced within the month, and what does not
   * fit is carried into the following months.
   */
  function AddDays(d: Date, n: nat): (r: Date)
    requires IsCalendarDate(d)
    ensures IsCalendarDate(r)
    ensures n == 0 ==> r == d
    ensures n > 0 ==> Before(d, r)
    decreases n
  {
    var dim := DaysInMonth(d.year, d.month);
    if d.day + n <= dim then Date(d.year, d.month, d.day + n)
    else AddDays(FirstOfNextMonth(d), n - (dim - d.day + 1))
  }

  /** The n-th successor of `d`, one day at a time: the reference for AddDays. */
  function DaysLater(d: Date, n: nat): (r: Date)
    requires IsCalendarDate(d)
    ensures IsCalendarDate(r)
    decreases n
  {
    if n == 0 then d else DaysLater(NextDay(d), n - 1)
  }

  /** Carrying whole months gives the same day as stepping day by day. */
  lemma {:induction false} AddDaysIsDaysLater(d: Date, n: nat)
    requires IsCalendarDate(d)
    ensures AddDays(d, n) == DaysLater(d, n)
    decreases n
  {
    if n > 0 {
      AddDaysStep(d, n);
      AddDaysIsDaysLater(NextDay(d), n - 1);
    }
  }

  /** Adding n days is adding n - 1 days to the next day. */
  lemma AddDaysStep(d: Date, n: nat)
    requires IsCalendarDate(d) && n > 0
    ensures AddDays(d, n) == AddDays(NextDay(d), n - 1)
  {
  }

  /** date.isoformat(): YYYY-MM-DD, each field zero-padded. */
  function IsoFormat(d: Date): (s: string)
    requires 0 <= d.year <= 9999 && 1 <= d.month <= 12 && 1 <= d.day <= 31
    ensures |s| == 10 && s[4] == '-' && s[7] == '-'
  {
    Digits(d.year, 4) + "-" + Digits(d.month, 2) + "-" + Digits(d.day, 2)
  }

  /** Comparing "Y-M-D" texts whose Y parts and M parts have equal widths compares Y, then M, then D. */
  lemma DashedOrder(y1: string, m1: string, d1: string, y2: string, m2: string, d2: string)
    requires |y1| == |y2| && |m1| == |m2|
    ensures StrLess(y1 + "-" + m1 + "-" + d1, y2 + "-" + m2 + "-" + d2)
        <==> StrLess(y1, y2) || (y1 == y2 && (StrLess(m1, m2) || (m1 == m2 && StrLess(d1, d2))))
  {
    assert y1 + "-" + m1 + "-" + d1 == y1 + ("-" + (m1 + ("-" + d1)));
    assert y2 + "-" + m2 + "-" + d2 == y2 + ("-" + (m2 + ("-" + d2)));
    StrLessConcat(y1, "-" + (m1 + ("-" + d1)), y2, "-" + (m2 + ("-" + d2)));
    StrLessConcat("-", m1 + ("-" + d1), "-", m2 + ("-" + d2));
    StrLessConcat(m1, "-" + d1, m2, "-" + d2);
    StrLessConcat("-", d1, "-", d2);
  }

  lemma DashedEqual(y1: string, m1: string, d1: string, y2: string, m2: string, d2: string)
    requires |y1| == |y2| && |m1| == |m2| && |d1| == |d2|
    ensures y1 + "-" + m1 + "-" + d1 == y2 + "-" + m2 + "-" + d2 <==> y1 == y2 && m1 == m2 && d1 == d2
  {
    var s1, s2 := y1 + "-" + m1 + "-" + d1, y2 + "-" + m2 + "-" + d2;
    if s1 == s2 {
      assert y1 == s1[..|y1|] && y2 == s2[..|y1|];
      assert m1 == s1[|y1| + 1..|y1| + 1 + |m1|] && m2 == s2[|y1| + 1..|y1| + 1 + |m1|];
      assert d1 == s1[|y1| + 2 + |m1|..] && d2 == s2[|y1| + 2 + |m1|..];
    }
  }

  /** For calendar dates of years up to 9999, comparing isoformat() strings compares the dates. */
  lemma IsoOrder(a: Date, b: Date)
    requires IsCalendarDate(a) && IsCalendarDate(b) && a.year <= 9999 && b.year <= 9999
    ensures StrLess(IsoFormat(a), IsoFormat(b)) <==> Before(a, b)
    ensures IsoFormat(a) == IsoFormat(b) <==> a == b
  {
    assert Pow10(2) == 100 && Pow10(4) == 10000;
    DigitsOrder(a.year, b.year, 4);
    DigitsOrder(a.month, b.month, 2);
    DigitsOrder(a.day, b.day, 2);
    DashedOrder(Digits(a.year, 4), Digits(a.month, 2), Digits(a.day, 2), Digits(b.year, 4), Digits(b.month, 2), Digits(b.day, 2));
    DashedEqual(Digits(a.year, 4), Digits(a.month, 2), Digits(a.day, 2), Digits(b.year, 4), Digits(b.month, 2), Digits(b.day, 2));
  }

  // ---------------------------------------------------------------------------
  // strptime(s, "%Y-%m-%d")
  // ---------------------------------------------------------------------------

  lemma {:induction false} DigitsBound(s: string)
    requires AllDigits(s)
    ensures DigitsValue(s) < Pow10(|s|)
  {
    if |s| > 0 {
      DigitsBound(s[..|s| - 1]);
    }
  }

  /** What the month directive matches: 1[0-2] | 0[1-9] | [1-9]. */
  predicate MonthToken(t: string) {
    || (|t| == 1 && '1' <= t[0] <= '9')
    || (|t| == 2 && t[0] == '1' && '0' <= t[1] <= '2')
    || (|t| == 2 && t[0] == '0' && '1' <= t[1] <= '9')
  }

  /** What the day directive matches: 3[01] | [12]\d | 0[1-9] | [1-9] | " "[1-9]. */
  predicate DayToken(t: string) {
    || (|t| == 1 && '1' <= t[0] <= '9')
    || (|t| == 2 && t[0] == '3' && (t[1] == '0' || t[1] == '1'))
    || (|t| == 2 && (t[0] == '1' || t[0] == '2') && IsDigit(t[1]))
    || (|t| == 2 && t[0] == '0' && '1' <= t[1] <= '9')
    || (|t| == 2 && t[0] == ' ' && '1' <= t[1] <= '9')
  }

  function MonthValue(t: string): (m: int)
    requires MonthToken(t)
    ensures 1 <= m <= 12
  {
    if |t| == 1 then DigitValue(t[0]) else 10 * DigitValue(t[0]) + DigitValue(t[1])
  }

  function DayValue(t: string): (d: int)
    requires DayToken(t)
    ensures 1 <= d <= 31
  {
    if |t| == 1 then DigitValue(t[0])
    else if t[0] == ' ' then DigitValue(t[1])
    else 10 * DigitValue(t[0]) + DigitValue(t[1])
  }

  /**
   * datetime.strptime(s, "%Y-%m-%d").date(), None standing for the ValueError it raises.
   * The year is exactly four digits, the month token is the text between the two dashes and
   * the day token is the rest of the string; year 0 and days the month does not have are
   * rejected.
   */
  function ParseDate(s: string): (r: Option<Date>)
    ensures r.Some? ==> IsPythonDate(r.value)
  {
    if |s| < 8 || !AllDigits(s[..4]) || s[4] != '-' then None
    else
      var rest := s[5..];
      var cut := if rest[1] == '-' then 1 else 2;
      if rest[cut] != '-' || !MonthToken(rest[..cut]) || !DayToken(rest[cut + 1..]) then None
      else
        var y, m, d := DigitsValue(s[..4]), MonthValue(rest[..cut]), DayValue(rest[cut + 1..]);
        DigitsBound(s[..4]);
        assert Pow10(4) == 10000;
        if y >= 1 && d <= DaysInMonth(y, m) then Some(Date(y, m, d)) else None
  }

  lemma TwoDigits(n: nat)
    requires n < 100
    ensures Digits(n, 2) == [DigitChar(n / 10), DigitChar(n % 10)]
  {
    var t := n / 10;
    assert t < 10 && t % 10 == t && t / 10 == 0;
    assert Digits(t, 1) == Digits(0, 0) + [DigitChar(t)];
    assert Digits(n, 2) == Digits(t, 1) + [DigitChar(n % 10)];
  }

  /** strptime reads back what isoformat() writes. */
  lemma ParseIsoRoundTrip(d: Date)
    requires IsPythonDate(d)
    ensures ParseDate(IsoFormat(d)) == Some(d)
  {
    var s := IsoFormat(d);
    assert Pow10(4) == 10000;
    assert s[..4] == Digits(d.year, 4);
    DigitsRoundTrip(d.year, 4);
    PaddedMonth(d.month);
    PaddedDay(d.day);
    var rest := s[5..];
    assert rest == Digits(d.month, 2) + "-" + Digits(d.day, 2);
    assert rest[..2] == Digits(d.month, 2);
    assert rest[3..] == Digits(d.day, 2);
  }

  /** A zero-padded month is a month token that reads back as the month. */
  lemma PaddedMonth(m: int)
    requires 1 <= m <= 12
    ensures MonthToken(Digits(m, 2)) && MonthValue(Digits(m, 2)) == m
  {
    TwoDigits(m);
  }

  /** A zero-padded day is a day token that reads back as the day. */
  lemma PaddedDay(d: int)
    requires 1 <= d <= 31
    ensures DayToken(Digits(d, 2)) && DayValue(Digits(d, 2)) == d
  {
    TwoDigits(d);
  }

  // ---------------------------------------------------------------------------
  // SQLite's date(x)
  // ---------------------------------------------------------------------------

  /**
   * SQLite's date() applied to a text value of the form YYYY-MM-DD: month 1 to 12 and day
   * 1 to 31 are accepted in every month, a day the month lacks running on into the next
   * month (2025-02-30 is 2025-03-02). None is SQL NULL.
   */
  function SqliteDate(s: string): (r: Option<Date>)
    ensures r.Some? ==> IsCalendarDate(r.value) && r.value.year <= 9999
  {
    if |s| != 10 || s[4] != '-' || s[7] != '-' || !AllDigits(s[..4]) || !AllDigits(s[5..7]) || !AllDigits(s[8..]) then None
    else
      var y, m, d := DigitsValue(s[..4]), DigitsValue(s[5..7]), DigitsValue(s[8..]);
      DigitsBound(s[..4]);
      assert Pow10(4) == 10000;
      if m < 1 || m > 12 || d < 1 || d > 31 then None
      else if d <= DaysInMonth(y, m) then Some(Date(y, m, d))
      else Some(Date(y, m + 1, d - DaysInMonth(y, m)))
  }

  /** On isoformat() text of a real date, SQLite's date() is the identity. */
  lemma SqliteDateOfIso(d: Date)
    requires IsCalendarDate(d) && d.year <= 9999
    ensures SqliteDate(IsoFormat(d)) == Some(d)
  {
    var s := IsoFormat(d);
    assert Pow10(4) == 10000 && Pow10(2) == 100;
    assert s[..4] == Digits(d.year, 4);
    assert s[5..7] == Digits(d.month, 2);
    assert s[8..] == Digits(d.day, 2);
    DigitsRoundTrip(d.year, 4);
    DigitsRoundTrip(d.month, 2);
    DigitsRoundTrip(d.day, 2);
  }
}
