/** Calendar days in the proleptic Gregorian calendar, and the few date-fns
    operations the application relies on (`addMonths`, `subMonths`,
    `lastDayOfMonth`, `startOfMonth`, `endOfMonth`). Months are numbered 1 to 12
    (JavaScript's `getMonth() + 1`); the local time zone and daylight-saving
    shifts are not modelled. */
module Calendar {
  import opened Wrappers
  import opened Text

  datatype Date = Date(year: int, month: int, day: int)

  /** The time-of-day part of a JavaScript `Date`. */
  datatype TimeOfDay = TimeOfDay(hours: int, minutes: int, seconds: int, millis: int)

  datatype DateTime = DateTime(date: Date, time: TimeOfDay)

  function Min(a: int, b: int): int { if a <= b then a else b }

  function Max(a: int, b: int): int { if a >= b then a else b }

  /** The Gregorian rule: every fourth year, except centuries not divisible by 400. */
  predicate IsLeapYear(year: int)
  {
    year % 4 == 0 && (year % 100 != 0 || year % 400 == 0)
  }

  function DaysInMonth(year: int, month: int): (n: int)
    requires 1 <= month <= 12
    ensures 28 <= n <= 31
    ensures n == 29 <==> month == 2 && IsLeapYear(year)
    ensures n == 28 <==> month == 2 && !IsLeapYear(year)
  {
    if month == 2 then (if IsLeapYear(year) then 29 else 28)
    else if month == 4 || month == 6 || month == 9 || month == 11 then 30
    else 31
  }

  predicate ValidDate(d: Date)
  {
    1 <= d.month <= 12 && 1 <= d.day <= DaysInMonth(d.year, d.month)
  }

  /** Months elapsed since January of year 0; consecutive months differ by one. */
  function MonthIndex(d: Date): int { d.year * 12 + d.month - 1 }

  /** Two valid dates in the same month index are in the same calendar month. */
  lemma MonthIndexInjective(a: Date, b: Date)
    requires 1 <= a.month <= 12 && 1 <= b.month <= 12
    requires MonthIndex(a) == MonthIndex(b)
    ensures a.year == b.year && a.month == b.month
  {
  }

  /** date-fns `addMonths(d, n)`: the same day `n` months later, moved back to
      the last day of the target month when that month is shorter. */
  function AddMonths(d: Date, n: int): (r: Date)
    requires ValidDate(d)
    ensures ValidDate(r)
    ensures MonthIndex(r) == MonthIndex(d) + n
    ensures r.day == Min(d.day, DaysInMonth(r.year, r.month))
  {
    var k := MonthIndex(d) + n;
    var year := k / 12;
    var month := k % 12 + 1;
    Date(year, month, Min(d.day, DaysInMonth(year, month)))
  }

  /** Adding no months leaves a date where it is. */
  lemma AddZeroMonths(d: Date)
    requires ValidDate(d)
    ensures AddMonths(d, 0) == d
  {
    MonthIndexInjective(AddMonths(d, 0), d);
  }

  /** date-fns `subMonths(d, n)`. */
  function SubMonths(d: Date, n: int): (r: Date)
    requires ValidDate(d)
    ensures ValidDate(r) && MonthIndex(r) == MonthIndex(d) - n
  {
    AddMonths(d, -n)
  }

  /** date-fns `startOfMonth`, as a calendar day. */
  function StartOfMonth(d: Date): (r: Date)
    requires ValidDate(d)
    ensures ValidDate(r) && MonthIndex(r) == MonthIndex(d) && r.day == 1
  {
    Date(d.year, d.month, 1)
  }

  /** date-fns `endOfMonth` and `lastDayOfMonth`, as a calendar day. */
  function EndOfMonth(d: Date): (r: Date)
    requires ValidDate(d)
    ensures ValidDate(r) && MonthIndex(r) == MonthIndex(d)
    ensures r.day == DaysInMonth(r.year, r.month)
  {
    Date(d.year, d.month, DaysInMonth(d.year, d.month))
  }

  /** The calendar day before `d`. */
  function PreviousDay(d: Date): (r: Date)
    requires ValidDate(d)
    ensures ValidDate(r)
    ensures d.day > 1 ==> r == d.(day := d.day - 1)
    ensures d.day == 1 ==> MonthIndex(r) == MonthIndex(d) - 1 && r.day == DaysInMonth(r.year, r.month)
  {
    if d.day > 1 then d.(day := d.day - 1) else EndOfMonth(SubMonths(d, 1))
  }

  // ---------------------------------------------------------------------------
  // The `yyyy-MM-dd` text of a calendar day (date-fns `format(d, 'yyyy-MM-dd')`)
  // ---------------------------------------------------------------------------

  function TwoDigits(n: nat): (s: string)
    requires n < 100
    ensures |s| == 2 && AllDigits(s)
  {
    [DigitChar(n / 10), DigitChar(n % 10)]
  }

  function TwoDigitValue(s: string): (n: nat)
    requires |s| == 2 && AllDigits(s)
    ensures n < 100
  {
    DigitValue(s[0]) * 10 + DigitValue(s[1])
  }

  lemma TwoDigitsRoundTrip(n: nat)
    requires n < 100
    ensures TwoDigitValue(TwoDigits(n)) == n
  {
  }

  lemma TwoDigitValueRoundTrip(s: string)
    requires |s| == 2 && AllDigits(s)
    ensures TwoDigits(TwoDigitValue(s)) == s
  {
    var n := TwoDigitValue(s);
    assert n / 10 == DigitValue(s[0]) && n % 10 == DigitValue(s[1]);
  }

  /** Years are written with four digits, as `yyyy` does for years 0 to 9999. */
  predicate FourDigitYear(d: Date) { 0 <= d.year <= 9999 }

  /** The `yyyy-MM-dd` text of a valid day with a four-digit year. */
  function FormatDay(d: Date): (s: string)
    requires ValidDate(d) && FourDigitYear(d)
    ensures |s| == 10 && s[4] == '-' && s[7] == '-'
  {
    TwoDigits(d.year / 100) + TwoDigits(d.year % 100) + "-" + TwoDigits(d.month) + "-" + TwoDigits(d.day)
  }

  /** The calendar day a `yyyy-MM-dd` text names; `None` for any other text
      or a day the calendar does not have. */
  function ParseDay(s: string): (r: Option<Date>)
    ensures r.Some? ==> ValidDate(r.value) && FourDigitYear(r.value)
  {
    if |s| == 10 && s[4] == '-' && s[7] == '-'
       && AllDigits(s[0..2]) && AllDigits(s[2..4]) && AllDigits(s[5..7]) && AllDigits(s[8..10])
    then
      var d := Date(TwoDigitValue(s[0..2]) * 100 + TwoDigitValue(s[2..4]), TwoDigitValue(s[5..7]), TwoDigitValue(s[8..10]));
      if ValidDate(d) then Some(d) else None
    else None
  }

  /** Formatting a day and reading it back gives the same day. */
  lemma FormatDayRoundTrip(d: Date)
    requires ValidDate(d) && FourDigitYear(d)
    ensures ParseDay(FormatDay(d)) == Some(d)
  {
    var s := FormatDay(d);
    assert s[0..2] == TwoDigits(d.year / 100);
    assert s[2..4] == TwoDigits(d.year % 100);
    assert s[5..7] == TwoDigits(d.month);
    assert s[8..10] == TwoDigits(d.day);
    TwoDigitsRoundTrip(d.year / 100);
    TwoDigitsRoundTrip(d.year % 100);
    TwoDigitsRoundTrip(d.month);
    TwoDigitsRoundTrip(d.day);
  }

  /** A text that reads as a day is exactly that day's `yyyy-MM-dd` text. */
  lemma ParseDayRoundTrip(s: string)
    requires ParseDay(s).Some?
    ensures FormatDay(ParseDay(s).value) == s
  {
    var d := ParseDay(s).value;
    var hi := TwoDigitValue(s[0..2]);
    var lo := TwoDigitValue(s[2..4]);
    assert d.year == hi * 100 + lo;
    assert d.year / 100 == hi && d.year % 100 == lo;
    TwoDigitValueRoundTrip(s[0..2]);
    TwoDigitValueRoundTrip(s[2..4]);
    TwoDigitValueRoundTrip(s[5..7]);
    TwoDigitValueRoundTrip(s[8..10]);
    assert FormatDay(d) == s[0..2] + s[2..4] + "-" + s[5..7] + "-" + s[8..10];
    assert s == s[0..2] + s[2..4] + [s[4]] + s[5..7] + [s[7]] + s[8..10];
  }

  /** Different days have different texts. */
  lemma FormatDayInjective(a: Date, b: Date)
    requires ValidDate(a) && FourDigitYear(a) && ValidDate(b) && FourDigitYear(b)
    requires a != b
    ensures FormatDay(a) != FormatDay(b)
  {
    FormatDayRoundTrip(a);
    FormatDayRoundTrip(b);
  }

  // ---------------------------------------------------------------------------
  // Local time zone
  // ---------------------------------------------------------------------------

  /** The local calendar day of the instant that is midnight UTC on `d`, seen
      from a time zone `offsetMinutes` ahead of UTC (negative west of
      Greenwich; -180 in Brasília). Offsets are less than a day. */
  function LocalDayOfUtcMidnight(d: Date, offsetMinutes: int): (r: Date)
    requires ValidDate(d) && -1440 < offsetMinutes < 1440
    ensures ValidDate(r)
    ensures r == d <==> offsetMinutes >= 0
    ensures offsetMinutes < 0 ==> r == PreviousDay(d)
  {
    if offsetMinutes < 0 then PreviousDay(d) else d
  }

  /** Chronological order of calendar days. */
  predicate DateLe(a: Date, b: Date)
  {
    MonthIndex(a) < MonthIndex(b) || (MonthIndex(a) == MonthIndex(b) && a.day <= b.day)
  }
}
