/**
 * The parts of Python's `datetime` that the backup check relies on: the proleptic
 * Gregorian ordinal of a date, the whole-day part of a difference of two moments,
 * and `strftime`/`strptime` with the format `%Y-%m-%d`.
 */
module Dates {
  import opened Wrappers

  datatype Date = Date(year: int, month: int, day: int)

  /** A moment: a date and the time of day, in microseconds since midnight. */
  datatype DateTime = DateTime(date: Date, micros: int)

  const MicrosPerDay: int := 86_400_000_000

  /** `datetime.max.date()`. */
  const MaxDate: Date := Date(9999, 12, 31)

  predicate IsLeap(y: int) {
    y % 4 == 0 && (y % 100 != 0 || y % 400 == 0)
  }

  function DaysInMonth(y: int, m: int): int
    requires 1 <= m <= 12
  {
    if m == 2 then (if IsLeap(y) then 29 else 28)
    else if m == 4 || m == 6 || m == 9 || m == 11 then 30
    else 31
  }

  function DaysInYear(y: int): int {
    if IsLeap(y) then 366 else 365
  }

  /** A date `datetime.date` accepts: years 1 to 9999 and a day that exists in its month. */
  predicate ValidDate(d: Date) {
    1 <= d.year <= 9999 && 1 <= d.month <= 12 && 1 <= d.day <= DaysInMonth(d.year, d.month)
  }

  predicate ValidDateTime(t: DateTime) {
    ValidDate(t.date) && 0 <= t.micros < MicrosPerDay
  }

  /** Days in the years before `y` (Python's `_days_before_year`). */
  function DaysBeforeYear(y: int): int {
    var z := y - 1;
    z * 365 + z / 4 - z / 100 + z / 400
  }

  /** Days in the months of year `y` before month `m` (Python's `_days_before_month`). */
  function DaysBeforeMonth(y: int, m: int): int
    requires 1 <= m <= 12
  {
    var table := [0, 31, 59, 90, 120, 151, 181, 212, 243, 273, 304, 334];
    table[m - 1] + (if m > 2 && IsLeap(y) then 1 else 0)
  }

  /** `date.toordinal()`: 1 for 0001-01-01, counting days from there. */
  function Ordinal(d: Date): int
    requires ValidDate(d)
  {
    DaysBeforeYear(d.year) + DaysBeforeMonth(d.year, d.month) + d.day
  }

  /** `(now - datetime(last)).days`: the difference in microseconds, floored to whole days
      as `timedelta` normalises it.  The time of day never changes the count. */
  function AgeInDays(now: DateTime, last: Date): (days: int)
    requires ValidDateTime(now) && ValidDate(last)
    ensures days == Ordinal(now.date) - Ordinal(last)
  {
    var delta := (Ordinal(now.date) - Ordinal(last)) * MicrosPerDay + now.micros;
    delta / MicrosPerDay
  }

  lemma DaysBeforeNextYear(y: int)
    requires y >= 1
    ensures DaysBeforeYear(y + 1) == DaysBeforeYear(y) + DaysInYear(y)
  {
    var z := y - 1;
    assert y / 4 == z / 4 + (if y % 4 == 0 then 1 else 0);
    assert y / 100 == z / 100 + (if y % 100 == 0 then 1 else 0);
    assert y / 400 == z / 400 + (if y % 400 == 0 then 1 else 0);
  }

  lemma {:induction false} DaysBeforeYearMonotone(a: int, b: int)
    requires 1 <= a <= b
    ensures DaysBeforeYear(a) <= DaysBeforeYear(b)
    decreases b - a
  {
    if a < b {
      DaysBeforeNextYear(a);
      DaysBeforeYearMonotone(a + 1, b);
    }
  }

  /** Every valid date has an ordinal between that of 0001-01-01 and that of `MaxDate`. */
  lemma OrdinalRange(d: Date)
    requires ValidDate(d)
    ensures 1 <= Ordinal(d) <= Ordinal(MaxDate)
  {
    var y := d.year;
    assert DaysBeforeMonth(y, d.month) + DaysInMonth(y, d.month) <= DaysInYear(y);
    DaysBeforeNextYear(y);
    DaysBeforeYearMonotone(1, y);
    DaysBeforeYearMonotone(y + 1, 10000);
    DaysBeforeNextYear(9999);
  }

  // ---- strftime('%Y-%m-%d') ----

  function DigitChar(n: int): char
    requires 0 <= n <= 9
  {
    (48 + n) as char
  }

  predicate IsDigit(c: char) {
    '0' <= c <= '9'
  }

  function DigitValue(c: char): int
    requires IsDigit(c)
  {
    c as int - 48
  }

  function Pad2(n: int): string
    requires 0 <= n <= 99
  {
    [DigitChar(n / 10), DigitChar(n % 10)]
  }

  function Pad4(n: int): string
    requires 0 <= n <= 9999
  {
    [DigitChar(n / 1000), DigitChar(n / 100 % 10), DigitChar(n / 10 % 10), DigitChar(n % 10)]
  }

  /** `strftime('%Y-%m-%d')` (also `str(date)`): zero-padded year, month and day. */
  function FormatDate(d: Date): (s: string)
    requires ValidDate(d)
    ensures |s| == 10 && s[4] == '-' && s[7] == '-'
    ensures forall i | 0 <= i < 10 && i != 4 && i != 7 :: IsDigit(s[i])
  {
    Pad4(d.year) + "-" + Pad2(d.month) + "-" + Pad2(d.day)
  }

  // ---- strptime(s, '%Y-%m-%d') ----

  /** `%Y` matches `\d\d\d\d`. */
  function ParseYear(t: string): (r: Option<int>)
    ensures r.Some? ==> 0 <= r.value <= 9999
  {
    if |t| == 4 && IsDigit(t[0]) && IsDigit(t[1]) && IsDigit(t[2]) && IsDigit(t[3])
    then Some(DigitValue(t[0]) * 1000 + DigitValue(t[1]) * 100 + DigitValue(t[2]) * 10 + DigitValue(t[3]))
    else None
  }

  /** `%m` matches `1[0-2]|0[1-9]|[1-9]`. */
  function ParseMonth(t: string): (r: Option<int>)
    ensures r.Some? ==> 1 <= r.value <= 12
  {
    if |t| == 1 && '1' <= t[0] <= '9' then Some(DigitValue(t[0]))
    else if |t| == 2 && t[0] == '1' && '0' <= t[1] <= '2' then Some(10 + DigitValue(t[1]))
    else if |t| == 2 && t[0] == '0' && '1' <= t[1] <= '9' then Some(DigitValue(t[1]))
    else None
  }

  /** `%d` matches `3[01]|[12]\d|0[1-9]|[1-9]| [1-9]`. */
  function ParseDay(t: string): (r: Option<int>)
    ensures r.Some? ==> 1 <= r.value <= 31
  {
    if |t| == 1 && '1' <= t[0] <= '9' then Some(DigitValue(t[0]))
    else if |t| == 2 && t[0] == '3' && '0' <= t[1] <= '1' then Some(30 + DigitValue(t[1]))
    else if |t| == 2 && '1' <= t[0] <= '2' && IsDigit(t[1]) then Some(DigitValue(t[0]) * 10 + DigitValue(t[1]))
    else if |t| == 2 && (t[0] == '0' || t[0] == ' ') && '1' <= t[1] <= '9' then Some(DigitValue(t[1]))
    else None
  }

  /**
   * `datetime.strptime(s, '%Y-%m-%d').date()`, with None for the `ValueError` it raises.
   * The whole string must match (no unconverted data); the month field ends at the
   * second `-` because no month alternative contains one; the date must exist, and
   * year 0 is out of range.
   */
  function ParseDate(s: string): (r: Option<Date>)
    ensures r.Some? ==> ValidDate(r.value)
  {
    if |s| < 5 || s[4] != '-' then None
    else
      var rest := s[5..];
      var cut := if |rest| >= 2 && rest[1] == '-' then 1
                 else if |rest| >= 3 && rest[2] == '-' then 2
                 else 0;
      if cut == 0 then None
      else
        match (ParseYear(s[..4]), ParseMonth(rest[..cut]), ParseDay(rest[cut + 1..]))
        case (Some(y), Some(m), Some(d)) =>
          if 1 <= y && d <= DaysInMonth(y, m) then Some(Date(y, m, d)) else None
        case _ => None
  }

  /** `strptime` also takes unpadded and space-padded fields, and 29 February of a leap year. */
  lemma ParseDateAccepts()
    ensures ParseDate("2021-1-5") == Some(Date(2021, 1, 5))
    ensures ParseDate("2021-12- 5") == Some(Date(2021, 12, 5))
    ensures ParseDate("2024-02-29") == Some(Date(2024, 2, 29))
  {
    assert "2021-1-5"[5..] == "1-5";
    assert "2021-12- 5"[5..] == "12- 5";
    assert "2024-02-29"[5..] == "02-29";
  }

  /** `strptime` rejects a date that does not exist, year 0, and trailing text. */
  lemma ParseDateRejects()
    ensures ParseDate("2021-02-29") == None
    ensures ParseDate("0000-01-01") == None
    ensures ParseDate("2021-01-011") == None
  {
    assert "2021-02-29"[5..] == "02-29";
    assert "0000-01-01"[5..] == "01-01";
    assert "2021-01-011"[5..] == "01-011";
  }

  lemma DigitRoundTrip(n: int)
    requires 0 <= n <= 9
    ensures IsDigit(DigitChar(n)) && DigitValue(DigitChar(n)) == n
  {
  }

  /** A four-digit number is the sum of its digits' place values. */
  lemma FourDigits(y: int)
    requires 0 <= y <= 9999
    ensures y == y / 1000 * 1000 + y / 100 % 10 * 100 + y / 10 % 10 * 10 + y % 10
  {
    var q := y / 10;
    assert y == q * 10 + y % 10;
    assert y / 100 == q / 10 && y / 10 % 10 == q % 10;
    assert q == q / 10 * 10 + q % 10;
    var r := q / 10;
    assert y / 1000 == r / 10 && y / 100 % 10 == r % 10;
    assert r == r / 10 * 10 + r % 10;
  }

  lemma ParseYearPad4(y: int)
    requires 0 <= y <= 9999
    ensures ParseYear(Pad4(y)) == Some(y)
  {
    FourDigits(y);
    DigitRoundTrip(y / 1000);
    DigitRoundTrip(y / 100 % 10);
    DigitRoundTrip(y / 10 % 10);
    DigitRoundTrip(y % 10);
  }

  lemma ParseMonthPad2(m: int)
    requires 1 <= m <= 12
    ensures ParseMonth(Pad2(m)) == Some(m)
  {
    DigitRoundTrip(m / 10);
    DigitRoundTrip(m % 10);
  }

  lemma ParseDayPad2(d: int)
    requires 1 <= d <= 31
    ensures ParseDay(Pad2(d)) == Some(d)
  {
    DigitRoundTrip(d / 10);
    DigitRoundTrip(d % 10);
  }

  /** Formatting a valid date and parsing the text back gives the same date. */
  lemma ParseFormat(d: Date)
    requires ValidDate(d)
    ensures ParseDate(FormatDate(d)) == Some(d)
  {
    var s := FormatDate(d);
    var rest := s[5..];
    assert s[..4] == Pad4(d.year);
    assert rest == Pad2(d.month) + "-" + Pad2(d.day);
    assert rest[..2] == Pad2(d.month) && rest[3..] == Pad2(d.day);
    DigitRoundTrip(d.month % 10);
    ParseYearPad4(d.year);
    ParseMonthPad2(d.month);
    ParseDayPad2(d.day);
  }
}
