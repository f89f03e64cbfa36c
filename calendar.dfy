/** Calendar dates as the pipeline uses them: `strftime("%Y-%m-%d")` output,
    ordinal day numbers, and the Monday that starts a pandas "W" period
    (weeks end on Sunday). */
module Calendar {
  import opened Wrappers

  datatype Date = Date(year: int, month: int, day: int)

  predicate IsLeapYear(y: int) {
    y % 4 == 0 && (y % 100 != 0 || y % 400 == 0)
  }

  function DaysInMonth(y: int, m: int): int
    requires 1 <= m <= 12
  {
    if m == 2 then (if IsLeapYear(y) then 29 else 28)
    else if m == 4 || m == 6 || m == 9 || m == 11 then 30
    else 31
  }

  /** A real calendar day with a four-digit year, which covers every
      timestamp pandas can represent. */
  predicate IsValidDate(d: Date) {
    1 <= d.year <= 9999 && 1 <= d.month <= 12 && 1 <= d.day <= DaysInMonth(d.year, d.month)
  }

  type CalendarDate = d: Date | IsValidDate(d) witness Date(1970, 1, 1)

  /** The number of days from 1970-01-01 to `d` (proleptic Gregorian calendar). */
  function DayNumber(d: CalendarDate): int
  {
    var y := if d.month <= 2 then d.year - 1 else d.year;
    var era := y / 400;
    var yoe := y - era * 400;
    var mp := (d.month + 9) % 12;
    var doy := (153 * mp + 2) / 5 + d.day - 1;
    var doe := yoe * 365 + yoe / 4 - yoe / 100 + doy;
    era * 146097 + doe - 719468
  }

  /** Day of the week of a day number: Monday is 0 and Sunday is 6
      (day 0, 1970-01-01, was a Thursday). */
  function Weekday(n: int): int
  {
    (n + 3) % 7
  }

  /** The start of the pandas "W" period holding day `n`: the Monday on or
      before `n`. */
  function WeekStart(n: int): (w: int)
    ensures Weekday(w) == 0 && w <= n < w + 7
  {
    n - Weekday(n)
  }

  /** The Monday on or before a day is unique, so every day of one
      Monday-to-Sunday week has the same week start. */
  lemma WeekStartUnique(n: int, m: int)
    requires Weekday(m) == 0 && m <= n < m + 7
    ensures WeekStart(n) == m
  {
    var w := WeekStart(n);
    assert (w + 3) % 7 == 0 && (m + 3) % 7 == 0;
    assert (w + 3) / 7 * 7 == w + 3 && (m + 3) / 7 * 7 == m + 3;
    assert -7 < w - m < 7;
    var q := (w + 3) / 7 - (m + 3) / 7;
    assert w - m == 7 * q;
  }

  /** 2024-01-01 was a Monday, and it starts the week of 2024-01-02. */
  lemma WeekOfSecondJanuary2024()
    ensures Weekday(DayNumber(Date(2024, 1, 1))) == 0
    ensures WeekStart(DayNumber(Date(2024, 1, 2))) == DayNumber(Date(2024, 1, 1))
  {
    assert DayNumber(Date(2024, 1, 1)) == 19723 by {
      assert (153 * 10 + 2) / 5 == 306;
      assert 2023 / 400 == 5 && 23 / 4 == 5 && 23 / 100 == 0;
    }
    assert DayNumber(Date(2024, 1, 2)) == 19724 by {
      assert (153 * 10 + 2) / 5 == 306;
      assert 2023 / 400 == 5 && 23 / 4 == 5 && 23 / 100 == 0;
    }
    WeekStartUnique(19724, 19723);
  }

  predicate IsDigit(c: char) {
    '0' <= c <= '9'
  }

  function DigitChar(n: int): (c: char)
    requires 0 <= n <= 9
  {
    ('0' as int + n) as char
  }

  function DigitValue(c: char): int
    requires IsDigit(c)
  {
    c as int - '0' as int
  }

  function Pad2(n: int): string
    requires 0 <= n <= 99
  {
    [DigitChar(n / 10), DigitChar(n % 10)]
  }

  function Pad4(n: int): string
    requires 0 <= n <= 9999
  {
    [DigitChar(n / 1000), DigitChar(n / 100 % 10), DigitChar(n / 10 % 10), DigitChar(n % 10)]
  }

  /** The shape `YYYY-MM-DD`. */
  predicate IsIsoDateText(s: string) {
    |s| == 10 && s[4] == '-' && s[7] == '-'
    && forall i :: 0 <= i < 10 && i != 4 && i != 7 ==> IsDigit(s[i])
  }

  /** `strftime("%Y-%m-%d")`. */
  function FormatIso(d: CalendarDate): (s: string)
    ensures IsIsoDateText(s)
  {
    Pad4(d.year) + "-" + Pad2(d.month) + "-" + Pad2(d.day)
  }

  /** Reads back a `YYYY-MM-DD` text naming a real calendar day. */
  function ParseIso(s: string): Option<CalendarDate>
  {
    if !IsIsoDateText(s) then None
    else
      var y := DigitValue(s[0]) * 1000 + DigitValue(s[1]) * 100 + DigitValue(s[2]) * 10 + DigitValue(s[3]);
      var m := DigitValue(s[5]) * 10 + DigitValue(s[6]);
      var d := DigitValue(s[8]) * 10 + DigitValue(s[9]);
      if IsValidDate(Date(y, m, d)) then Some(Date(y, m, d)) else None
  }

  lemma Pad4Value(n: int)
    requires 0 <= n <= 9999
    ensures DigitValue(Pad4(n)[0]) * 1000 + DigitValue(Pad4(n)[1]) * 100
          + DigitValue(Pad4(n)[2]) * 10 + DigitValue(Pad4(n)[3]) == n
  {
    var q1, e := n / 10, n % 10;
    var q2, c := q1 / 10, q1 % 10;
    var a, b := q2 / 10, q2 % 10;
    assert n == q2 * 100 + (c * 10 + e);
    DivideBy(n, 100, q2, c * 10 + e);
    assert n == a * 1000 + (b * 100 + c * 10 + e);
    DivideBy(n, 1000, a, b * 100 + c * 10 + e);
  }

  /** Integer division by a positive constant, from a quotient and remainder. */
  lemma DivideBy(y: int, k: int, q: int, r: int)
    requires k == 10 || k == 100 || k == 1000
    requires y == q * k + r && 0 <= r < k
    ensures y / k == q && y % k == r
  {
  }

  lemma Pad2Value(n: int)
    requires 0 <= n <= 99
    ensures DigitValue(Pad2(n)[0]) * 10 + DigitValue(Pad2(n)[1]) == n
  {
  }

  /** Formatting a date and reading it back gives the date. */
  lemma ParseFormatIso(d: CalendarDate)
    ensures ParseIso(FormatIso(d)) == Some(d)
  {
    var s := FormatIso(d);
    Pad4Value(d.year);
    Pad2Value(d.month);
    Pad2Value(d.day);
    assert s[0..4] == Pad4(d.year) && s[5..7] == Pad2(d.month) && s[8..10] == Pad2(d.day);
  }

  /** A text that reads back as a date is exactly that date's formatting: no
      two texts name the same day. */
  lemma FormatParseIso(s: string)
    requires ParseIso(s).Some?
    ensures FormatIso(ParseIso(s).value) == s
  {
    var d := ParseIso(s).value;
    assert IsIsoDateText(s);
    assert Pad4(d.year) == s[0..4] by {
      YearDigits(s);
    }
    assert Pad2(d.month) == s[5..7] by {
      TwoDigits(s[5], s[6]);
    }
    assert Pad2(d.day) == s[8..10] by {
      TwoDigits(s[8], s[9]);
    }
    assert s == s[0..4] + "-" + s[5..7] + "-" + s[8..10];
  }

  lemma DigitRoundTrip(c: char)
    requires IsDigit(c)
    ensures DigitChar(DigitValue(c)) == c
  {
  }

  lemma TwoDigits(c0: char, c1: char)
    requires IsDigit(c0) && IsDigit(c1)
    ensures Pad2(DigitValue(c0) * 10 + DigitValue(c1)) == [c0, c1]
  {
    var a, b := DigitValue(c0), DigitValue(c1);
    DivideBy(a * 10 + b, 10, a, b);
    DigitRoundTrip(c0);
    DigitRoundTrip(c1);
  }

  lemma YearDigits(s: string)
    requires IsIsoDateText(s)
    ensures var y := DigitValue(s[0]) * 1000 + DigitValue(s[1]) * 100 + DigitValue(s[2]) * 10 + DigitValue(s[3]);
            Pad4(y) == s[0..4]
  {
    assert IsDigit(s[0]) && IsDigit(s[1]) && IsDigit(s[2]) && IsDigit(s[3]);
    var a, b, c, e := DigitValue(s[0]), DigitValue(s[1]), DigitValue(s[2]), DigitValue(s[3]);
    var y := a * 1000 + b * 100 + c * 10 + e;
    DivideBy(y, 1000, a, b * 100 + c * 10 + e);
    DivideBy(y, 100, a * 10 + b, c * 10 + e);
    DivideBy(a * 10 + b, 10, a, b);
    DivideBy(y, 10, a * 100 + b * 10 + c, e);
    DivideBy(a * 100 + b * 10 + c, 10, a * 10 + b, c);
    DigitRoundTrip(s[0]);
    DigitRoundTrip(s[1]);
    DigitRoundTrip(s[2]);
    DigitRoundTrip(s[3]);
  }
}
