/**
 The document keys of the daily report: the `YYYY-MM-DD` date string built by
 `formatDate` and the two-digit hour bucket built from `getHours()`.
 The local-time reading of the order's timestamp is an input here: a
 `LocalDateTime` holds what `getFullYear`, `getMonth`, `getDate` and
 `getHours` return in the function's time zone.
 */
module DateKeys {

  import opened Optional

  /** What the JavaScript `Date` getters return; `monthIndex` is 0-based as `getMonth()` is. */
  datatype LocalDateTime = LocalDateTime(year: int, monthIndex: nat, day: nat, hour: nat)

  /** A calendar day as read back from a date key. */
  datatype CalendarDay = CalendarDay(year: int, monthIndex: int, day: int)

  predicate IsDigit(c: char) { '0' <= c <= '9' }

  predicate AllDigits(s: string) { forall i :: 0 <= i < |s| ==> IsDigit(s[i]) }

  function DigitValue(c: char): int { c as int - '0' as int }

  function Digit(d: nat): (c: char)
    requires d < 10
    ensures IsDigit(c) && DigitValue(c) == d
  {
    ('0' as int + d) as char
  }

  /** `String(n)` for a non-negative integral number: its decimal digits, no leading zero. */
  function DecimalString(n: nat): (s: string)
    ensures 1 <= |s| && AllDigits(s)
    ensures |s| == 1 <==> n < 10
    ensures s[0] == '0' ==> n == 0
  {
    if n < 10 then [Digit(n)] else DecimalString(n / 10) + [Digit(n % 10)]
  }

  /** Reads a string of decimal digits back as a number (leading zeros contribute nothing). */
  function ParseDecimal(s: string): int
  {
    if |s| == 0 then 0 else ParseDecimal(s[..|s| - 1]) * 10 + DigitValue(s[|s| - 1])
  }

  lemma {:induction false} DecimalStringRoundTrip(n: nat)
    ensures ParseDecimal(DecimalString(n)) == n
  {
    var s := DecimalString(n);
    if n < 10 {
      assert s[..|s| - 1] == [];
    } else {
      assert s[..|s| - 1] == DecimalString(n / 10);
      DecimalStringRoundTrip(n / 10);
    }
  }

  lemma {:induction false} DecimalStringOfFourDigitYear(n: nat)
    requires 1000 <= n <= 9999
    ensures |DecimalString(n)| == 4
  {
    assert |DecimalString(n / 1000)| == 1;
    assert DecimalString(n / 100) == DecimalString(n / 1000) + [Digit(n / 100 % 10)];
    assert DecimalString(n / 10) == DecimalString(n / 100) + [Digit(n / 10 % 10)];
  }

  /** `s.padStart(width, fill)` with a one-character fill string. */
  function PadStart(s: string, width: nat, fill: char): (r: string)
    ensures |r| == if |s| < width then width else |s|
    ensures r[|r| - |s|..] == s
    ensures forall i :: 0 <= i < |r| - |s| ==> r[i] == fill
  {
    if |s| < width then seq(width - |s|, _ => fill) + s else s
  }

  /** `String(n).padStart(2, '0')`. */
  function TwoDigits(n: nat): string
  {
    PadStart(DecimalString(n), 2, '0')
  }

  lemma TwoDigitsRoundTrip(n: nat)
    requires n < 100
    ensures |TwoDigits(n)| == 2 && AllDigits(TwoDigits(n))
    ensures ParseDecimal(TwoDigits(n)) == n
  {
    var s := TwoDigits(n);
    if n < 10 {
      assert s == ['0', Digit(n)];
      assert s[..1] == ['0'] && s[..1][..0] == [];
      assert ParseDecimal(s[..1]) == 0;
      assert ParseDecimal(s) == ParseDecimal(s[..1]) * 10 + DigitValue(s[1]);
    } else {
      assert |DecimalString(n)| == 2 by {
        assert DecimalString(n) == DecimalString(n / 10) + [Digit(n % 10)];
      }
      DecimalStringRoundTrip(n);
    }
  }

  /** `${year}` for an integral year, which carries a minus sign when negative. */
  function YearString(year: int): (s: string)
    ensures 1 <= |s|
  {
    if year < 0 then "-" + DecimalString(-year) else DecimalString(year)
  }

  function ParseYear(s: string): int
  {
    if 0 < |s| && s[0] == '-' then -ParseDecimal(s[1..]) else ParseDecimal(s)
  }

  lemma YearStringRoundTrip(year: int)
    ensures ParseYear(YearString(year)) == year
  {
    if year < 0 {
      var d := DecimalString(-year);
      assert YearString(year) == "-" + d;
      assert ("-" + d)[1..] == d;
      DecimalStringRoundTrip(-year);
    } else {
      var d := DecimalString(year);
      assert YearString(year) == d && IsDigit(d[0]);
      DecimalStringRoundTrip(year);
    }
  }

  /** `formatDate`: year, then month (`getMonth() + 1`) and day, each padded to two digits. */
  function FormatDate(t: LocalDateTime): string
  {
    YearString(t.year) + "-" + TwoDigits(t.monthIndex + 1) + "-" + TwoDigits(t.day)
  }

  /** The hour bucket of the hourly revenue map: `getHours().toString().padStart(2, '0')`. */
  function HourKey(t: LocalDateTime): string
  {
    TwoDigits(t.hour)
  }

  /** The reading of a date key back into its parts: the inverse of `FormatDate`. */
  function ParseDateKey(s: string): Option<CalendarDay>
  {
    if |s| < 7 then None
    else
      var y, t := s[..|s| - 6], s[|s| - 6..];
      if t[0] != '-' || t[3] != '-' then None
      else Some(CalendarDay(ParseYear(y), ParseDecimal(t[1..3]) - 1, ParseDecimal(t[4..])))
  }

  /** Where the three fields of a key `y-m-d` with two-character `m` and `d` sit. */
  lemma KeyFields(y: string, m: string, d: string)
    requires |m| == 2 && |d| == 2
    ensures var s := y + "-" + m + "-" + d;
      |s| == |y| + 6 && s[|y|] == '-' && s[|y| + 3] == '-' &&
      s[..|y|] == y && s[|y| + 1..|y| + 3] == m && s[|y| + 4..] == d
  {
  }

  /** The last six characters of a key `y-m-d` are `-m-d`, and the rest is `y`. */
  lemma KeySplit(y: string, m: string, d: string)
    requires |m| == 2 && |d| == 2
    ensures var s := y + "-" + m + "-" + d;
      |s| == |y| + 6 && s[..|s| - 6] == y &&
      var t := s[|s| - 6..];
      t[0] == '-' && t[3] == '-' && t[1..3] == m && t[4..] == d
  {
    var t := ['-', m[0], m[1], '-', d[0], d[1]];
    assert "-" + m + "-" + d == t;
    assert y + "-" + m + "-" + d == y + t;
    assert t[1..3] == m && t[4..] == d;
  }

  lemma ParseKeyFields(y: string, m: string, d: string)
    requires 1 <= |y| && |m| == 2 && |d| == 2
    ensures ParseDateKey(y + "-" + m + "-" + d) ==
            Some(CalendarDay(ParseYear(y), ParseDecimal(m) - 1, ParseDecimal(d)))
  {
    KeySplit(y, m, d);
  }

  lemma FormatDateRoundTrip(t: LocalDateTime)
    requires t.monthIndex + 1 < 100 && t.day < 100
    ensures ParseDateKey(FormatDate(t)) == Some(CalendarDay(t.year, t.monthIndex, t.day))
  {
    var y, m, d := YearString(t.year), TwoDigits(t.monthIndex + 1), TwoDigits(t.day);
    TwoDigitsRoundTrip(t.monthIndex + 1);
    TwoDigitsRoundTrip(t.day);
    YearStringRoundTrip(t.year);
    ParseKeyFields(y, m, d);
  }

  /** Two local times fall in the same daily report exactly when they are on the same calendar day. */
  lemma SameDateKeyIffSameDay(t1: LocalDateTime, t2: LocalDateTime)
    requires t1.monthIndex < 12 && t2.monthIndex < 12 && t1.day < 100 && t2.day < 100
    ensures FormatDate(t1) == FormatDate(t2) <==>
            (t1.year == t2.year && t1.monthIndex == t2.monthIndex && t1.day == t2.day)
  {
    FormatDateRoundTrip(t1);
    FormatDateRoundTrip(t2);
  }

  /** Two hours share a bucket exactly when they are equal. */
  lemma SameHourKeyIffSameHour(t1: LocalDateTime, t2: LocalDateTime)
    requires t1.hour < 100 && t2.hour < 100
    ensures HourKey(t1) == HourKey(t2) <==> t1.hour == t2.hour
  {
    TwoDigitsRoundTrip(t1.hour);
    TwoDigitsRoundTrip(t2.hour);
  }

  /** For a four-digit year and a valid month and day the key has the fixed shape `YYYY-MM-DD`. */
  lemma FormatDateShape(t: LocalDateTime)
    requires 1000 <= t.year <= 9999 && t.monthIndex < 12 && t.day < 100
    ensures var s := FormatDate(t);
      |s| == 10 && s[4] == '-' && s[7] == '-' &&
      AllDigits(s[..4]) && AllDigits(s[5..7]) && AllDigits(s[8..])
  {
    DecimalStringOfFourDigitYear(t.year);
    TwoDigitsRoundTrip(t.monthIndex + 1);
    TwoDigitsRoundTrip(t.day);
    var y, m, d := YearString(t.year), TwoDigits(t.monthIndex + 1), TwoDigits(t.day);
    KeyFields(y, m, d);
  }

  /** The hour key of an hour of the day is two digits, "00" to "23". */
  lemma HourKeyShape(t: LocalDateTime)
    requires t.hour < 24
    ensures |HourKey(t)| == 2 && AllDigits(HourKey(t)) && ParseDecimal(HourKey(t)) == t.hour
  {
    TwoDigitsRoundTrip(t.hour);
  }
}
