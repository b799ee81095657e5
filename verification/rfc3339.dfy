/**
 UTC timestamps in the form of section 5.6 of RFC 3339, to the second, and back.

 A time is a number of seconds since the start of 0001-01-01.
 */
module Rfc3339 {
  import opened Decimals

  // ---- the calendar -----------------------------------------------------------

  predicate Leap(y: int) { y % 4 == 0 && (y % 100 != 0 || y % 400 == 0) }

  function YearLength(y: int): nat { if Leap(y) then 366 else 365 }

  function MonthLength(y: int, m: int): nat {
    if m == 2 then (if Leap(y) then 29 else 28)
    else if m in {4, 6, 9, 11} then 30
    else 31
  }

  /** The days before a year, and before a month of it. */
  function YearStart(y: int): nat
    decreases y
  {
    if y <= 1 then 0 else YearStart(y - 1) + YearLength(y - 1)
  }

  function MonthStart(y: int, m: int): nat
    decreases m
  {
    if m <= 1 then 0 else MonthStart(y, m - 1) + MonthLength(y, m - 1)
  }

  lemma YearIsMonths(y: int)
    ensures MonthStart(y, 12) + 31 == YearLength(y)
  {
    assert MonthStart(y, 4) == MonthStart(y, 3) + 31 == MonthStart(y, 2) + MonthLength(y, 2) + 31;
    assert MonthStart(y, 8) == MonthStart(y, 4) + 122;
    assert MonthStart(y, 12) == MonthStart(y, 8) + 122;
  }

  datatype Date = Date(year: int, month: int, day: int)

  function Days(d: Date): int { YearStart(d.year) + MonthStart(d.year, d.month) + d.day - 1 }

  /** The year of a day, counting from the first day of year `y`, and the day of that year. */
  function YearFrom(days: nat, y: int): (r: (int, nat))
    requires y >= 1
    ensures r.0 >= y && r.1 < YearLength(r.0) && YearStart(r.0) + r.1 == YearStart(y) + days
    decreases days
  {
    if days < YearLength(y) then (y, days) else YearFrom(days - YearLength(y), y + 1)
  }

  function MonthFrom(yday: nat, y: int, m: int): (r: (int, nat))
    requires 1 <= m <= 12 && MonthStart(y, m) + yday < MonthStart(y, 12) + 31
    ensures m <= r.0 <= 12 && r.1 < MonthLength(y, r.0) <= 31 && MonthStart(y, r.0) + r.1 == MonthStart(y, m) + yday
    decreases 12 - m
  {
    if m == 12 || yday < MonthLength(y, m) then (m, yday) else MonthFrom(yday - MonthLength(y, m), y, m + 1)
  }

  /** The date of a day, and the day of that date again. */
  function DateOf(days: nat): (d: Date)
    ensures d.year >= 1 && 1 <= d.month <= 12 && 1 <= d.day <= MonthLength(d.year, d.month) <= 31 && Days(d) == days
  {
    var (y, yday) := YearFrom(days, 1);
    YearIsMonths(y);
    var (m, mday) := MonthFrom(yday, y, 1);
    Date(y, m, mday + 1)
  }

  // ---- the text ----------------------------------------------------------------

  lemma PadTwo(n: nat)
    requires n < 100
    ensures |Pad(n, 2)| == 2
  {
    if n >= 10 {
      assert Decimal(n / 10) == [Digit(n / 10)];
    }
  }

  /** The number that some text spells; text that is not digits spells nothing. */
  function ValueOf(s: string): int { if AllDigits(s) then Fold(s, 0) else 0 }

  const DAY: int := 86400

  function Two(n: int): (s: string)
    requires 0 <= n < 100
    ensures |s| == 2
  {
    PadTwo(n);
    Pad(n, 2)
  }

  /** Everything after the year. */
  function Rest(d: Date, tod: int): (s: string)
    requires 1 <= d.month <= 12 && 1 <= d.day <= 31 && 0 <= tod < DAY
    ensures |s| == 16
  {
    "-" + Two(d.month) + "-" + Two(d.day) + "T" + Two(tod / 3600) + ":" + Two(tod / 60 % 60) + ":" + Two(tod % 60) + "Z"
  }

  function Format(t: nat): string {
    var d := DateOf(t / DAY);
    Pad(d.year, 4) + Rest(d, t % DAY)
  }

  /** Reads a timestamp from the right, where every field has a fixed place. */
  function Parse(s: string): int
    requires |s| >= 16
  {
    var r := s[|s| - 16..];
    var d := Date(ValueOf(s[..|s| - 16]), ValueOf(r[1..3]), ValueOf(r[4..6]));
    Days(d) * DAY + ValueOf(r[7..9]) * 3600 + ValueOf(r[10..12]) * 60 + ValueOf(r[13..15])
  }

  lemma TwoValue(n: int)
    requires 0 <= n < 100
    ensures ValueOf(Two(n)) == n
  {
    FoldPad(n, 2);
  }

  lemma RestFields(d: Date, tod: int)
    requires 1 <= d.month <= 12 && 1 <= d.day <= 31 && 0 <= tod < DAY
    ensures var r := Rest(d, tod);
      && ValueOf(r[1..3]) == d.month && ValueOf(r[4..6]) == d.day && ValueOf(r[7..9]) == tod / 3600
      && ValueOf(r[10..12]) == tod / 60 % 60 && ValueOf(r[13..15]) == tod % 60
  {
    var r := Rest(d, tod);
    assert r[1..3] == Two(d.month) && r[4..6] == Two(d.day) && r[7..9] == Two(tod / 3600);
    assert r[10..12] == Two(tod / 60 % 60) && r[13..15] == Two(tod % 60);
    TwoValue(d.month);
    TwoValue(d.day);
    TwoValue(tod / 3600);
    TwoValue(tod / 60 % 60);
    TwoValue(tod % 60);
  }

  lemma Clock(tod: int)
    requires 0 <= tod < DAY
    ensures tod / 3600 * 3600 + tod / 60 % 60 * 60 + tod % 60 == tod
  {
    assert tod / 3600 == tod / 60 / 60;
  }

  /** Where each field of a timestamp stands: year-month-dayThour:minute:secondZ, of the date that has those days. */
  lemma FormatExactly(t: nat)
    ensures var s := Format(t);
      && |s| >= 20
      && var n := |s| - 16;
        var d := Date(ValueOf(s[..n]), ValueOf(s[n + 1..n + 3]), ValueOf(s[n + 4..n + 6]));
        && Days(d) == t / DAY && 1 <= d.month <= 12 && 1 <= d.day <= MonthLength(d.year, d.month)
        && ValueOf(s[n + 7..n + 9]) == t % DAY / 3600 && ValueOf(s[n + 10..n + 12]) == t % DAY / 60 % 60
        && ValueOf(s[n + 13..n + 15]) == t % DAY % 60
        && s[n] == '-' && s[n + 3] == '-' && s[n + 6] == 'T' && s[n + 9] == ':' && s[n + 12] == ':' && s[n + 15] == 'Z'
  {
    var d, tod := DateOf(t / DAY), t % DAY;
    var year, r := Pad(d.year, 4), Rest(d, tod);
    var s := Format(t);
    var n := |s| - 16;
    assert s == year + r && s[..n] == year && s[n..] == r;
    FoldPad(d.year, 4);
    RestFields(d, tod);
    assert s[n + 1..n + 3] == r[1..3] && s[n + 4..n + 6] == r[4..6] && s[n + 7..n + 9] == r[7..9];
    assert s[n + 10..n + 12] == r[10..12] && s[n + 13..n + 15] == r[13..15];
    Separators(d, tod);
    assert s[n] == r[0] && s[n + 3] == r[3] && s[n + 6] == r[6] && s[n + 9] == r[9];
    assert s[n + 12] == r[12] && s[n + 15] == r[15];
  }

  lemma Separators(d: Date, tod: int)
    requires 1 <= d.month <= 12 && 1 <= d.day <= 31 && 0 <= tod < DAY
    ensures var r := Rest(d, tod);
      r[0] == '-' && r[3] == '-' && r[6] == 'T' && r[9] == ':' && r[12] == ':' && r[15] == 'Z'
  {
  }

  /** Every second's timestamp reads back as that second. */
  lemma RoundTrip(t: nat)
    ensures |Format(t)| >= 16 && Parse(Format(t)) == t
  {
    var d, tod := DateOf(t / DAY), t % DAY;
    var year, r := Pad(d.year, 4), Rest(d, tod);
    var s := Format(t);
    assert s == year + r && s[..|s| - 16] == year && s[|s| - 16..] == r;
    FoldPad(d.year, 4);
    RestFields(d, tod);
    Clock(tod);
    assert Date(d.year, d.month, d.day) == d;
  }
}
