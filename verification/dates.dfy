/**
 * The delivery date check: `datetime.strptime(text, '%d-%m-%Y').date()` and
 * `date.strftime('%d-%m-%Y')` on the proleptic Gregorian calendar.
 */
module Dates {
  import opened Wrappers
  import opened Strings

  datatype Date = Date(day: int, month: int, year: int)

  predicate IsLeapYear(y: int) {
    y % 4 == 0 && (y % 100 != 0 || y % 400 == 0)
  }

  function DaysInMonth(y: int, m: int): (n: int)
    requires 1 <= m <= 12
    ensures 28 <= n <= 31
    ensures n == 29 <==> m == 2 && IsLeapYear(y)
  {
    if m == 2 then (if IsLeapYear(y) then 29 else 28)
    else if m == 4 || m == 6 || m == 9 || m == 11 then 30
    else 31
  }

  /** What `datetime.date` accepts: years 1 to 9999, months 1 to 12, days within the month. */
  predicate ValidDate(d: Date) {
    1 <= d.year <= 9999 && 1 <= d.month <= 12 && 1 <= d.day <= DaysInMonth(d.year, d.month)
  }

  /** `%d`: one or two digits worth 1 to 31, or a space before a single non-zero digit. */
  function DayField(f: string): (r: Option<int>)
    ensures r.Some? ==> 1 <= r.value <= 31
  {
    if |f| == 2 && f[0] == ' ' && IsDigit(f[1]) && f[1] != '0' then Some(DigitValue(f[1]))
    else if 1 <= |f| <= 2 && AllDigits(f) && 1 <= DigitsValue(f) <= 31 then Some(DigitsValue(f))
    else None
  }

  /** `%m`: one or two digits worth 1 to 12. */
  function MonthField(f: string): (r: Option<int>)
    ensures r.Some? ==> 1 <= r.value <= 12
  {
    if 1 <= |f| <= 2 && AllDigits(f) && 1 <= DigitsValue(f) <= 12 then Some(DigitsValue(f)) else None
  }

  /** `%Y`: exactly four digits. */
  function YearField(f: string): (r: Option<int>)
    ensures r.Some? <==> |f| == 4 && AllDigits(f)
    ensures r.Some? ==> 0 <= r.value <= 9999 && f == ZeroPad(r.value, 4)
  {
    if |f| == 4 && AllDigits(f) then
      FourDigits(f);
      ZeroPadOfDigits(f);
      Some(DigitsValue(f))
    else None
  }

  /**
   * `strptime(text, '%d-%m-%Y')` followed by `.date()`. The three fields are
   * separated by the literal dashes and none of them can hold a dash, so the
   * text must split into exactly three pieces; any other shape, a field out of
   * range, year 0 or a day past the end of its month is a ValueError, here None.
   */
  function ParseDate(s: string): (r: Option<Date>)
    ensures r.Some? ==> ValidDate(r.value)
  {
    var fields := SplitOn(s, '-');
    if |fields| != 3 then None
    else match (DayField(fields[0]), MonthField(fields[1]), YearField(fields[2]))
      case (Some(d), Some(m), Some(y)) =>
        if 1 <= y && d <= DaysInMonth(y, m) then Some(Date(d, m, y)) else None
      case _ => None
  }

  /** `date.strftime('%d-%m-%Y')`: two-digit day and month, four-digit year. */
  function FormatDate(d: Date): (r: string)
    requires ValidDate(d)
    ensures |r| == 10 && r[2] == '-' && r[5] == '-'
  {
    ZeroPad(d.day, 2) + "-" + ZeroPad(d.month, 2) + "-" + ZeroPad(d.year, 4)
  }

  /** The spellings `%d` accepts for day `n`. */
  function DaySpellings(n: int): set<string>
    requires 1 <= n <= 31
  {
    {ZeroPad(n, 2)} + if n <= 9 then {[DigitChar(n)], [' ', DigitChar(n)]} else {}
  }

  /** The spellings `%m` accepts for month `n`. */
  function MonthSpellings(n: int): set<string>
    requires 1 <= n <= 12
  {
    {ZeroPad(n, 2)} + if n <= 9 then {[DigitChar(n)]} else {}
  }

  /** The text of a date: day spelling, dash, month spelling, dash, four-digit year. */
  function DateText(ds: string, ms: string, y: nat): string
    requires y < 10000
  {
    ds + "-" + ms + "-" + ZeroPad(y, 4)
  }

  lemma SplitDateText(ds: string, ms: string, y: nat)
    requires y < 10000
    requires '-' !in ds && '-' !in ms
    ensures SplitOn(DateText(ds, ms, y), '-') == [ds, ms, ZeroPad(y, 4)]
  {
    var ys := ZeroPad(y, 4);
    assert '-' !in ys;
    SplitFields(ds, ms, ys);
  }

  lemma DayFieldSpelled(n: int, ds: string)
    requires 1 <= n <= 31 && ds in DaySpellings(n)
    ensures '-' !in ds && DayField(ds) == Some(n)
  {
    if |ds| == 1 {
      assert ds == [ds[0]];
      assert DigitsValue(ds) == DigitsValue([]) * 10 + DigitValue(ds[0]);
    }
  }

  lemma MonthFieldSpelled(n: int, ms: string)
    requires 1 <= n <= 12 && ms in MonthSpellings(n)
    ensures '-' !in ms && MonthField(ms) == Some(n)
  {
    if |ms| == 1 {
      assert ms == [ms[0]];
      assert DigitsValue(ms) == DigitsValue([]) * 10 + DigitValue(ms[0]);
    }
  }

  /** Every year from 0 to 9999, written with four digits, is accepted by `%Y` as itself. */
  lemma YearFieldSpelled(y: int)
    requires 0 <= y <= 9999
    ensures YearField(ZeroPad(y, 4)) == Some(y)
  {
    var ys := ZeroPad(y, 4);
    assert |ys| == 4 && AllDigits(ys);
  }

  lemma DayFieldOnlySpelled(f: string)
    requires DayField(f).Some?
    ensures f in DaySpellings(DayField(f).value)
  {
    if |f| == 2 && f[0] == ' ' && IsDigit(f[1]) && f[1] != '0' {
      assert f == [' ', DigitChar(DigitValue(f[1]))];
    } else if |f| == 1 {
      assert DigitsValue(f) == DigitsValue([]) * 10 + DigitValue(f[0]);
      assert f == [DigitChar(DigitsValue(f))];
    } else {
      ZeroPadOfDigits(f);
    }
  }

  lemma MonthFieldOnlySpelled(f: string)
    requires MonthField(f).Some?
    ensures f in MonthSpellings(MonthField(f).value)
  {
    if |f| == 1 {
      assert DigitsValue(f) == DigitsValue([]) * 10 + DigitValue(f[0]);
      assert f == [DigitChar(DigitsValue(f))];
    } else {
      ZeroPadOfDigits(f);
    }
  }

  /** Every accepted spelling of a valid date parses to that date. */
  lemma {:induction false} ParseDateAccepts(d: Date, ds: string, ms: string)
    requires ValidDate(d)
    requires ds in DaySpellings(d.day) && ms in MonthSpellings(d.month)
    ensures ParseDate(DateText(ds, ms, d.year)) == Some(d)
  {
    DayFieldSpelled(d.day, ds);
    MonthFieldSpelled(d.month, ms);
    SplitDateText(ds, ms, d.year);
    var ys := ZeroPad(d.year, 4);
    ZeroPadOfDigits(ys);
    assert YearField(ys) == Some(d.year);
  }

  /** Nothing but an accepted spelling of a valid date parses. */
  lemma {:induction false} ParseDateOnlySpelled(s: string)
    requires ParseDate(s).Some?
    ensures var d := ParseDate(s).value;
      exists ds, ms :: ds in DaySpellings(d.day) && ms in MonthSpellings(d.month) && s == DateText(ds, ms, d.year)
  {
    var d := ParseDate(s).value;
    var fields := SplitOn(s, '-');
    DayFieldOnlySpelled(fields[0]);
    MonthFieldOnlySpelled(fields[1]);
    ZeroPadOfDigits(fields[2]);
    JoinSplitOn(s, '-');
    assert fields == [fields[0], fields[1], fields[2]];
    Join3(fields[0], fields[1], fields[2], '-');
    assert s == DateText(fields[0], fields[1], d.year);
  }

  /** The normal form `strftime` writes parses back to the same date. */
  lemma ParseFormatDate(d: Date)
    requires ValidDate(d)
    ensures ParseDate(FormatDate(d)) == Some(d)
  {
    ParseDateAccepts(d, ZeroPad(d.day, 2), ZeroPad(d.month, 2));
  }

  /**
   * Normalising is idempotent: re-parsing the stored `dd-mm-yyyy` text gives the
   * same date, and formatting that again gives the same text.
   */
  lemma NormalizeIdempotent(s: string)
    requires ParseDate(s).Some?
    ensures var t := FormatDate(ParseDate(s).value);
      ParseDate(t) == ParseDate(s) && FormatDate(ParseDate(t).value) == t
  {
    ParseFormatDate(ParseDate(s).value);
  }

  /** Text in the normal form the bot stores as `delivery_date`. */
  predicate IsNormalDate(t: string) {
    ParseDate(t).Some? && FormatDate(ParseDate(t).value) == t
  }

  lemma FormatDateIsNormal(d: Date)
    requires ValidDate(d)
    ensures IsNormalDate(FormatDate(d))
  {
    ParseFormatDate(d);
  }

  lemma SplitFields(ds: string, ms: string, ys: string)
    requires '-' !in ds && '-' !in ms && '-' !in ys
    ensures SplitOn(ds + "-" + ms + "-" + ys, '-') == [ds, ms, ys]
  {
    SplitOnJoin([ds, ms, ys], '-');
    Join3(ds, ms, ys, '-');
  }

  lemma TwoDigits(f: string)
    requires |f| == 2 && AllDigits(f)
    ensures DigitsValue(f) == 10 * DigitValue(f[0]) + DigitValue(f[1])
  {
    var f1 := f[..1];
    assert f1[..0] == [] && f1[0] == f[0];
    assert DigitsValue(f1) == DigitValue(f[0]);
  }

  lemma FourDigits(f: string)
    requires |f| == 4 && AllDigits(f)
    ensures DigitsValue(f) == 1000 * DigitValue(f[0]) + 100 * DigitValue(f[1]) + 10 * DigitValue(f[2]) + DigitValue(f[3])
  {
    var f3 := f[..3];
    assert f3[..2] == f[..2] && f3[2] == f[2];
    TwoDigits(f[..2]);
  }

  /** The parse of a `dd-mm-yyyy` text with all fields of full width, computed field by field. */
  lemma ParseFullWidth(s: string)
    requires |s| == 10 && s[2] == '-' && s[5] == '-'
    requires AllDigits(s[..2]) && AllDigits(s[3..5]) && AllDigits(s[6..])
    ensures var d, m, y := DigitsValue(s[..2]), DigitsValue(s[3..5]), DigitsValue(s[6..]);
      ParseDate(s) == if 1 <= d <= 31 && 1 <= m <= 12 && 1 <= y && d <= DaysInMonth(y, m)
                      then Some(Date(d, m, y)) else None
  {
    assert s == s[..2] + "-" + s[3..5] + "-" + s[6..];
    SplitFields(s[..2], s[3..5], s[6..]);
  }

  /** The parse of a `dd-mm-yyyy` text with all fields of full width, from the values of its digits. */
  lemma ParseFullWidthDigits(s: string, d: int, m: int, y: int)
    requires |s| == 10 && s[2] == '-' && s[5] == '-'
    requires IsDigit(s[0]) && IsDigit(s[1]) && IsDigit(s[3]) && IsDigit(s[4])
    requires IsDigit(s[6]) && IsDigit(s[7]) && IsDigit(s[8]) && IsDigit(s[9])
    requires d == 10 * DigitValue(s[0]) + DigitValue(s[1])
    requires m == 10 * DigitValue(s[3]) + DigitValue(s[4])
    requires y == 1000 * DigitValue(s[6]) + 100 * DigitValue(s[7]) + 10 * DigitValue(s[8]) + DigitValue(s[9])
    ensures ParseDate(s) == if 1 <= d <= 31 && 1 <= m <= 12 && 1 <= y && d <= DaysInMonth(y, m)
                            then Some(Date(d, m, y)) else None
  {
    ParseFullWidth(s);
    TwoDigits(s[..2]);
    TwoDigits(s[3..5]);
    FourDigits(s[6..]);
  }

  /** The text `strftime` writes for a date, given the digits of its fields. */
  lemma FormatDateDigits(d: Date, s: string)
    requires ValidDate(d)
    requires |s| == 10 && s[2] == '-' && s[5] == '-'
    requires IsDigit(s[0]) && IsDigit(s[1]) && IsDigit(s[3]) && IsDigit(s[4])
    requires IsDigit(s[6]) && IsDigit(s[7]) && IsDigit(s[8]) && IsDigit(s[9])
    requires d.day == 10 * DigitValue(s[0]) + DigitValue(s[1])
    requires d.month == 10 * DigitValue(s[3]) + DigitValue(s[4])
    requires d.year == 1000 * DigitValue(s[6]) + 100 * DigitValue(s[7]) + 10 * DigitValue(s[8]) + DigitValue(s[9])
    ensures FormatDate(d) == s
  {
    TwoDigitPad(s[0], s[1], d.day);
    TwoDigitPad(s[3], s[4], d.month);
    FourDigitPad(s[6], s[7], s[8], s[9], d.year);
    DateTextFields(s);
    FormatDateFields(d, [s[0], s[1]], [s[3], s[4]], [s[6], s[7], s[8], s[9]]);
  }

  lemma FormatDateFields(d: Date, ds: string, ms: string, ys: string)
    requires ValidDate(d)
    requires ZeroPad(d.day, 2) == ds && ZeroPad(d.month, 2) == ms && ZeroPad(d.year, 4) == ys
    ensures FormatDate(d) == ds + "-" + ms + "-" + ys
  {
  }

  lemma DateTextFields(s: string)
    requires |s| == 10 && s[2] == '-' && s[5] == '-'
    ensures s == [s[0], s[1]] + "-" + [s[3], s[4]] + "-" + [s[6], s[7], s[8], s[9]]
  {
  }

  lemma TwoDigitPad(c0: char, c1: char, v: int)
    requires IsDigit(c0) && IsDigit(c1)
    requires v == 10 * DigitValue(c0) + DigitValue(c1)
    ensures 0 <= v < Pow10(2) && ZeroPad(v, 2) == [c0, c1]
  {
    var f := [c0, c1];
    TwoDigits(f);
    ZeroPadOfDigits(f);
  }

  lemma FourDigitPad(c0: char, c1: char, c2: char, c3: char, v: int)
    requires IsDigit(c0) && IsDigit(c1) && IsDigit(c2) && IsDigit(c3)
    requires v == 1000 * DigitValue(c0) + 100 * DigitValue(c1) + 10 * DigitValue(c2) + DigitValue(c3)
    ensures 0 <= v < Pow10(4) && ZeroPad(v, 4) == [c0, c1, c2, c3]
  {
    var f := [c0, c1, c2, c3];
    FourDigits(f);
    ZeroPadOfDigits(f);
  }
}
