/** Calendar dates and CPython's `datetime.strptime(value, "%Y-%m-%d")`.

    CPython compiles the format into the regular expression
    `(?P<Y>\d\d\d\d)-(?P<m>1[0-2]|0[1-9]|[1-9])-(?P<d>3[01]|[12]\d|0[1-9]|[1-9]| [1-9])`,
    matches it at the start of the string, raises `ValueError` when characters remain
    after the match ("unconverted data remains"), and then raises again when the
    fields do not form a real date (year 0, February 30, ...). `ParseYmd` follows
    those steps; `None` stands for the `ValueError`. */
module Dates {
  import opened Wrappers

  datatype Date = Date(year: int, month: int, day: int)

  predicate IsLeapYear(y: int) {
    (y % 4 == 0 && y % 100 != 0) || y % 400 == 0
  }

  function DaysInMonth(y: int, m: int): (n: int)
    requires 1 <= m <= 12
    ensures 28 <= n <= 31
    ensures m == 2 ==> (n == 29 <==> IsLeapYear(y))
  {
    if m == 2 then (if IsLeapYear(y) then 29 else 28)
    else if m == 4 || m == 6 || m == 9 || m == 11 then 30
    else 31
  }

  /** A date Python's `datetime.date` accepts: years 1 (MINYEAR) to 9999 (MAXYEAR). */
  predicate ValidDate(d: Date) {
    && 1 <= d.year <= 9999
    && 1 <= d.month <= 12
    && 1 <= d.day <= DaysInMonth(d.year, d.month)
  }

  predicate IsDigit(c: char) { '0' <= c <= '9' }

  predicate IsNonZeroDigit(c: char) { '1' <= c <= '9' }

  function DigitValue(c: char): (n: int)
    requires IsDigit(c)
    ensures 0 <= n <= 9
  {
    c as int - '0' as int
  }

  function DigitChar(n: int): (c: char)
    requires 0 <= n <= 9
    ensures IsDigit(c) && DigitValue(c) == n
  {
    ('0' as int + n) as char
  }

  /** The `%m` group together with the `-` that follows it, starting at index `i`.
      Returns the month and the index just past the `-`. The regular expression
      backtracks between its alternatives until the `-` matches, so a two-digit month
      is taken only when a `-` follows its second digit. */
  function MonthThenDash(s: string, i: nat): (r: Option<(int, nat)>)
    ensures r.Some? ==> 1 <= r.value.0 <= 12 && i + 2 <= r.value.1 <= i + 3 && r.value.1 <= |s|
    // a month is one or two digits read as a number, followed by the `-`
    ensures r.Some? ==>
              || (r.value.1 == i + 3 && IsDigit(s[i]) && IsDigit(s[i + 1]) && s[i + 2] == '-'
                  && r.value.0 == 10 * DigitValue(s[i]) + DigitValue(s[i + 1]))
              || (r.value.1 == i + 2 && IsDigit(s[i]) && s[i + 1] == '-' && r.value.0 == DigitValue(s[i]))
    // and every such reading of a month from 1 to 12 is found
    ensures i + 2 < |s| && IsDigit(s[i]) && IsDigit(s[i + 1]) && s[i + 2] == '-'
            && 1 <= 10 * DigitValue(s[i]) + DigitValue(s[i + 1]) <= 12
            ==> r == Some((10 * DigitValue(s[i]) + DigitValue(s[i + 1]), i + 3))
    ensures i + 1 < |s| && IsNonZeroDigit(s[i]) && s[i + 1] == '-' ==> r == Some((DigitValue(s[i]), i + 2))
  {
    if i + 2 < |s| && s[i] == '1' && '0' <= s[i + 1] <= '2' && s[i + 2] == '-' then
      Some((10 + DigitValue(s[i + 1]), i + 3))
    else if i + 2 < |s| && s[i] == '0' && IsNonZeroDigit(s[i + 1]) && s[i + 2] == '-' then
      Some((DigitValue(s[i + 1]), i + 3))
    else if i + 1 < |s| && IsNonZeroDigit(s[i]) && s[i + 1] == '-' then
      Some((DigitValue(s[i]), i + 2))
    else
      None
  }

  /** The `%d` group starting at index `i`: the first alternative that matches wins,
      since nothing follows the group in the expression. Returns the day and the index
      just past the match. */
  function DayAt(s: string, i: nat): (r: Option<(int, nat)>)
    ensures r.Some? ==> 1 <= r.value.0 <= 31 && i + 1 <= r.value.1 <= i + 2 && r.value.1 <= |s|
    // a day is two digits, one digit, or a space and one digit, read as a number
    ensures r.Some? ==>
              || (r.value.1 == i + 2 && IsDigit(s[i]) && IsDigit(s[i + 1])
                  && r.value.0 == 10 * DigitValue(s[i]) + DigitValue(s[i + 1]))
              || (r.value.1 == i + 1 && IsDigit(s[i]) && r.value.0 == DigitValue(s[i]))
              || (r.value.1 == i + 2 && s[i] == ' ' && IsDigit(s[i + 1]) && r.value.0 == DigitValue(s[i + 1]))
    // two digits are taken whenever they spell a day from 1 to 31
    ensures i + 1 < |s| && IsDigit(s[i]) && IsDigit(s[i + 1]) && 1 <= 10 * DigitValue(s[i]) + DigitValue(s[i + 1]) <= 31
            ==> r == Some((10 * DigitValue(s[i]) + DigitValue(s[i + 1]), i + 2))
    // otherwise a single non-zero digit is taken
    ensures i < |s| && IsNonZeroDigit(s[i])
            && (i + 1 == |s| || !IsDigit(s[i + 1]) || 10 * DigitValue(s[i]) + DigitValue(s[i + 1]) > 31)
            ==> r == Some((DigitValue(s[i]), i + 1))
    ensures i + 1 < |s| && s[i] == ' ' && IsNonZeroDigit(s[i + 1]) ==> r == Some((DigitValue(s[i + 1]), i + 2))
  {
    if i + 1 < |s| && s[i] == '3' && (s[i + 1] == '0' || s[i + 1] == '1') then
      Some((30 + DigitValue(s[i + 1]), i + 2))
    else if i + 1 < |s| && (s[i] == '1' || s[i] == '2') && IsDigit(s[i + 1]) then
      Some((10 * DigitValue(s[i]) + DigitValue(s[i + 1]), i + 2))
    else if i + 1 < |s| && s[i] == '0' && IsNonZeroDigit(s[i + 1]) then
      Some((DigitValue(s[i + 1]), i + 2))
    else if i < |s| && IsNonZeroDigit(s[i]) then
      Some((DigitValue(s[i]), i + 1))
    else if i + 1 < |s| && s[i] == ' ' && IsNonZeroDigit(s[i + 1]) then
      Some((DigitValue(s[i + 1]), i + 2))
    else
      None
  }

  /** `datetime.strptime(s, "%Y-%m-%d").date()`; `None` where CPython raises `ValueError`. */
  function ParseYmd(s: string): (r: Option<Date>)
    ensures r.Some? ==> ValidDate(r.value)
    ensures r.Some? ==> 8 <= |s| <= 10 && s[4] == '-'
    // the year is the four leading digits
    ensures r.Some? ==>
              && IsDigit(s[0]) && IsDigit(s[1]) && IsDigit(s[2]) && IsDigit(s[3])
              && r.value.year == 1000 * DigitValue(s[0]) + 100 * DigitValue(s[1]) + 10 * DigitValue(s[2]) + DigitValue(s[3])
    // the month is read after the `-`, and the day after the next `-` runs to the end
    ensures r.Some? ==>
              && MonthThenDash(s, 5).Some? && r.value.month == MonthThenDash(s, 5).value.0
              && DayAt(s, MonthThenDash(s, 5).value.1) == Some((r.value.day, |s|))
  {
    if |s| < 5 || !(IsDigit(s[0]) && IsDigit(s[1]) && IsDigit(s[2]) && IsDigit(s[3])) || s[4] != '-' then
      None
    else
      var year := 1000 * DigitValue(s[0]) + 100 * DigitValue(s[1]) + 10 * DigitValue(s[2]) + DigitValue(s[3]);
      match MonthThenDash(s, 5)
      case None => None
      case Some((month, p)) =>
        match DayAt(s, p)
        case None => None
        case Some((day, q)) =>
          var d := Date(year, month, day);
          if q == |s| && ValidDate(d) then Some(d) else None
  }

  /** The forms `%Y-%m-%d` accepts besides the canonical one: a one-digit month before a
      two-digit day, and a day padded with a space. A day past the month's end is
      refused. */
  lemma ParseYmdForms()
    ensures ParseYmd("2021-1-12") == Some(Date(2021, 1, 12))
    ensures ParseYmd("2021-06- 5") == Some(Date(2021, 6, 5))
    ensures ParseYmd("2021-02-29") == None
  {
    assert MonthThenDash("2021-1-12", 5) == Some((1, 7));
    assert DayAt("2021-1-12", 7) == Some((12, 9));
    assert MonthThenDash("2021-06- 5", 5) == Some((6, 8));
    assert DayAt("2021-06- 5", 8) == Some((5, 10));
    assert MonthThenDash("2021-02-29", 5) == Some((2, 8));
    assert DayAt("2021-02-29", 8) == Some((29, 10));
    assert !IsLeapYear(2021);
  }

  /** `date.isoformat()`: the canonical `YYYY-MM-DD` text of a date, every field
      zero-padded. */
  function IsoFormat(d: Date): (s: string)
    requires ValidDate(d)
    ensures |s| == 10 && s[4] == '-' && s[7] == '-'
    ensures forall k :: 0 <= k < 10 && k != 4 && k != 7 ==> IsDigit(s[k])
  {
    var y, m, dd := d.year, d.month, d.day;
    [DigitChar(y / 1000), DigitChar(y / 100 % 10), DigitChar(y / 10 % 10), DigitChar(y % 10), '-',
     DigitChar(m / 10), DigitChar(m % 10), '-', DigitChar(dd / 10), DigitChar(dd % 10)]
  }

  /** Division by a power of ten splits off the lower digits. */
  lemma SplitLow(n: int, hi: int, lo: int, k: int)
    requires k == 10 || k == 100 || k == 1000
    requires 0 <= lo < k && n == k * hi + lo
    ensures n / k == hi && n % k == lo
  {
  }

  /** Reading a four-digit number: the digits of `1000a + 100b + 10c + e`. */
  lemma ReadFour(y: int, a: int, b: int, c: int, e: int)
    requires 0 <= a <= 9 && 0 <= b <= 9 && 0 <= c <= 9 && 0 <= e <= 9
    requires y == 1000 * a + 100 * b + 10 * c + e
    ensures y / 1000 == a && y / 100 % 10 == b && y / 10 % 10 == c && y % 10 == e
  {
    SplitLow(y, a, 100 * b + 10 * c + e, 1000);
    SplitLow(y, 10 * a + b, 10 * c + e, 100);
    SplitLow(10 * a + b, a, b, 10);
    SplitLow(y, 100 * a + 10 * b + c, e, 10);
    SplitLow(100 * a + 10 * b + c, 10 * a + b, c, 10);
  }

  /** Writing a four-digit number: its digits spell it. */
  lemma SpellFour(y: int)
    requires 0 <= y <= 9999
    ensures 0 <= y / 1000 <= 9
    ensures y == 1000 * (y / 1000) + 100 * (y / 100 % 10) + 10 * (y / 10 % 10) + y % 10
  {
    var q1, q2 := y / 10, y / 100;
    assert y == 10 * q1 + y % 10;
    assert y == 100 * q2 + y % 100;
    assert q2 == q1 / 10 && y % 100 == 10 * (q1 % 10) + y % 10;
    assert q2 == 10 * (y / 1000) + q2 % 10;
  }

  /** Two decimal digits and the number they spell. */
  lemma TwoDigits(n: int, a: int, b: int)
    requires 0 <= a <= 9 && 0 <= b <= 9
    ensures n == 10 * a + b <==> (0 <= n <= 99 && n / 10 == a && n % 10 == b)
  {
  }

  lemma DigitCharOfValue(c: char)
    requires IsDigit(c)
    ensures DigitChar(DigitValue(c)) == c
  {
  }

  /** The digits of the `YYYY-MM-DD` text spell the date's fields. */
  lemma IsoFormatDigits(d: Date)
    requires ValidDate(d)
    ensures var s := IsoFormat(d);
      && 1000 * DigitValue(s[0]) + 100 * DigitValue(s[1]) + 10 * DigitValue(s[2]) + DigitValue(s[3]) == d.year
      && 10 * DigitValue(s[5]) + DigitValue(s[6]) == d.month
      && 10 * DigitValue(s[8]) + DigitValue(s[9]) == d.day
  {
    var y, m, dd := d.year, d.month, d.day;
    SpellFour(y);
    TwoDigits(m, m / 10, m % 10);
    TwoDigits(dd, dd / 10, dd % 10);
  }

  /** Round trip: the `YYYY-MM-DD` text of any date parses back to that date. */
  lemma ParseIsoFormat(d: Date)
    requires ValidDate(d)
    ensures ParseYmd(IsoFormat(d)) == Some(d)
  {
    var s := IsoFormat(d);
    IsoFormatDigits(d);
    assert MonthThenDash(s, 5) == Some((d.month, 8)) by {
      assert s[5] == '1' ==> s[6] <= '2' by {
        assert DigitValue(s[6]) <= 2 || DigitValue(s[5]) != 1;
      }
      assert s[5] == '0' ==> IsNonZeroDigit(s[6]);
    }
    assert DayAt(s, 8) == Some((d.day, 10)) by {
      assert s[8] == '3' ==> s[9] == '0' || s[9] == '1';
      assert s[8] == '0' ==> IsNonZeroDigit(s[9]);
    }
  }

  /** The fields of a ten-character string that parses, and whose day is not written
      with a leading space: four year digits, two month digits and two day digits. */
  lemma ParsedTenCharsFields(s: string)
    requires ParseYmd(s).Some? && |s| == 10 && s[8] != ' '
    ensures forall k :: 0 <= k < 10 && k != 4 && k != 7 ==> IsDigit(s[k])
    ensures s[4] == '-' && s[7] == '-'
    ensures ParseYmd(s).value.year == 1000 * DigitValue(s[0]) + 100 * DigitValue(s[1]) + 10 * DigitValue(s[2]) + DigitValue(s[3])
    ensures ParseYmd(s).value.month == 10 * DigitValue(s[5]) + DigitValue(s[6])
    ensures ParseYmd(s).value.day == 10 * DigitValue(s[8]) + DigitValue(s[9])
  {
    var m := MonthThenDash(s, 5);
    assert m.Some?;
    var dd := DayAt(s, m.value.1);
    assert dd.Some? && dd.value.1 == 10;
    assert m.value.1 == 8;
    assert dd == DayAt(s, 8);
  }

  /** The `YYYY-MM-DD` text of a date is the string holding its digits in that layout. */
  lemma IsoFormatOfDigits(s: string, d: Date)
    requires ValidDate(d) && |s| == 10 && s[4] == '-' && s[7] == '-'
    requires forall k :: 0 <= k < 10 && k != 4 && k != 7 ==> IsDigit(s[k])
    requires d.year == 1000 * DigitValue(s[0]) + 100 * DigitValue(s[1]) + 10 * DigitValue(s[2]) + DigitValue(s[3])
    requires d.month == 10 * DigitValue(s[5]) + DigitValue(s[6])
    requires d.day == 10 * DigitValue(s[8]) + DigitValue(s[9])
    ensures IsoFormat(d) == s
  {
    var t := IsoFormat(d);
    IsoFormatDigits(d);
    forall k | 0 <= k < 10
      ensures t[k] == s[k]
    {
      if k != 4 && k != 7 {
        assert DigitValue(t[k]) == DigitValue(s[k]) by {
          ReadFour(d.year, DigitValue(s[0]), DigitValue(s[1]), DigitValue(s[2]), DigitValue(s[3]));
          TwoDigits(d.month, DigitValue(s[5]), DigitValue(s[6]));
          TwoDigits(d.day, DigitValue(s[8]), DigitValue(s[9]));
        }
        DigitCharOfValue(t[k]);
        DigitCharOfValue(s[k]);
      }
    }
  }

  /** Canonical text: a ten-character string that parses, and whose day is not written
      with a leading space, is exactly the `YYYY-MM-DD` text of the date it parses to. */
  lemma ParsedTenCharsAreIso(s: string)
    requires ParseYmd(s).Some? && |s| == 10 && s[8] != ' '
    ensures IsoFormat(ParseYmd(s).value) == s
  {
    ParsedTenCharsFields(s);
    IsoFormatOfDigits(s, ParseYmd(s).value);
  }
}
