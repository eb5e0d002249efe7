/**
  Calendar dates as `pd.to_datetime(..., errors='coerce')` reads them from the
  three textual layouts of the tool's test data (`MM/DD/YYYY`, `YYYY-MM-DD`,
  `MM-DD-YYYY`), their `strftime('%Y-%m-%d')` rendering, and the year-month
  period `to_period('M')` derives from them.
 */
module Dates {
  import opened Optional

  datatype Date = Date(year: int, month: int, day: int)

  /** A calendar month: the `Monat` period used as a grouping key. */
  datatype YearMonth = YearMonth(year: int, month: int)

  function MonthOf(d: Date): YearMonth {
    YearMonth(d.year, d.month)
  }

  predicate IsLeapYear(y: int) {
    y % 4 == 0 && (y % 100 != 0 || y % 400 == 0)
  }

  function DaysInMonth(y: int, m: int): int
    requires 1 <= m <= 12
  {
    if m == 2 then (if IsLeapYear(y) then 29 else 28)
    else if m == 4 || m == 6 || m == 9 || m == 11 then 30
    else 31
  }

  predicate Before(a: Date, b: Date) {
    a.year < b.year
    || (a.year == b.year && (a.month < b.month || (a.month == b.month && a.day < b.day)))
  }

  /** The first and last calendar day a nanosecond timestamp can hold;
      outside them the coercing parser yields NaT. */
  const FirstTimestampDay := Date(1677, 9, 22)
  const LastTimestampDay := Date(2262, 4, 11)

  /** A real calendar day inside the timestamp range. */
  predicate IsValid(d: Date) {
    && 1 <= d.month <= 12
    && 1 <= d.day <= DaysInMonth(d.year, d.month)
    && !Before(d, FirstTimestampDay)
    && !Before(LastTimestampDay, d)
  }

  predicate IsDigit(c: char) {
    '0' <= c <= '9'
  }

  predicate AllDigits(s: string) {
    forall i | 0 <= i < |s| :: IsDigit(s[i])
  }

  function Pow10(n: nat): nat {
    if n == 0 then 1 else 10 * Pow10(n - 1)
  }

  /** The number a string of decimal digits spells, most significant first. */
  function NumberValue(s: string): nat
    requires AllDigits(s)
  {
    if s == [] then 0 else NumberValue(s[..|s| - 1]) * 10 + (s[|s| - 1] as int - '0' as int)
  }

  /** `n` in exactly `width` decimal digits, zero-padded on the left. */
  function Padded(n: nat, width: nat): (s: string)
    ensures |s| == width && AllDigits(s)
  {
    if width == 0 then [] else Padded(n / 10, width - 1) + [('0' as int + n % 10) as char]
  }

  lemma {:induction false} PaddedRoundTrip(n: nat, width: nat)
    requires n < Pow10(width)
    ensures NumberValue(Padded(n, width)) == n
  {
    if width > 0 {
      PaddedRoundTrip(n / 10, width - 1);
      var s := Padded(n, width);
      assert s[..|s| - 1] == Padded(n / 10, width - 1);
    }
  }

  /** The date fields a string spells in one of the three recognised layouts,
      before any calendar check. */
  function Fields(s: string): Option<Date> {
    if |s| != 10 then None
    else if s[4] == '-' && s[7] == '-'
            && AllDigits(s[..4]) && AllDigits(s[5..7]) && AllDigits(s[8..]) then
      Some(Date(NumberValue(s[..4]), NumberValue(s[5..7]), NumberValue(s[8..])))
    else if ((s[2] == '/' && s[5] == '/') || (s[2] == '-' && s[5] == '-'))
            && AllDigits(s[..2]) && AllDigits(s[3..5]) && AllDigits(s[6..]) then
      Some(Date(NumberValue(s[6..]), NumberValue(s[..2]), NumberValue(s[3..5])))
    else None
  }

  /** `pd.to_datetime(s, errors='coerce')`: a day, or None for NaT. */
  function ParseDate(s: string): (r: Option<Date>)
    ensures r.Some? ==> IsValid(r.value)
    ensures r.Some? ==> Fields(s) == r
    ensures Fields(s).Some? && IsValid(Fields(s).value) ==> r.Some?
  {
    var f := Fields(s);
    if f.Some? && IsValid(f.value) then f else None
  }

  /** `strftime('%Y-%m-%d')`. */
  function Format(d: Date): (s: string)
    requires IsValid(d)
    ensures |s| == 10 && s[4] == '-' && s[7] == '-'
  {
    Padded(d.year, 4) + "-" + Padded(d.month, 2) + "-" + Padded(d.day, 2)
  }

  /** Every day the parser can yield is read back from its own rendering. */
  lemma FormatRoundTrip(d: Date)
    requires IsValid(d)
    ensures ParseDate(Format(d)) == Some(d)
  {
    var s := Format(d);
    assert Pow10(2) == 100 && Pow10(4) == 10000;
    PaddedRoundTrip(d.year, 4);
    PaddedRoundTrip(d.month, 2);
    PaddedRoundTrip(d.day, 2);
    assert s[..4] == Padded(d.year, 4);
    assert s[5..7] == Padded(d.month, 2);
    assert s[8..] == Padded(d.day, 2);
  }

  /** A day written month first, as `MM/DD/YYYY` (`sep` is '/') or `MM-DD-YYYY` (`sep` is '-'). */
  function MonthFirst(d: Date, sep: char): string
    requires IsValid(d)
  {
    Padded(d.month, 2) + [sep] + Padded(d.day, 2) + [sep] + Padded(d.year, 4)
  }

  /** Every valid day written in either month-first layout is read as that day. */
  lemma MonthFirstRoundTrip(d: Date, sep: char)
    requires IsValid(d)
    requires sep == '/' || sep == '-'
    ensures ParseDate(MonthFirst(d, sep)) == Some(d)
  {
    var s := MonthFirst(d, sep);
    assert Pow10(2) == 100 && Pow10(4) == 10000;
    PaddedRoundTrip(d.year, 4);
    PaddedRoundTrip(d.month, 2);
    PaddedRoundTrip(d.day, 2);
    assert s[..2] == Padded(d.month, 2);
    assert s[3..5] == Padded(d.day, 2);
    assert s[6..] == Padded(d.year, 4);
    assert IsDigit(s[4]) by { assert s[4] == Padded(d.day, 2)[1]; }
  }

  /** A string of digits is the zero-padded rendering of the number it spells. */
  lemma {:induction false} PaddedOfDigits(s: string)
    requires AllDigits(s)
    ensures Padded(NumberValue(s), |s|) == s
  {
    if s != [] {
      var init, c := s[..|s| - 1], s[|s| - 1];
      assert AllDigits(init) by { assert forall i | 0 <= i < |init| :: init[i] == s[i]; }
      PaddedOfDigits(init);
      var n := NumberValue(s);
      var digit := c as int - '0' as int;
      assert 0 <= digit < 10 by { assert IsDigit(s[|s| - 1]); }
      assert n == NumberValue(init) * 10 + digit;
      assert n / 10 == NumberValue(init);
      assert n % 10 == digit;
      assert s == init + [c];
    }
  }

  /** A string read as a day is one of that day's three renderings: the parser
      accepts nothing else. */
  lemma ParseDateSound(s: string, d: Date)
    requires ParseDate(s) == Some(d)
    ensures s == Format(d) || s == MonthFirst(d, '/') || s == MonthFirst(d, '-')
  {
    if s[4] == '-' && s[7] == '-' && AllDigits(s[..4]) && AllDigits(s[5..7]) && AllDigits(s[8..]) {
      PaddedOfDigits(s[..4]);
      PaddedOfDigits(s[5..7]);
      PaddedOfDigits(s[8..]);
      assert s == s[..4] + "-" + s[5..7] + "-" + s[8..];
    } else {
      PaddedOfDigits(s[..2]);
      PaddedOfDigits(s[3..5]);
      PaddedOfDigits(s[6..]);
      assert s == s[..2] + [s[2]] + s[3..5] + [s[5]] + s[6..];
    }
  }

  /** A date string in canonical form: it parses, and renders back to itself. */
  predicate IsCanonical(s: string) {
    ParseDate(s).Some? && Format(ParseDate(s).value) == s
  }

  lemma FormatIsCanonical(d: Date)
    requires IsValid(d)
    ensures IsCanonical(Format(d))
  {
    FormatRoundTrip(d);
  }

  /** Two canonical strings naming the same day are the same string. */
  lemma CanonicalIsUnique(s: string, u: string)
    requires IsCanonical(s) && IsCanonical(u)
    requires ParseDate(s) == ParseDate(u)
    ensures s == u
  {
  }

  lemma NumberValueExamples()
    ensures NumberValue("2024") == 2024 && NumberValue("01") == 1
    ensures NumberValue("25") == 25 && NumberValue("26") == 26 && NumberValue("27") == 27
  {
    assert "2024"[..3] == "202" && "202"[..2] == "20" && "20"[..1] == "2" && "2"[..0] == "";
    assert "01"[..1] == "0" && "0"[..0] == "";
    assert "25"[..1] == "2" && "26"[..1] == "2" && "27"[..1] == "2";
  }

  lemma UsSlashLayoutExample()
    ensures ParseDate("01/25/2024") == Some(Date(2024, 1, 25))
  {
    NumberValueExamples();
    var s := "01/25/2024";
    assert s[6..] == "2024" && s[..2] == "01" && s[3..5] == "25";
  }

  lemma IsoLayoutExample()
    ensures ParseDate("2024-01-26") == Some(Date(2024, 1, 26))
  {
    NumberValueExamples();
    var s := "2024-01-26";
    assert s[..4] == "2024" && s[5..7] == "01" && s[8..] == "26";
  }

  lemma UsDashLayoutExample()
    ensures ParseDate("01-27-2024") == Some(Date(2024, 1, 27))
  {
    NumberValueExamples();
    var s := "01-27-2024";
    assert s[6..] == "2024" && s[..2] == "01" && s[3..5] == "27";
  }

  lemma FormatExample()
    ensures Format(Date(2024, 1, 25)) == "2024-01-25"
  {
    assert Padded(2024, 4) == "2024";
    assert Padded(1, 2) == "01";
    assert Padded(25, 2) == "25";
  }
}
