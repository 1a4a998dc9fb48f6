/**
 * Calendar dates and their ISO 8601 extended form `YYYY-MM-DD` (ISO 8601:2004
 * section 5.2.1.1), as Python's `date.fromisoformat` reads them and
 * `date.isoformat` writes them.
 */
module IsoDate {
  import opened Wrappers
  import opened Text

  datatype Date = Date(year: int, month: int, day: int)

  predicate IsLeapYear(y: int) {
    y % 4 == 0 && (y % 100 != 0 || y % 400 == 0)
  }

  function DaysInMonth(y: int, m: int): int
    requires 1 <= m <= 12
  {
    if m == 2 then (if IsLeapYear(y) then 29 else 28)
    else if m == 4 || m == 6 || m == 9 || m == 11 then 30
    else 31
  }

  /** The dates Python's `date` accepts: years 1 to 9999 of the proleptic Gregorian calendar. */
  predicate ValidDate(d: Date) {
    1 <= d.year <= 9999 && 1 <= d.month <= 12 && 1 <= d.day <= DaysInMonth(d.year, d.month)
  }

  /** `a <= b` on dates: year, then month, then day. */
  predicate DateLeq(a: Date, b: Date) {
    a.year < b.year || (a.year == b.year && (a.month < b.month || (a.month == b.month && a.day <= b.day)))
  }

  function Pow10(n: nat): nat {
    if n == 0 then 1 else 10 * Pow10(n - 1)
  }

  /** The last `width` decimal digits of `n`, zero-padded. */
  function Digits(n: nat, width: nat): (s: string)
    ensures |s| == width && AllDigits(s)
  {
    if width == 0 then "" else Digits(n / 10, width - 1) + [DigitChar(n % 10)]
  }

  lemma {:induction false} ValueOfDigits(n: nat, width: nat)
    requires n < Pow10(width)
    ensures DigitsValue(Digits(n, width)) == n
  {
    if width > 0 {
      var s := Digits(n, width);
      assert s[..|s| - 1] == Digits(n / 10, width - 1);
      ValueOfDigits(n / 10, width - 1);
    }
  }

  lemma {:induction false} DigitsOfValue(s: string)
    requires AllDigits(s)
    ensures DigitsValue(s) < Pow10(|s|)
    ensures Digits(DigitsValue(s), |s|) == s
  {
    if s != [] {
      var p := s[..|s| - 1];
      DigitsOfValue(p);
      var d := s[|s| - 1] as int - '0' as int;
      assert DigitsValue(s) / 10 == DigitsValue(p) && DigitsValue(s) % 10 == d;
      assert s == p + [s[|s| - 1]];
    }
  }

  /** `date.isoformat()`. */
  function FormatIsoDate(d: Date): (s: string)
    requires ValidDate(d)
    ensures |s| == 10
  {
    Digits(d.year, 4) + "-" + Digits(d.month, 2) + "-" + Digits(d.day, 2)
  }

  /** The shape `DDDD-DD-DD`. */
  predicate IsoShape(s: string) {
    |s| == 10 && s[4] == '-' && s[7] == '-'
    && AllDigits(s[..4]) && AllDigits(s[5..7]) && AllDigits(s[8..])
  }

  /**
   * `date.fromisoformat(s)`: the date written in `s`, or None where Python
   * raises ValueError (wrong shape, or no such date).
   */
  function ParseIsoDate(s: string): Option<Date> {
    if IsoShape(s) then
      var d := Date(DigitsValue(s[..4]), DigitsValue(s[5..7]), DigitsValue(s[8..]));
      if ValidDate(d) then Some(d) else None
    else None
  }

  /** A string that parses is the ISO form of the valid date it parses to. */
  lemma FormatParse(s: string)
    ensures ParseIsoDate(s).Some? ==> ValidDate(ParseIsoDate(s).value) && FormatIsoDate(ParseIsoDate(s).value) == s
  {
    if ParseIsoDate(s).Some? {
      FormatOfShape(s);
    }
  }

  lemma FormatOfShape(s: string)
    requires IsoShape(s)
    requires ValidDate(Date(DigitsValue(s[..4]), DigitsValue(s[5..7]), DigitsValue(s[8..])))
    ensures FormatIsoDate(Date(DigitsValue(s[..4]), DigitsValue(s[5..7]), DigitsValue(s[8..]))) == s
  {
    DigitsOfValue(s[..4]);
    DigitsOfValue(s[5..7]);
    DigitsOfValue(s[8..]);
    assert s == s[..4] + "-" + s[5..7] + "-" + s[8..];
  }

  /** Every valid date reads back from its ISO form. */
  lemma {:induction false} ParseFormat(d: Date)
    requires ValidDate(d)
    ensures ParseIsoDate(FormatIsoDate(d)) == Some(d)
  {
    var s := FormatIsoDate(d);
    assert s[..4] == Digits(d.year, 4);
    assert s[5..7] == Digits(d.month, 2);
    assert s[8..] == Digits(d.day, 2);
    ValueOfDigits(d.year, 4);
    ValueOfDigits(d.month, 2);
    ValueOfDigits(d.day, 2);
  }
}
