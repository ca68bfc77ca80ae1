/**
 * The DDMMYYYY wire format the backend uses for dates: `formatToApiDate`
 * (repeated verbatim in six views) and `parseApiDate`.
 */
module ApiDate {
  import opened CivilDate

  predicate IsDigit(c: char) {
    '0' <= c <= '9'
  }

  predicate AllDigits(s: string) {
    forall i :: 0 <= i < |s| ==> IsDigit(s[i])
  }

  function DigitChar(n: int): (c: char)
    requires 0 <= n <= 9
    ensures IsDigit(c)
  {
    ('0' as int + n) as char
  }

  function DigitValue(c: char): (n: int)
    requires IsDigit(c)
    ensures 0 <= n <= 9
  {
    c as int - '0' as int
  }

  /** `String(n)` for a non-negative integer: decimal digits, no leading zero. */
  function Decimal(n: nat): (s: string)
    ensures |s| >= 1 && AllDigits(s)
    ensures |s| > 1 ==> s[0] != '0'
  {
    if n < 10 then [DigitChar(n)] else Decimal(n / 10) + [DigitChar(n % 10)]
  }

  /** `String(i)` for any integer: a minus sign in front of negative values; `parseInt` reads it back. */
  function IntToString(i: int): (s: string)
    ensures i >= 0 ==> AllDigits(s) && DigitsValue(s) == i
    ensures i < 0 ==> |s| >= 2 && s[0] == '-' && AllDigits(s[1..]) && DigitsValue(s[1..]) == -i
  {
    if i < 0 then
      DigitsValueOfDecimal(-i);
      assert ("-" + Decimal(-i))[1..] == Decimal(-i);
      "-" + Decimal(-i)
    else
      DigitsValueOfDecimal(i);
      Decimal(i)
  }

  /** `s.padStart(2, '0')`. */
  function PadStart2(s: string): (r: string)
    ensures |s| >= 2 ==> r == s
    ensures |s| < 2 ==> |r| == 2 && r[2 - |s|..] == s && forall i :: 0 <= i < 2 - |s| ==> r[i] == '0'
  {
    if |s| >= 2 then s else seq(2 - |s|, _ => '0') + s
  }

  /** `parseInt(s, 10)` on a string made only of digits. */
  function DigitsValue(s: string): (n: nat)
    requires AllDigits(s)
    ensures n < Pow10(|s|)
  {
    if s == [] then 0 else DigitsValue(s[..|s| - 1]) * 10 + DigitValue(s[|s| - 1])
  }

  /**
   * formatToApiDate: day padded to 2, month (1-indexed) padded to 2, then the
   * unpadded year; `FormatFields` reads the day and month fields back.
   */
  function FormatToApiDate(d: Date): (s: string)
    requires Valid(d)
    ensures |s| == 4 + |IntToString(d.year)| && s[4..] == IntToString(d.year)
  {
    TwoDigitField(d.day);
    TwoDigitField(d.month);
    PadStart2(IntToString(d.day)) + PadStart2(IntToString(d.month)) + IntToString(d.year)
  }

  /** A well-formed wire date: exactly eight digits. */
  predicate IsWireDate(s: string) {
    |s| == 8 && AllDigits(s)
  }

  /**
   * parseApiDate: day from [0:2], month from [2:4] minus 1, year from [4:8],
   * fed to `new Date(year, month, day)`, which normalises out-of-range fields.
   */
  function ParseApiDate(s: string): (d: Date)
    requires IsWireDate(s)
    ensures Valid(d)
  {
    Construct(DigitsValue(s[4..8]), DigitsValue(s[2..4]) - 1, DigitsValue(s[0..2]))
  }

  /** `dates.map(formatToApiDate)`. */
  function FormatAll(ds: seq<Date>): (r: seq<string>)
    requires forall i :: 0 <= i < |ds| ==> Valid(ds[i])
    ensures |r| == |ds|
    ensures forall i :: 0 <= i < |ds| ==> r[i] == FormatToApiDate(ds[i])
  {
    if ds == [] then [] else [FormatToApiDate(ds[0])] + FormatAll(ds[1..])
  }

  /** `strings.map(parseApiDate)`. */
  function ParseAll(ss: seq<string>): (r: seq<Date>)
    requires forall i :: 0 <= i < |ss| ==> IsWireDate(ss[i])
    ensures |r| == |ss|
    ensures forall i :: 0 <= i < |ss| ==> r[i] == ParseApiDate(ss[i]) && Valid(r[i])
  {
    seq(|ss|, i requires 0 <= i < |ss| => ParseApiDate(ss[i]))
  }

  /** A wire date whose three fields, read literally, name a valid date with a 4-digit year. */
  predicate IsCanonicalWireDate(s: string) {
    IsWireDate(s) && s[4] != '0'
    && Valid(Date(DigitsValue(s[4..8]), DigitsValue(s[2..4]), DigitsValue(s[0..2])))
  }

  // ---------------------------------------------------------------------------
  // Digit strings

  function Pow10(k: nat): (p: nat)
    ensures p >= 1
  {
    if k == 0 then 1 else 10 * Pow10(k - 1)
  }

  lemma {:induction false} DecimalShort(n: nat, k: nat)
    requires 1 <= k && n < Pow10(k)
    ensures |Decimal(n)| <= k
  {
    if n >= 10 {
      DecimalShort(n / 10, k - 1);
    }
  }

  lemma {:induction false} DecimalLong(n: nat, k: nat)
    requires n >= Pow10(k)
    ensures |Decimal(n)| > k
  {
    if k > 0 {
      DecimalLong(n / 10, k - 1);
    }
  }

  /** `String(n)` has four characters exactly for the 4-digit numbers. */
  lemma DecimalHasFourDigits(n: nat)
    ensures |Decimal(n)| == 4 <==> 1000 <= n <= 9999
  {
    if n < 1000 {
      DecimalShort(n, 3);
    } else if n <= 9999 {
      DecimalShort(n, 4);
      DecimalLong(n, 3);
    } else {
      DecimalLong(n, 4);
    }
  }

  lemma {:induction false} DigitsValueOfDecimal(n: nat)
    ensures DigitsValue(Decimal(n)) == n
  {
    if n >= 10 {
      var s := Decimal(n);
      assert s[..|s| - 1] == Decimal(n / 10);
      DigitsValueOfDecimal(n / 10);
    }
  }

  lemma {:induction false} DigitsValuePositive(s: string)
    requires AllDigits(s) && |s| >= 1 && s[0] != '0'
    ensures DigitsValue(s) >= Pow10(|s| - 1)
  {
    if |s| > 1 {
      DigitsValuePositive(s[..|s| - 1]);
    }
  }

  lemma {:induction false} DecimalOfDigitsValue(s: string)
    requires AllDigits(s) && |s| >= 1 && s[0] != '0'
    ensures Decimal(DigitsValue(s)) == s
  {
    if |s| > 1 {
      var t := s[..|s| - 1];
      DigitsValuePositive(t);
      DecimalOfDigitsValue(t);
      assert DigitsValue(s) / 10 == DigitsValue(t);
      assert s == t + [s[|s| - 1]];
    }
  }

  lemma DigitsValueTwo(a: char, b: char)
    requires IsDigit(a) && IsDigit(b)
    ensures DigitsValue([a, b]) == 10 * DigitValue(a) + DigitValue(b)
  {
    assert [a][..0] == [];
    assert DigitsValue([a]) == DigitValue(a);
    assert [a, b][..1] == [a];
  }

  lemma DigitsValueFour(s: string)
    requires |s| == 4 && AllDigits(s)
    ensures DigitsValue(s) == 1000 * DigitValue(s[0]) + 100 * DigitValue(s[1]) + 10 * DigitValue(s[2]) + DigitValue(s[3])
  {
    assert s[..3][..2] == [s[0], s[1]];
    DigitsValueTwo(s[0], s[1]);
  }

  /** A day or month field: two digits for 1..99. */
  lemma TwoDigitField(n: int)
    requires 1 <= n <= 99
    ensures |PadStart2(IntToString(n))| == 2
    ensures AllDigits(PadStart2(IntToString(n)))
    ensures DigitsValue(PadStart2(IntToString(n))) == n
  {
    var t := PadStart2(IntToString(n));
    if n < 10 {
      assert t == ['0', DigitChar(n)];
      DigitsValueTwo('0', DigitChar(n));
    } else {
      DecimalShort(n, 2);
      DigitsValueOfDecimal(n);
    }
  }

  lemma TwoDigitFieldInverse(s: string)
    requires |s| == 2 && AllDigits(s) && DigitsValue(s) >= 1
    ensures PadStart2(IntToString(DigitsValue(s))) == s
  {
    assert s == [s[0], s[1]];
    DigitsValueTwo(s[0], s[1]);
    if s[0] == '0' {
      assert PadStart2(IntToString(DigitsValue(s))) == ['0', s[1]];
    } else {
      DecimalOfDigitsValue(s);
    }
  }

  // ---------------------------------------------------------------------------
  // Properties of the format

  /** The fields of the formatted string. */
  lemma FormatFields(d: Date)
    requires Valid(d)
    ensures var s := FormatToApiDate(d);
            |s| >= 5 && AllDigits(s[0..4])
            && DigitsValue(s[0..2]) == d.day && DigitsValue(s[2..4]) == d.month
            && s[4..] == IntToString(d.year)
  {
    TwoDigitField(d.day);
    TwoDigitField(d.month);
    var s := FormatToApiDate(d);
    assert s[0..2] == PadStart2(IntToString(d.day));
    assert s[2..4] == PadStart2(IntToString(d.month));
  }

  /**
   * The formatted date is an 8-digit wire date exactly when the year has four
   * digits: the year is not padded, and a negative year carries a minus sign.
   */
  lemma FormatIsWireDate(d: Date)
    requires Valid(d)
    ensures IsWireDate(FormatToApiDate(d)) <==> 1000 <= d.year <= 9999
  {
    FormatFields(d);
    var s := FormatToApiDate(d);
    if d.year < 0 {
      assert s[4] == '-';
    } else {
      DecimalHasFourDigits(d.year);
      assert s == s[0..4] + s[4..];
    }
  }

  /** Format then parse is the identity on valid dates with a 4-digit year. */
  lemma ParseFormat(d: Date)
    requires Valid(d) && 1000 <= d.year <= 9999
    ensures IsWireDate(FormatToApiDate(d))
    ensures ParseApiDate(FormatToApiDate(d)) == d
  {
    FormatIsWireDate(d);
    FormatFields(d);
    var s := FormatToApiDate(d);
    assert s[4..8] == s[4..] == Decimal(d.year);
    DigitsValueOfDecimal(d.year);
    ParseValidFields(s, d);
  }

  /** A canonical wire date parses to the date its fields spell. */
  lemma ParseCanonical(s: string)
    requires IsCanonicalWireDate(s)
    ensures ParseApiDate(s) == Date(DigitsValue(s[4..8]), DigitsValue(s[2..4]), DigitsValue(s[0..2]))
  {
    var d := Date(DigitsValue(s[4..8]), DigitsValue(s[2..4]), DigitsValue(s[0..2]));
    DigitsValuePositive(s[4..8]);
    assert Pow10(3) == 1000;
    ParseValidFields(s, d);
  }

  lemma ParseValidFields(s: string, d: Date)
    requires IsWireDate(s) && Valid(d) && !(0 <= d.year <= 99)
    requires DigitsValue(s[4..8]) == d.year && DigitsValue(s[2..4]) == d.month && DigitsValue(s[0..2]) == d.day
    ensures ParseApiDate(s) == d
  {
    ParseFields(s, d.year, d.month, d.day);
    ConstructValid(d);
  }

  /** Formatting the fields of a canonical wire date spells the wire date again. */
  lemma FormatCanonical(s: string)
    requires IsCanonicalWireDate(s)
    ensures FormatToApiDate(Date(DigitsValue(s[4..8]), DigitsValue(s[2..4]), DigitsValue(s[0..2]))) == s
  {
    var d := Date(DigitsValue(s[4..8]), DigitsValue(s[2..4]), DigitsValue(s[0..2]));
    DecimalOfDigitsValue(s[4..8]);
    DigitsValuePositive(s[4..8]);
    TwoDigitFieldInverse(s[0..2]);
    TwoDigitFieldInverse(s[2..4]);
    assert IntToString(d.year) == s[4..8];
    SplitWireDate(s);
  }

  /** Parse then format is the identity on canonical wire dates. */
  lemma FormatParse(s: string)
    requires IsCanonicalWireDate(s)
    ensures FormatToApiDate(ParseApiDate(s)) == s
  {
    ParseCanonical(s);
    FormatCanonical(s);
  }

  lemma SplitWireDate(s: string)
    requires |s| == 8
    ensures s == s[0..2] + s[2..4] + s[4..8]
  {
  }

  /** `String` is injective on integers. */
  lemma IntToStringInjective(x: int, y: int)
    requires IntToString(x) == IntToString(y)
    ensures x == y
  {
  }

  /** Different valid dates format to different strings, whatever their years. */
  lemma FormatInjective(a: Date, b: Date)
    requires Valid(a) && Valid(b)
    requires FormatToApiDate(a) == FormatToApiDate(b)
    ensures a == b
  {
    FormatFields(a);
    FormatFields(b);
    IntToStringInjective(a.year, b.year);
  }

  /** Formatting a list of days and parsing it back gives the same days, in the same order. */
  lemma ParseAllFormatAll(ds: seq<Date>)
    requires forall i :: 0 <= i < |ds| ==> Valid(ds[i]) && 1000 <= ds[i].year <= 9999
    ensures forall i :: 0 <= i < |ds| ==> IsWireDate(FormatAll(ds)[i])
    ensures ParseAll(FormatAll(ds)) == ds
  {
    var f := FormatAll(ds);
    FormatAllParsesBack(ds, f);
    ParseAllPointwise(f, ds);
  }

  /** `ParseAll` of strings that parse one by one to `ds` is `ds`. */
  lemma ParseAllPointwise(f: seq<string>, ds: seq<Date>)
    requires |f| == |ds|
    requires forall i :: 0 <= i < |f| ==> IsWireDate(f[i]) && ParseApiDate(f[i]) == ds[i]
    ensures ParseAll(f) == ds
  {
    var p := ParseAll(f);
    assert forall i :: 0 <= i < |ds| ==> p[i] == ds[i];
  }

  lemma FormatAllParsesBack(ds: seq<Date>, f: seq<string>)
    requires forall i :: 0 <= i < |ds| ==> Valid(ds[i]) && 1000 <= ds[i].year <= 9999
    requires f == FormatAll(ds)
    ensures forall i :: 0 <= i < |ds| ==> IsWireDate(f[i]) && ParseApiDate(f[i]) == ds[i]
  {
    forall i | 0 <= i < |ds|
      ensures IsWireDate(f[i]) && ParseApiDate(f[i]) == ds[i]
    {
      ParseFormat(ds[i]);
    }
  }

  /** Parsing a list of canonical wire dates and formatting it back gives the same strings. */
  lemma FormatAllParseAll(ss: seq<string>)
    requires forall i :: 0 <= i < |ss| ==> IsWireDate(ss[i]) && IsCanonicalWireDate(ss[i])
    ensures FormatAll(ParseAll(ss)) == ss
  {
    forall i | 0 <= i < |ss|
      ensures FormatToApiDate(ParseAll(ss)[i]) == ss[i]
    {
      FormatParse(ss[i]);
    }
  }

  lemma ParseFields(s: string, year: int, month: int, day: int)
    requires IsWireDate(s)
    requires DigitsValue(s[4..8]) == year && DigitsValue(s[2..4]) == month && DigitsValue(s[0..2]) == day
    ensures ParseApiDate(s) == Construct(year, month - 1, day)
  {
  }

  /** A two-digit-looking year is read as 19xx by the Date constructor. */
  lemma ParseCenturyShift()
    ensures ParseApiDate("01010050") == Date(1950, 1, 1)
  {
    var s := "01010050";
    assert s[0..2] == ['0', '1'] && s[2..4] == ['0', '1'];
    DigitsValueTwo('0', '1');
    DigitsValueFour(s[4..8]);
    ParseFields(s, 50, 1, 1);
  }

  /** A day past the month's end rolls over: "3102yyyy" is read as 2 March of a leap year. */
  lemma ParseRollsOver(y: int)
    requires 1000 <= y <= 9999 && IsLeapYear(y)
    ensures IsWireDate("3102" + Decimal(y))
    ensures ParseApiDate("3102" + Decimal(y)) == Date(y, 3, 2)
  {
    var s := "3102" + Decimal(y);
    DecimalHasFourDigits(y);
    assert s[0..2] == ['3', '1'] && s[2..4] == ['0', '2'] && s[4..8] == Decimal(y);
    DigitsValueTwo('3', '1');
    DigitsValueTwo('0', '2');
    DigitsValueOfDecimal(y);
    ParseFields(s, y, 2, 31);
    ThirtyFirstOfFebruary(y);
  }
}
