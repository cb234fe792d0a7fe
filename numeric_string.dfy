/** `itos` from src/numeric_string.c: a 32-bit `int` written as signed
    decimal text by the `%d` conversion of section 7.21.6.1 of
    ISO/IEC 9899:2011, in a buffer sized by a first, measuring `snprintf`. */
module NumericString {
  import opened CRuntime

  predicate IsDigit(c: Byte) { '0' <= c <= '9' }

  predicate AllDigits(s: seq<Byte>) { forall i :: 0 <= i < |s| ==> IsDigit(s[i]) }

  function DigitValue(c: Byte): nat
    requires IsDigit(c)
  {
    c as int - '0' as int
  }

  function DigitChar(d: nat): (c: Byte)
    requires d < 10
    ensures IsDigit(c) && DigitValue(c) == d
  {
    ('0' as int + d) as char
  }

  /** The decimal digits of `n`, most significant first. */
  function Digits(n: nat): (s: seq<Byte>)
    ensures |s| >= 1 && AllDigits(s)
    ensures s[0] == '0' <==> n == 0
    ensures n == 0 ==> s == ['0']
  {
    if n < 10 then [DigitChar(n)] else Digits(n / 10) + [DigitChar(n % 10)]
  }

  /** The `%d` conversion: `[-]dddd`, with a minus sign exactly for negative
      values, and digits without leading zeros. */
  function FormatD(v: int): (s: seq<Byte>)
    ensures |s| >= 1 && (s[0] == '-' <==> v < 0)
    ensures v < 0 ==> |s| >= 2 && AllDigits(s[1..])
    ensures v >= 0 ==> AllDigits(s)
  {
    if v < 0 then ['-'] + Digits(-v) else Digits(v)
  }

  /** A signed decimal numeral as `%d` writes them: an optional minus sign,
      then at least one digit, no leading zero unless the digits are just
      "0", and no "-0". */
  predicate IsCanonicalDecimal(s: seq<Byte>)
  {
    var d := if |s| > 0 && s[0] == '-' then s[1..] else s;
    && |d| >= 1
    && AllDigits(d)
    && (d[0] == '0' ==> d == ['0'])
    && (|s| > 0 && s[0] == '-' ==> d != ['0'])
  }

  /** The value of a string of decimal digits, read left to right. */
  function DecimalValue(s: seq<Byte>): nat
    requires AllDigits(s)
  {
    if s == [] then 0 else DecimalValue(s[..|s| - 1]) * 10 + DigitValue(s[|s| - 1])
  }

  /** Reading text back as a signed decimal integer: an optional minus sign
      and at least one digit, nothing else. */
  function ParseSigned(s: seq<Byte>): Option<int>
  {
    if |s| >= 2 && s[0] == '-' && AllDigits(s[1..]) then Some(-(DecimalValue(s[1..]) as int))
    else if |s| >= 1 && AllDigits(s) then Some(DecimalValue(s))
    else None
  }

  function Pow10(k: nat): (p: nat)
    ensures p >= 1
  {
    if k == 0 then 1 else 10 * Pow10(k - 1)
  }

  /** `itos(value)`: with `allocOk` false the `malloc` of line 15 fails and
      the result is NULL; otherwise it is the text `snprintf` writes into a
      buffer of the measured size. That size leaves room for every digit, so
      the result is the complete `%d` text, which for a 32-bit `int` is at
      most 11 bytes long. */
  function Itos(value: Int32, allocOk: bool): (r: Option<seq<Byte>>)
    ensures r.Some? <==> allocOk
    ensures r.Some? ==> r.value == FormatD(value) && |r.value| <= 11
  {
    // snprintf(NULL, 0, "%d", value) + 1
    var bufferSize := |FormatD(value)| + 1;
    if !allocOk then None
    else
      FormatDLength(value);
      Some(Snprintf(FormatD(value), bufferSize))
  }

  /** Reading the digits of `n` back gives `n`. */
  lemma {:induction false} DigitsRoundTrip(n: nat)
    ensures DecimalValue(Digits(n)) == n
  {
    if n >= 10 {
      var s := Digits(n);
      DigitsRoundTrip(n / 10);
      assert s[..|s| - 1] == Digits(n / 10);
    }
  }

  /** A digit string without a leading zero has a positive value. */
  lemma {:induction false} LeadingDigitPositive(d: seq<Byte>)
    requires |d| >= 1 && AllDigits(d) && d[0] != '0'
    ensures DecimalValue(d) >= Pow10(|d| - 1)
  {
    if |d| > 1 {
      LeadingDigitPositive(d[..|d| - 1]);
    }
  }

  /** Writing the value of a canonical digit string gives the string back. */
  lemma {:induction false} DigitsOfValue(d: seq<Byte>)
    requires |d| >= 1 && AllDigits(d) && (d[0] == '0' ==> d == ['0'])
    ensures Digits(DecimalValue(d)) == d
  {
    if |d| > 1 {
      var init := d[..|d| - 1];
      LeadingDigitPositive(init);
      DigitsOfValue(init);
      assert d == init + [d[|d| - 1]];
    }
  }

  /** `%d` output is canonical, and starts with '-' exactly for negative values. */
  lemma FormatDCanonical(v: int)
    ensures IsCanonicalDecimal(FormatD(v))
    ensures FormatD(v)[0] == '-' <==> v < 0
  {
  }

  /** Round trip: reading `%d` output back as a signed decimal gives the
      value printed, for every integer and so for every 32-bit `int`,
      INT_MIN included. */
  lemma ItosRoundTrip(v: int)
    ensures ParseSigned(FormatD(v)) == Some(v)
  {
    if v < 0 {
      DigitsRoundTrip(-v);
      assert FormatD(v)[1..] == Digits(-v);
    } else {
      DigitsRoundTrip(v);
    }
  }

  /** The other direction: every canonical signed decimal is the `%d`
      output of the value it denotes. */
  lemma ParseFormatRoundTrip(s: seq<Byte>)
    requires IsCanonicalDecimal(s)
    ensures ParseSigned(s).Some? && FormatD(ParseSigned(s).value) == s
  {
    if |s| > 0 && s[0] == '-' {
      var d := s[1..];
      DigitsOfValue(d);
      LeadingDigitPositive(d);
      assert s == ['-'] + d;
    } else {
      DigitsOfValue(s);
    }
  }

  /** A number below 10^k has at most k digits. */
  lemma {:induction false} DigitsLength(n: nat, k: nat)
    requires 1 <= k && n < Pow10(k)
    ensures |Digits(n)| <= k
  {
    if n >= 10 {
      DigitsLength(n / 10, k - 1);
    }
  }

  /** A 32-bit `int` prints in at most 11 bytes ("-2147483648"). */
  lemma FormatDLength(v: Int32)
    ensures |FormatD(v)| <= 11
  {
    assert Pow10(10) == 10000000000;
    if v < 0 {
      DigitsLength(-(v as int), 10);
    } else {
      DigitsLength(v, 10);
    }
  }

  /** The outputs the repository's tests expect for small values. */
  lemma ItosExamples()
    ensures Itos(0, true) == Some("0")
    ensures Itos(-123, true) == Some("-123")
    ensures Itos(456, true) == Some("456")
    ensures Itos(30, true) == Some("30")
    ensures Itos(6582, true) == Some("6582")
  {
    // Digits unfolds one decimal place per step; each prefix is evaluated in turn.
    assert Digits(12) == "12" && Digits(123) == "123" && FormatD(-123) == "-123";
    assert Digits(45) == "45" && Digits(456) == "456";
    assert Digits(30) == "30";
    assert Digits(65) == "65" && Digits(658) == "658" && Digits(6582) == "6582";
  }

  /** The digits shared by INT_MAX and the magnitude of INT_MIN. */
  lemma DigitsOfIntLimitPrefix()
    ensures Digits(214748364) == "214748364"
  {
    assert Digits(21) == "21" && Digits(214) == "214" && Digits(2147) == "2147";
    assert Digits(21474) == "21474" && Digits(214748) == "214748";
    assert Digits(2147483) == "2147483" && Digits(21474836) == "21474836";
  }

  /** The outputs the repository's tests expect at both ends of the `int` range. */
  lemma ItosLimits()
    ensures Itos(2147483647, true) == Some("2147483647")
    ensures Itos(-2147483648, true) == Some("-2147483648")
  {
    DigitsOfIntLimitPrefix();
    assert Digits(2147483647) == "2147483647";
    assert Digits(2147483648) == "2147483648";
    assert FormatD(-2147483648) == "-2147483648";
  }
}
