/**
 * Decimal text as Python's `str()` writes it for the two kinds of numbers the
 * monitor exports: an integer status code and a latency rounded to two
 * decimals. Each writer has a parser beside it, and the round trip is proved.
 */
module Text {
  import opened Wrappers

  predicate IsDigit(c: char) {
    '0' <= c <= '9'
  }

  predicate IsDigits(s: string) {
    forall i :: 0 <= i < |s| ==> IsDigit(s[i])
  }

  function DigitChar(d: nat): (c: char)
    requires d < 10
    ensures IsDigit(c)
  {
    ('0' as int + d) as char
  }

  function DigitValue(c: char): (d: nat)
    requires IsDigit(c)
    ensures d < 10 && DigitChar(d) == c
  {
    c as int - '0' as int
  }

  /** The decimal digits of `n`, with no sign and no leading zero. */
  function NatText(n: nat): (s: string)
    ensures |s| >= 1 && IsDigits(s)
    ensures (s[0] == '0') <==> (n == 0)
  {
    if n < 10 then [DigitChar(n)] else NatText(n / 10) + [DigitChar(n % 10)]
  }

  /** The number a non-empty run of decimal digits denotes. */
  function DigitsValue(s: string): nat
    requires IsDigits(s)
  {
    if s == [] then 0 else DigitsValue(s[..|s| - 1]) * 10 + DigitValue(s[|s| - 1])
  }

  lemma {:induction false} NatTextRoundTrip(n: nat)
    ensures DigitsValue(NatText(n)) == n
  {
    var s := NatText(n);
    if n < 10 {
      assert s[..|s| - 1] == [];
    } else {
      assert s[..|s| - 1] == NatText(n / 10);
      NatTextRoundTrip(n / 10);
    }
  }

  /** `str(n)` for a Python int. */
  function IntText(n: int): (s: string)
    ensures |s| >= 1
  {
    if n < 0 then "-" + NatText(-n) else NatText(n)
  }

  /** Reads back the text `IntText` writes; None for anything else. */
  function ParseInt(s: string): Option<int> {
    if |s| == 0 then None
    else if s[0] == '-' then
      if |s| >= 2 && IsDigits(s[1..]) then Some(-(DigitsValue(s[1..]) as int)) else None
    else if IsDigits(s) then Some(DigitsValue(s))
    else None
  }

  lemma IntTextRoundTrip(n: int)
    ensures IntText(n) != ""
    ensures ParseInt(IntText(n)) == Some(n)
  {
    if n < 0 {
      var t := NatText(-n);
      assert ("-" + t)[1..] == t;
      NatTextRoundTrip(-n);
    } else {
      var t := NatText(n);
      assert IsDigit(t[0]);
      NatTextRoundTrip(n);
    }
  }

  /** The digits after the point of a two-decimal float's shortest repr. */
  function FractionText(f: nat): (s: string)
    requires f < 100
  {
    if f % 10 == 0 then [DigitChar(f / 10)] else [DigitChar(f / 10), DigitChar(f % 10)]
  }

  /**
   * `str(x)` for the float x = h / 100: the integer part, a point, and one
   * digit after it when the second decimal is zero, otherwise two
   * (123.0, 123.4, 123.45, 0.05).
   */
  function FixedText(h: int): (s: string)
    ensures |s| >= 3
  {
    if h < 0 then "-" + UnsignedFixedText(-h) else UnsignedFixedText(h)
  }

  function UnsignedFixedText(h: nat): (s: string)
    ensures |s| >= 3 && s[0] != '-'
  {
    NatText(h / 100) + "." + FractionText(h % 100)
  }

  /** Reads back the text `UnsignedFixedText` writes, in hundredths. */
  function ParseUnsignedFixed(s: string): Option<nat> {
    var n := |s|;
    if n >= 3 && s[n - 2] == '.' && IsDigits(s[..n - 2]) && IsDigit(s[n - 1]) then
      Some(DigitsValue(s[..n - 2]) * 100 + DigitValue(s[n - 1]) * 10)
    else if n >= 4 && s[n - 3] == '.' && IsDigits(s[..n - 3]) && IsDigit(s[n - 2]) && IsDigit(s[n - 1]) then
      Some(DigitsValue(s[..n - 3]) * 100 + DigitValue(s[n - 2]) * 10 + DigitValue(s[n - 1]))
    else None
  }

  /** Reads back the text `FixedText` writes, in hundredths. */
  function ParseFixed(s: string): Option<int> {
    if |s| >= 1 && s[0] == '-' then Negated(ParseUnsignedFixed(s[1..])) else Widened(ParseUnsignedFixed(s))
  }

  function Negated(v: Option<nat>): Option<int> {
    if v.Some? then Some(-(v.value as int)) else None
  }

  function Widened(v: Option<nat>): Option<int> {
    if v.Some? then Some(v.value) else None
  }

  lemma UnsignedFixedRoundTrip(h: nat)
    ensures |UnsignedFixedText(h)| >= 3 && UnsignedFixedText(h)[0] != '-'
    ensures ParseUnsignedFixed(UnsignedFixedText(h)) == Some(h)
  {
    var w, f := h / 100, h % 100;
    var s := UnsignedFixedText(h);
    NatTextRoundTrip(w);
    if f % 10 == 0 {
      assert s[..|s| - 2] == NatText(w);
      assert DigitValue(s[|s| - 1]) == f / 10;
    } else {
      assert s[..|s| - 3] == NatText(w);
      assert DigitValue(s[|s| - 2]) == f / 10;
      assert DigitValue(s[|s| - 1]) == f % 10;
    }
  }

  lemma ParseSigned(t: string, m: nat)
    requires ParseUnsignedFixed(t) == Some(m)
    ensures ParseFixed("-" + t) == Some(-(m as int))
  {
    assert ("-" + t)[1..] == t;
  }

  lemma ParseUnsigned(t: string, m: nat)
    requires |t| >= 1
    requires t[0] != '-'
    requires ParseUnsignedFixed(t) == Some(m)
    ensures ParseFixed(t) == Some(m)
  {
  }

  lemma FixedTextRoundTrip(h: int)
    ensures FixedText(h) != ""
    ensures ParseFixed(FixedText(h)) == Some(h)
  {
    if h < 0 {
      var m: nat := -h;
      UnsignedFixedRoundTrip(m);
      ParseSigned(UnsignedFixedText(m), m);
    } else {
      UnsignedFixedRoundTrip(h);
      ParseUnsigned(UnsignedFixedText(h), h);
    }
  }
}
