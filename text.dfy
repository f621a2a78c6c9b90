/**
 * Character classes and decimal text used by the member type setting format:
 * the regular-expression classes `\w` and `\d` (restricted to ASCII), the
 * value of a run of decimal digits, the invariant-culture decimal rendering
 * of an integer, and the 32-bit signed range of the source's `int`.
 */
module Text {

  /** The range of a .NET `int` (System.Int32). */
  const Int32Max: int := 0x7FFF_FFFF

  newtype int32 = x: int | -0x8000_0000 <= x <= 0x7FFF_FFFF

  /** `\w`, taken as ASCII letters, ASCII digits and underscore. */
  predicate IsWordChar(c: char) {
    ('a' <= c <= 'z') || ('A' <= c <= 'Z') || ('0' <= c <= '9') || c == '_'
  }

  /** `\d`, taken as the ASCII digits. */
  predicate IsDigit(c: char) {
    '0' <= c <= '9'
  }

  /** What `\w+` matches: a non-empty run of word characters. */
  predicate IsWordRun(s: string) {
    |s| > 0 && forall i :: 0 <= i < |s| ==> IsWordChar(s[i])
  }

  predicate AllDigits(s: string) {
    forall i :: 0 <= i < |s| ==> IsDigit(s[i])
  }

  /** What `\d+` matches: a non-empty run of decimal digits. */
  predicate IsDigitRun(s: string) {
    |s| > 0 && AllDigits(s)
  }

  /** A digit run without redundant leading zeros, as an integer is printed. */
  predicate IsCanonicalDigits(s: string) {
    IsDigitRun(s) && (s[0] != '0' || |s| == 1)
  }

  function DigitValue(c: char): (d: nat)
    requires IsDigit(c)
    ensures d < 10
  {
    c as int - '0' as int
  }

  function DigitChar(d: nat): (c: char)
    requires d < 10
    ensures IsDigit(c) && DigitValue(c) == d
  {
    ('0' as int + d) as char
  }

  /** The numeric value of a string of decimal digits, most significant first. */
  function DigitsValue(s: string): nat
    requires AllDigits(s)
  {
    if s == [] then 0 else DigitsValue(s[..|s| - 1]) * 10 + DigitValue(s[|s| - 1])
  }

  /** The decimal rendering of a natural number: digits whose value is `n`, with no leading zero. */
  function NatToDecimal(n: nat): (r: string)
    ensures IsCanonicalDigits(r)
    ensures DigitsValue(r) == n
    decreases n
  {
    if n < 10 then [DigitChar(n)]
    else
      var p := NatToDecimal(n / 10);
      assert (p + [DigitChar(n % 10)])[..|p|] == p;
      p + [DigitChar(n % 10)]
  }

  /** How `string.Format` renders an `int`: its decimal text, with a leading '-' when negative. */
  function Int32ToDecimal(o: int32): (r: string)
    ensures o >= 0 ==> IsCanonicalDigits(r) && DigitsValue(r) == o as int
    ensures o < 0 ==> |r| >= 2 && r[0] == '-' && IsCanonicalDigits(r[1..]) && DigitsValue(r[1..]) == -(o as int)
  {
    if o < 0 then
      var p := NatToDecimal(-(o as int));
      assert ("-" + p)[1..] == p;
      "-" + p
    else NatToDecimal(o as int)
  }

  /** A leading zero does not change the value of a digit string. */
  lemma {:induction false} LeadingZeroIgnored(s: string)
    requires AllDigits(s)
    ensures AllDigits("0" + s) && DigitsValue("0" + s) == DigitsValue(s)
  {
    assert forall i :: 0 <= i < |"0" + s| ==> ("0" + s)[i] == if i == 0 then '0' else s[i - 1];
    if s != [] {
      var t := s[..|s| - 1];
      assert ("0" + s)[..|"0" + s| - 1] == "0" + t;
      LeadingZeroIgnored(t);
    }
  }

  /** A digit run that starts with a non-zero digit has a positive value. */
  lemma {:induction false} LeadingNonZeroPositive(s: string)
    requires IsDigitRun(s) && s[0] != '0'
    ensures DigitsValue(s) >= 1
  {
    if |s| > 1 {
      LeadingNonZeroPositive(s[..|s| - 1]);
    }
  }

  /** Printing the value of a canonical digit run gives back that run. */
  lemma {:induction false} DecimalOfValue(s: string)
    requires IsCanonicalDigits(s)
    ensures NatToDecimal(DigitsValue(s)) == s
  {
    if |s| > 1 {
      var t := s[..|s| - 1];
      LeadingNonZeroPositive(t);
      DecimalOfValue(t);
      var n := DigitsValue(s);
      assert n / 10 == DigitsValue(t) && n % 10 == DigitValue(s[|s| - 1]);
      assert DigitChar(n % 10) == s[|s| - 1];
      assert s == t + [s[|s| - 1]];
    }
  }

  /** Two canonical digit runs with the same value are the same text. */
  lemma CanonicalDigitsUnique(s: string, t: string)
    requires IsCanonicalDigits(s) && IsCanonicalDigits(t)
    ensures DigitsValue(s) == DigitsValue(t) <==> s == t
  {
    if DigitsValue(s) == DigitsValue(t) {
      DecimalOfValue(s);
      DecimalOfValue(t);
    }
  }
}
