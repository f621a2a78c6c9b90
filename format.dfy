/**
 * The persisted text form of a member type setting, `defaultName||order||effectiveName`:
 * the serialiser, the deserialiser written as a scanner, the meaning of the
 * deserialiser's regular expression `^(\w+)\|\|(\d+)\|\|(.*)$` as a predicate,
 * and the properties that tie the three together.
 */
module Format {
  import opened Wrappers
  import opened Text

  /** The three values a member type setting holds. */
  datatype Fields = Fields(defaultName: string, order: int32, effectiveName: string)

  const Delimiter: string := "||"

  /** The serialising conversion: `{0}||{1}||{2}` filled with the default name, the order and the effective name. */
  function Serialize(f: Fields): string {
    f.defaultName + Delimiter + Int32ToDecimal(f.order) + Delimiter + f.effectiveName
  }

  /**
   * What the serialised text is made of: the default name verbatim, the
   * delimiter, the order in decimal (a '-' and the digits of its magnitude
   * when negative), the delimiter, and the effective name verbatim. Nothing
   * is escaped.
   */
  lemma SerializeLayout(f: Fields)
    ensures |Serialize(f)| >= |f.defaultName| + |f.effectiveName| + 5
    ensures var r, d := Serialize(f), f.defaultName; r[..|d|] == d && DelimiterAt(r, |d|)
    ensures var r, e := Serialize(f), f.effectiveName; r[|r| - |e| ..] == e && DelimiterAt(r, |r| - |e| - 2)
    ensures var r, d, e := Serialize(f), f.defaultName, f.effectiveName;
      var m := r[|d| + 2 .. |r| - |e| - 2];
      (f.order >= 0 ==> IsCanonicalDigits(m) && DigitsValue(m) == f.order as int)
      && (f.order < 0 ==> m[0] == '-' && IsCanonicalDigits(m[1..]) && DigitsValue(m[1..]) == -(f.order as int))
  {
    LayoutParts(f.defaultName, Int32ToDecimal(f.order), f.effectiveName);
  }

  /** True when `s` has the delimiter `||` at position `i`. */
  predicate DelimiterAt(s: string, i: nat) {
    i + 2 <= |s| && s[i] == '|' && s[i + 1] == '|'
  }

  /** The end of the longest run of characters satisfying `p` that starts at `i`. */
  function RunEnd(s: string, i: nat, p: char -> bool): (j: nat)
    requires i <= |s|
    ensures i <= j <= |s|
    ensures forall k :: i <= k < j ==> p(s[k])
    ensures j == |s| || !p(s[j])
    decreases |s| - i
  {
    if i < |s| && p(s[i]) then RunEnd(s, i + 1, p) else i
  }

  /**
   * `(.*)$` applied to what follows the second delimiter: `.` does not match a
   * line feed, and `$` matches at the end or just before a final line feed.
   */
  function MatchToEnd(rest: string): (r: Option<string>)
    ensures r.Some? <==> '\n' !in rest || (|rest| > 0 && rest[|rest| - 1] == '\n' && '\n' !in rest[..|rest| - 1])
    ensures r.Some? ==> '\n' !in r.value && (rest == r.value || rest == r.value + "\n")
  {
    if '\n' !in rest then Some(rest)
    else if rest[|rest| - 1] == '\n' && '\n' !in rest[..|rest| - 1] then
      assert rest == rest[..|rest| - 1] + "\n";
      Some(rest[..|rest| - 1])
    else None
  }

  /**
   * The deserialising conversion: `None` where the source catches an exception
   * (no match, so the empty order group fails to convert; or an order beyond
   * the 32-bit range) and returns null.
   */
  function Parse(s: string): (r: Option<Fields>)
    ensures r.Some? ==> IsWordRun(r.value.defaultName) && r.value.order >= 0 && '\n' !in r.value.effectiveName
  {
    var a := RunEnd(s, 0, IsWordChar);
    if a == 0 || !DelimiterAt(s, a) then None
    else
      var b := RunEnd(s, a + 2, IsDigit);
      if b == a + 2 || !DelimiterAt(s, b) then None
      else
        FromGroups(s[..a], s[a + 2 .. b], s[b + 2 ..])
  }

  /**
   * The tail of `Parse` once the groups `defaultName` and `order` are found:
   * `Convert.ToInt32` on the order group overflows beyond the 32-bit range,
   * and `(.*)$` must accept the remainder.
   */
  function FromGroups(name: string, digits: string, rest: string): Option<Fields>
    requires AllDigits(digits)
  {
    if DigitsValue(digits) > Int32Max then None
    else
      match MatchToEnd(rest)
      case None => None
      case Some(e) => Some(Fields(name, DigitsValue(digits) as int32, e))
  }

  /**
   * The regular expression matches `s` with groups `d` (defaultName), `g`
   * (order) and `e` (effectiveName).
   */
  predicate PatternMatches(s: string, d: string, g: string, e: string) {
    IsWordRun(d) && IsDigitRun(g) && '\n' !in e
    && (s == d + Delimiter + g + Delimiter + e || s == d + Delimiter + g + Delimiter + e + "\n")
  }

  lemma {:induction false} RunEndAt(s: string, i: nat, j: nat, p: char -> bool)
    requires i <= j <= |s|
    requires forall k :: i <= k < j ==> p(s[k])
    requires j == |s| || !p(s[j])
    ensures RunEnd(s, i, p) == j
    decreases j - i
  {
    if i < j {
      RunEndAt(s, i + 1, j, p);
    }
  }

  /** Whatever `Parse` accepts, the regular expression matches, with the order group's value as the order. */
  lemma ParseSound(s: string) returns (g: string)
    requires Parse(s).Some?
    ensures var f := Parse(s).value;
      PatternMatches(s, f.defaultName, g, f.effectiveName) && DigitsValue(g) == f.order as int
  {
    var f := Parse(s).value;
    var a := RunEnd(s, 0, IsWordChar);
    assert a > 0 && DelimiterAt(s, a);
    var b := RunEnd(s, a + 2, IsDigit);
    assert b > a + 2 && DelimiterAt(s, b);
    var d, rest := s[..a], s[b + 2 ..];
    g := s[a + 2 .. b];
    assert Parse(s) == FromGroups(d, g, rest);
    var e := MatchToEnd(rest).value;
    assert f == Fields(d, DigitsValue(g) as int32, e);
    assert IsWordRun(d) && IsDigitRun(g);
    SplitAtDelimiters(s, a, b);
    assert PatternMatches(s, d, g, e);
  }

  lemma SplitAtDelimiters(s: string, a: nat, b: nat)
    requires a + 2 <= b && DelimiterAt(s, a) && DelimiterAt(s, b)
    ensures s == s[..a] + Delimiter + s[a + 2 .. b] + Delimiter + s[b + 2 ..]
  {
    assert s[a .. a + 2] == Delimiter && s[b .. b + 2] == Delimiter;
    assert s == s[..a] + s[a .. a + 2] + s[a + 2 .. b] + s[b .. b + 2] + s[b + 2 ..];
  }

  /** The positions of the parts of `d||g||rest`. */
  lemma LayoutParts(d: string, g: string, rest: string)
    ensures var s := d + Delimiter + g + Delimiter + rest;
      var b := |d| + 2 + |g|;
      |s| == b + 2 + |rest|
      && s[..|d|] == d && DelimiterAt(s, |d|)
      && s[|d| + 2 .. b] == g && DelimiterAt(s, b)
      && s[b + 2 ..] == rest
  {
    var s := d + Delimiter + g + Delimiter + rest;
    var b := |d| + 2 + |g|;
    assert s == d + (Delimiter + (g + (Delimiter + rest)));
    assert s[..|d|] == d;
    assert s[|d| .. |d| + 2] == Delimiter;
    assert s[|d| + 2 .. b] == g;
    assert s[b .. b + 2] == Delimiter;
    assert s[b + 2 ..] == rest;
  }

  /** `(.*)$` gives back a line-feed-free remainder, with or without one final line feed. */
  lemma MatchToEndOf(e: string, rest: string)
    requires '\n' !in e && (rest == e || rest == e + "\n")
    ensures MatchToEnd(rest) == Some(e)
  {
    if rest != e {
      assert rest[..|rest| - 1] == e;
    }
  }

  /** `Parse` on a word run, a delimiter, a digit run and a delimiter defers to the order's range and the remainder. */
  lemma ParseLayout(d: string, g: string, rest: string)
    requires IsWordRun(d) && IsDigitRun(g)
    ensures Parse(d + Delimiter + g + Delimiter + rest) == FromGroups(d, g, rest)
  {
    var s := d + Delimiter + g + Delimiter + rest;
    var a, b := |d|, |d| + 2 + |g|;
    LayoutParts(d, g, rest);
    RunEndAt(s, 0, a, IsWordChar);
    assert RunEnd(s, 0, IsWordChar) == a;
    RunEndAt(s, a + 2, b, IsDigit);
    assert RunEnd(s, a + 2, IsDigit) == b;
  }

  /**
   * Where the regular expression matches, `Parse` returns exactly its groups,
   * unless the order group's value is beyond the 32-bit range.
   */
  lemma ParseComplete(s: string, d: string, g: string, e: string)
    requires PatternMatches(s, d, g, e)
    ensures Parse(s) == if DigitsValue(g) <= Int32Max then Some(Fields(d, DigitsValue(g) as int32, e)) else None
  {
    var rest := if s == d + Delimiter + g + Delimiter + e then e else e + "\n";
    assert s == d + Delimiter + g + Delimiter + rest;
    ParseLayout(d, g, rest);
    MatchToEndOf(e, rest);
  }

  /** `Parse` fails exactly when the regular expression does not match or the order group overflows. */
  lemma ParseFailsExactly(s: string)
    ensures Parse(s).None? <==> forall d, g, e :: PatternMatches(s, d, g, e) ==> DigitsValue(g) > Int32Max
  {
    if Parse(s).Some? {
      var g := ParseSound(s);
    }
    forall d, g, e | PatternMatches(s, d, g, e) && Parse(s).None?
      ensures DigitsValue(g) > Int32Max
    {
      ParseComplete(s, d, g, e);
    }
  }

  /**
   * Round trip: a setting whose default name is a word run, whose order is not
   * negative and whose effective name has no line feed parses back to itself.
   */
  lemma RoundTrip(f: Fields)
    requires IsWordRun(f.defaultName) && f.order >= 0 && '\n' !in f.effectiveName
    ensures Parse(Serialize(f)) == Some(f)
  {
    var g := Int32ToDecimal(f.order);
    assert PatternMatches(Serialize(f), f.defaultName, g, f.effectiveName);
    ParseComplete(Serialize(f), f.defaultName, g, f.effectiveName);
  }

  /** One line feed appended to the serialised text is dropped by `$`; the values still come back. */
  lemma RoundTripFinalLineFeed(f: Fields)
    requires IsWordRun(f.defaultName) && f.order >= 0 && '\n' !in f.effectiveName
    ensures Parse(Serialize(f) + "\n") == Some(f)
  {
    var g := Int32ToDecimal(f.order);
    assert PatternMatches(Serialize(f) + "\n", f.defaultName, g, f.effectiveName);
    ParseComplete(Serialize(f) + "\n", f.defaultName, g, f.effectiveName);
  }

  /** A line feed that is not the last character of the remainder makes the parse fail. */
  lemma InnerLineFeedRejected(d: string, g: string, x: string, y: string)
    requires IsWordRun(d) && IsDigitRun(g) && y != []
    ensures Parse(d + Delimiter + g + Delimiter + x + "\n" + y) == None
  {
    var rest := x + "\n" + y;
    assert d + Delimiter + g + Delimiter + x + "\n" + y == d + Delimiter + g + Delimiter + rest;
    ParseLayout(d, g, rest);
    assert rest[|x|] == '\n';
    if |rest| > 0 && rest[|rest| - 1] == '\n' {
      assert rest[..|rest| - 1][|x|] == '\n';
    }
  }

  /** The remainder after the second delimiter is taken verbatim, further delimiters included. */
  lemma RemainderVerbatim(d: string, g: string, e: string)
    requires IsWordRun(d) && IsDigitRun(g) && '\n' !in e && DigitsValue(g) <= Int32Max
    ensures Parse(d + Delimiter + g + Delimiter + e) == Some(Fields(d, DigitsValue(g) as int32, e))
  {
    ParseComplete(d + Delimiter + g + Delimiter + e, d, g, e);
  }

  /**
   * What the text of a setting does when parsed: it gives the setting back
   * when the pair is serialisable, and it is refused when the order is
   * negative and the default name has no '|'.
   */
  lemma SerializeThenParse(f: Fields)
    ensures IsWordRun(f.defaultName) && f.order >= 0 && '\n' !in f.effectiveName ==> Parse(Serialize(f)) == Some(f)
    ensures '|' !in f.defaultName && f.order < 0 ==> Parse(Serialize(f)) == None
  {
    if IsWordRun(f.defaultName) && f.order >= 0 && '\n' !in f.effectiveName {
      RoundTrip(f);
    } else if '|' !in f.defaultName && f.order < 0 {
      NegativeOrderNeverParses(f);
    }
  }

  /** A well-formed order group whose value is beyond 2147483647 overflows, and the parse fails. */
  lemma OverflowRejected(d: string, g: string, rest: string)
    requires IsWordRun(d) && IsDigitRun(g) && DigitsValue(g) > Int32Max
    ensures Parse(d + Delimiter + g + Delimiter + rest) == None
  {
    ParseLayout(d, g, rest);
  }

  /** On success the default name is a word run and is exactly the text before the first '|'. */
  lemma ParsedDefaultName(s: string)
    requires Parse(s).Some?
    ensures var d := Parse(s).value.defaultName;
      IsWordRun(d) && '|' !in d && |d| < |s| && s[..|d|] == d && s[|d|] == '|'
  {
    var g := ParseSound(s);
    var f := Parse(s).value;
    var rest := if s == f.defaultName + Delimiter + g + Delimiter + f.effectiveName then f.effectiveName else f.effectiveName + "\n";
    assert s == f.defaultName + Delimiter + g + Delimiter + rest;
    LayoutParts(f.defaultName, g, rest);
  }

  /** Leading zeros in the order group are accepted and do not change the result. */
  lemma LeadingZeroAccepted(d: string, g: string, rest: string)
    requires IsWordRun(d) && IsDigitRun(g)
    ensures Parse(d + Delimiter + "0" + g + Delimiter + rest) == Parse(d + Delimiter + g + Delimiter + rest)
  {
    LeadingZeroIgnored(g);
    assert d + Delimiter + "0" + g + Delimiter + rest == d + Delimiter + ("0" + g) + Delimiter + rest;
    ParseLayout(d, "0" + g, rest);
    ParseLayout(d, g, rest);
  }

  /** A negative order is written with a '-', which `\d+` refuses, so the text never parses. */
  lemma NegativeOrderNeverParses(f: Fields)
    requires '|' !in f.defaultName && f.order < 0
    ensures Parse(Serialize(f)) == None
  {
    var s := Serialize(f);
    var d := f.defaultName;
    LayoutParts(d, Int32ToDecimal(f.order), f.effectiveName);
    assert s[|d| + 2] == '-';
    if Parse(s).Some? {
      ParsedDefaultName(s);
      var g := ParseSound(s);
      assert false;
    }
  }

  /**
   * Parsing a text the pattern matches and serialising the result gives back
   * the same text exactly when the order group has no redundant leading zero
   * and the text does not end with the line feed `$` skips.
   */
  lemma ParseThenSerialize(s: string, d: string, g: string, e: string)
    requires PatternMatches(s, d, g, e) && DigitsValue(g) <= Int32Max
    ensures Parse(s).Some?
    ensures Serialize(Parse(s).value) == s <==> s == d + Delimiter + g + Delimiter + e && IsCanonicalDigits(g)
  {
    ParseComplete(s, d, g, e);
    var f := Parse(s).value;
    var m := Int32ToDecimal(f.order);
    var r := Serialize(f);
    assert r == d + Delimiter + m + Delimiter + e;
    LayoutParts(d, m, e);
    LayoutParts(d, g, e);
    if r == s {
      if s == d + Delimiter + g + Delimiter + e + "\n" {
        assert false;
      }
      assert |m| == |g|;
      assert m == r[|d| + 2 .. |d| + 2 + |m|];
    } else if s == d + Delimiter + g + Delimiter + e && IsCanonicalDigits(g) {
      DecimalOfValue(g);
    }
  }

  /** Whatever `Parse` returns serialises to a text that parses back to the same values. */
  lemma NormalFormStable(s: string)
    requires Parse(s).Some?
    ensures Parse(Serialize(Parse(s).value)) == Parse(s)
  {
    var g := ParseSound(s);
    RoundTrip(Parse(s).value);
  }
}
