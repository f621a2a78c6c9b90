/** Concrete inputs and outputs of the two conversions. */
module Scenarios {
  import opened Wrappers
  import opened Text
  import opened Format

  lemma SerializeExample()
    ensures Serialize(Fields("field", 0, "Fields")) == "field||0||Fields"
  {
  }

  lemma ParsePropertyExample()
    ensures Parse("property||1||Properties") == Some(Fields("property", 1, "Properties"))
  {
    assert IsWordRun("property") && DigitsValue("1") == 1;
    assert "property" + Delimiter + "1" + Delimiter + "Properties" == "property||1||Properties";
    RemainderVerbatim("property", "1", "Properties");
  }

  /** Spaces in the effective name are kept. */
  lemma ParseSpacesExample()
    ensures Parse("method||2||My Methods") == Some(Fields("method", 2, "My Methods"))
  {
    assert IsWordRun("method") && DigitsValue("2") == 2;
    assert "method" + Delimiter + "2" + Delimiter + "My Methods" == "method||2||My Methods";
    RemainderVerbatim("method", "2", "My Methods");
  }

  /** A delimiter after the second one belongs to the effective name. */
  lemma ParseDelimiterInRemainderExample()
    ensures Parse("x||5||a||b") == Some(Fields("x", 5, "a||b"))
  {
    assert IsWordRun("x") && DigitsValue("5") == 5;
    assert "x" + Delimiter + "5" + Delimiter + "a||b" == "x||5||a||b";
    RemainderVerbatim("x", "5", "a||b");
  }

  lemma ParseEmptyExample()
    ensures Parse("") == None
  {
  }

  lemma ParseNoDelimiterExample()
    ensures Parse("no-delimiters-here") == None
  {
    RunEndAt("no-delimiters-here", 0, 2, IsWordChar);
  }

  lemma ParseNotANumberExample()
    ensures Parse("abc||notanumber||x") == None
  {
    RunEndAt("abc||notanumber||x", 0, 3, IsWordChar);
    RunEndAt("abc||notanumber||x", 5, 5, IsDigit);
  }

  /** An empty default name is not a match: `\w+` needs one character. */
  lemma ParseEmptyDefaultNameExample()
    ensures Parse("||1||x") == None
  {
    RunEndAt("||1||x", 0, 0, IsWordChar);
  }

  /** 2147483647, the largest order accepted, written in decimal. */
  lemma LargestOrderExample()
    ensures Parse("a||" + NatToDecimal(0x7FFF_FFFF) + "||x") == Some(Fields("a", 0x7FFF_FFFF, "x"))
  {
    var g := NatToDecimal(0x7FFF_FFFF);
    assert DigitsValue(g) == Int32Max;
    assert "a||" + g + "||x" == "a" + Delimiter + g + Delimiter + "x";
    RemainderVerbatim("a", g, "x");
  }

  /** One more than 2147483647 overflows `Convert.ToInt32`. */
  lemma OverflowExample()
    ensures Parse("a||" + NatToDecimal(0x8000_0000) + "||x") == None
  {
    var g := NatToDecimal(0x8000_0000);
    assert DigitsValue(g) > Int32Max;
    assert "a||" + g + "||x" == "a" + Delimiter + g + Delimiter + "x";
    OverflowRejected("a", g, "x");
  }

  /** Leading zeros parse. */
  lemma LeadingZerosExample()
    ensures Parse("a||007||x") == Some(Fields("a", 7, "x"))
  {
    assert "007"[..2] == "00" && "00"[..1] == "0";
    assert DigitsValue("007") == 7;
    assert "a" + Delimiter + "007" + Delimiter + "x" == "a||007||x";
    RemainderVerbatim("a", "007", "x");
  }

  /** Serialising what was parsed from "a||007||x" drops the zeros. */
  lemma LeadingZerosDroppedExample()
    ensures Serialize(Fields("a", 7, "x")) == "a||7||x"
  {
  }

  lemma FinalLineFeedExample()
    ensures Parse("a||1||x\n") == Some(Fields("a", 1, "x"))
  {
    assert DigitsValue("1") == 1;
    assert "a" + Delimiter + "1" + Delimiter + "x" + "\n" == "a||1||x\n";
    ParseComplete("a||1||x\n", "a", "1", "x");
  }

  lemma InnerLineFeedExample()
    ensures Parse("a||1||x\ny") == None
  {
    assert "a" + Delimiter + "1" + Delimiter + "x" + "\n" + "y" == "a||1||x\ny";
    InnerLineFeedRejected("a", "1", "x", "y");
  }

  /** A default name holding the delimiter does not survive the round trip. */
  lemma DelimiterCollisionExample()
    ensures Parse(Serialize(Fields("a||5", 3, "x"))) == Some(Fields("a", 5, "3||x"))
  {
    assert Serialize(Fields("a||5", 3, "x")) == "a||5||3||x";
    assert IsWordRun("a") && DigitsValue("5") == 5;
    assert "a" + Delimiter + "5" + Delimiter + "3||x" == "a||5||3||x";
    RemainderVerbatim("a", "5", "3||x");
  }

  /** A negative order is written out, but that text is refused. */
  lemma NegativeOrderExample()
    ensures Serialize(Fields("field", -1, "Fields")) == "field||-1||Fields"
    ensures Parse("field||-1||Fields") == None
  {
    assert Int32ToDecimal(-1) == "-1";
    NegativeOrderNeverParses(Fields("field", -1, "Fields"));
  }
}
