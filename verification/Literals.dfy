/** Texts in full: what a printed table and a reply line look like, and what the reader makes
    of each escape. */
module Literals {
  import opened Prelude
  import opened LuaSyntax
  import opened LuaPrinter
  import opened QueryReply

  // ------------------------------------------------------------- printed text

  const INNER: Exp := ETable([Pos(ENum(-12)), Pos(EBool(false))])
  const OUTER: Exp := ETable([Named("name", EStr("a\"b\\")), Named("inner", INNER)])

  lemma TabsText()
    ensures Tabs(0) == "" && Tabs(1) == "\t" && Tabs(2) == "\t\t"
  {
    assert Tabs(1) == "\t" + Tabs(0);
    assert Tabs(2) == "\t" + Tabs(1);
  }

  lemma NumberText()
    ensures Scalar(ENum(-12)) == "-12" && Scalar(ENum(0)) == "0" && Scalar(EBool(false)) == "false"
    ensures Scalar(EBool(true)) == "true" && Scalar(ENil) == "nil"
  {
    assert Decimal(1) == "1" && Decimal(12) == Decimal(1) + "2";
    assert Decimal(0) == "0";
  }

  lemma StringText()
    ensures Scalar(EStr("a\"b\\")) == "\"a\\\"b\\\\\""
  {
    var s := "a\"b\\";
    assert s[1..] == "\"b\\" && "\"b\\"[1..] == "b\\" && "b\\"[1..] == "\\" && "\\"[1..] == "";
    assert Escape("\\") == "\\\\" + Escape("");
    assert Escape("b\\") == "b" + Escape("\\");
    assert Escape("\"b\\") == "\\\"" + Escape("b\\");
    assert Escape(s) == "a" + Escape("\"b\\");
  }

  lemma InnerFields()
    ensures RenderFields(INNER.fields, 2) == "\t\t-12" + (",\n" + "\t\tfalse")
  {
    TabsText();
    NumberText();
    var fs := INNER.fields;
    assert fs[1..] == [Pos(EBool(false))];
    assert RenderField(fs[0], 2) == "\t\t" + ("" + "-12");
    assert RenderField(fs[1], 2) == "\t\t" + ("" + "false");
    assert RenderFields(fs, 2) == RenderField(fs[0], 2) + (",\n" + RenderFields(fs[1..], 2));
  }

  lemma InnerOpening()
    ensures Opening("inner", 1) == "\tinner =\n" + "\t{\n"
  {
    TabsText();
  }

  lemma InnerText()
    ensures Render(INNER, "inner", 1) == INNER_LINES
  {
    TabsText();
    InnerOpening();
    InnerFields();
  }

  const NAME_LINE: string := "\tname = \"a\\\"b\\\\\""
  const INNER_LINES: string := "\tinner =\n" + "\t{\n" + ("\t\t-12" + (",\n" + "\t\tfalse") + ("\n" + ("\t" + "}")))

  lemma NameText()
    ensures RenderField(OUTER.fields[0], 1) == NAME_LINE
  {
    TabsText();
    StringText();
    assert RenderField(OUTER.fields[0], 1) == "\t" + ("name = " + "\"a\\\"b\\\\\"");
  }

  lemma OuterFields()
    ensures RenderFields(OUTER.fields, 1) == NAME_LINE + (",\n" + INNER_LINES)
  {
    NameText();
    InnerText();
    var fs := OUTER.fields;
    assert fs[1..] == [Named("inner", INNER)];
    assert RenderFields(fs, 1) == RenderField(fs[0], 1) + (",\n" + RenderFields(fs[1..], 1));
  }

  /** A table in a table, as it is printed. */
  lemma PrintedText()
    ensures Render(OUTER, "t", 0) == "t =\n{\n" + (NAME_LINE + (",\n" + INNER_LINES) + "\n}")
  {
    TabsText();
    OuterFields();
    OpeningText();
    assert "" + "}" == "}" && "\n" + "}" == "\n}";
  }

  lemma OpeningText()
    ensures Opening("t", 0) == "t =\n{\n"
  {
    assert Tabs(0) == "";
  }

  lemma ReplyLineText()
    ensures ResponseLine("success") == "response = 'success'\n"
  {
  }

  // ------------------------------------------------------------- escapes read

  /** Section 3.1 of the Lua 5.4 Reference Manual, escape by escape: what each stands for and
      how many characters after the backslash it takes. */
  lemma FixedEscapes()
    ensures EscapeOf("n") == Some(([10 as char], 1)) && EscapeOf("t") == Some(([9 as char], 1))
    ensures EscapeOf("r") == Some(([13 as char], 1)) && EscapeOf("a") == Some(([7 as char], 1))
    ensures EscapeOf("b") == Some(([8 as char], 1)) && EscapeOf("v") == Some(([11 as char], 1))
    ensures EscapeOf("f") == Some(([12 as char], 1)) && EscapeOf("\\") == Some(([92 as char], 1))
    ensures EscapeOf("\"") == Some(([34 as char], 1)) && EscapeOf("'") == Some(([39 as char], 1))
    ensures EscapeOf("q") == None && EscapeOf("") == None
  {
  }

  lemma HexEscapes()
    ensures EscapeOf("x4f!") == Some(("O", 3)) && EscapeOf("x4g") == None
  {
    assert "x4f!"[1] == '4' && "x4f!"[2] == 'f' && HexValue('4') == 4 && HexValue('f') == 15;
  }

  lemma DecimalEscapes()
    ensures EscapeOf("0659") == Some(("A", 3)) && EscapeOf("9z") == Some(([9 as char], 1)) && EscapeOf("256") == None
  {
    DigitsAt("0659", 4);
    assert "0659"[..3] == "065" && "065"[..2] == "06" && "06"[..1] == "0" && "0"[..0] == "";
    DigitsAt("9z", 1);
    assert "9z"[..1] == "9" && "9"[..0] == "";
    DigitsAt("256", 3);
    assert "256"[..3] == "256" && "256"[..2] == "25" && "25"[..1] == "2" && "2"[..0] == "";
  }

  lemma {:induction false} DigitsAt(s: string, n: nat)
    requires n <= |s| && (forall i :: 0 <= i < n ==> IsDigit(s[i])) && (n < |s| ==> !IsDigit(s[n]))
    ensures DigitsLength(s) == n
  {
    if n > 0 {
      DigitsAt(s[1..], n - 1);
    }
  }

  lemma SpaceEscapes()
    ensures EscapeOf("z \n\tx") == Some(("", 4)) && EscapeOf("\nx") == Some(("\n", 1))
    ensures EscapeOf("\r\nx") == Some(("\n", 2)) && EscapeOf("\n\n") == Some(("\n", 1))
  {
    assert "z \n\tx"[1..] == " \n\tx" && " \n\tx"[1..] == "\n\tx" && "\n\tx"[1..] == "\tx" && "\tx"[1..] == "x";
    assert SpaceLength("x") == 0;
    assert SpaceLength("\tx") == 1;
    assert SpaceLength("\n\tx") == 2;
  }

  /** The euro sign, in three bytes. */
  lemma CodePointEscape()
    ensures EscapeOf("u{20AC}.") == Some(([0xe2 as char, 0x82 as char, 0xac as char], 7))
    ensures EscapeOf("u20AC") == None
  {
    var s := "{20AC}.";
    assert "u{20AC}."[1..] == s && "u20AC"[1..] == "20AC";
    HexAt(s[1..], 4);
    assert s[1..][..4] == "20AC";
    EuroDigits();
    EuroBytes();
  }

  lemma EuroDigits()
    ensures Hex("20AC") == 8364
  {
    assert "20AC"[..3] == "20A" && "20A"[..2] == "20" && "20"[..1] == "2" && "2"[..0] == "";
    assert Hex("2") == 2 && Hex("20") == 32;
    assert Hex("20A") == 522;
  }

  lemma EuroBytes()
    ensures Utf8(8364) == [0xe2 as char, 0x82 as char, 0xac as char]
  {
    assert Continuation(130, 1) == Continuation(2, 0) + [0x82 as char];
    assert Continuation(8364, 2) == Continuation(130, 1) + [0xac as char];
  }

  lemma {:induction false} HexAt(s: string, n: nat)
    requires n <= |s| && (forall i :: 0 <= i < n ==> IsHex(s[i])) && (n < |s| ==> !IsHex(s[n]))
    ensures HexLength(s) == n
  {
    if n > 0 {
      HexAt(s[1..], n - 1);
    }
  }
}
