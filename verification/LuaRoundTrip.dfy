/** Lexing and parsing the printed form gives back the expression that was printed,
    at every indentation level. */
module LuaRoundTrip {
  import opened Prelude
  import opened LuaSyntax
  import opened LuaPrinter

  // ------------------------------------------------------- fixed pieces

  lemma {:induction false} LexTabs(n: nat, rest: string)
    ensures Lex(Tabs(n) + rest) == Lex(rest)
  {
    if n == 0 {
      assert Tabs(n) + rest == rest;
    } else {
      LexTabs(n - 1, rest);
      Assoc("\t", Tabs(n - 1), rest);
      LexSpace('\t', Tabs(n - 1) + rest);
    }
  }

  lemma LexEquals(space: char, rest: string)
    requires IsSpace(space)
    ensures Lex([' ', '=', space] + rest) == Prepend([TSym('=')], Lex(rest))
  {
    var a := [space] + rest;
    var b := ['='] + a;
    assert [' ', '=', space] + rest == [' '] + b;
    LexSpace(' ', b);
    LexSymbol('=', a);
    LexSpace(space, rest);
  }

  /** An opening brace or a comma, followed by a line break. */
  lemma LexSymbolLine(c: char, rest: string)
    requires c == '{' || c == ','
    ensures Lex([c, '\n'] + rest) == Prepend([TSym(c)], Lex(rest))
  {
    assert [c, '\n'] + rest == [c] + (['\n'] + rest);
    LexSymbol(c, ['\n'] + rest);
    LexSpace('\n', rest);
  }

  lemma LexClosing(tabs: nat, rest: string)
    ensures Lex(("\n" + (Tabs(tabs) + "}")) + rest) == Prepend([TSym('}')], Lex(rest))
  {
    var a := ['}'] + rest;
    assert ("\n" + (Tabs(tabs) + "}")) + rest == ['\n'] + (Tabs(tabs) + a);
    LexSpace('\n', Tabs(tabs) + a);
    LexTabs(tabs, a);
    LexSymbol('}', rest);
  }

  // ------------------------------------------------------------- scalars

  lemma {:induction false} DigitsOfDecimal(n: nat)
    ensures Digits(Decimal(n)) == n
  {
    var s := Decimal(n);
    var last := [('0' as int + n % 10) as char];
    if n < 10 {
      assert s == last && s[..|s| - 1] == "";
    } else {
      DigitsOfDecimal(n / 10);
      assert s == Decimal(n / 10) + last;
      assert s[..|s| - 1] == Decimal(n / 10);
    }
    assert s[|s| - 1] == last[0];
  }

  lemma {:induction false} LexMinus(body: string, n: nat, tail: Option<seq<Token>>)
    requires body != "" && body[0] != '-' && Lex(body) == Prepend([TNum(n)], tail)
    ensures Lex(['-'] + body) == Prepend([TSym('-'), TNum(n)], tail)
  {
    LexSymbol('-', body);
    PrependTwice([TSym('-')], [TNum(n)], tail);
    assert [TSym('-')] + [TNum(n)] == [TSym('-'), TNum(n)];
  }

  lemma {:induction false} LexDecimal(n: nat, rest: string)
    requires Breaks(rest)
    ensures Lex(Decimal(n) + rest) == Prepend([TNum(n)], Lex(rest))
  {
    DigitsOfDecimal(n);
    LexDigits(Decimal(n), rest);
  }

  lemma {:induction false} LexNegative(m: nat, rest: string)
    requires m > 0 && Breaks(rest)
    ensures Lex(['-'] + (Decimal(m) + rest)) == Prepend([TSym('-'), TNum(m)], Lex(rest))
  {
    LexDecimal(m, rest);
    var body := Decimal(m) + rest;
    assert body[0] == Decimal(m)[0] && IsDigit(body[0]);
    LexMinus(body, m, Lex(rest));
  }

  lemma {:induction false} LexNegativeText(text: string, m: nat, rest: string)
    requires m > 0 && text == ['-'] + Decimal(m) && Breaks(rest)
    ensures Lex(text + rest) == Prepend([TSym('-'), TNum(m)], Lex(rest))
  {
    Assoc(['-'], Decimal(m), rest);
    LexNegative(m, rest);
  }

  lemma {:induction false} LexNumber(n: int, rest: string)
    requires Breaks(rest)
    ensures Lex(Scalar(ENum(n)) + rest) == Prepend(Toks(ENum(n)), Lex(rest))
  {
    if n < 0 {
      LexNegativeText(Scalar(ENum(n)), -n, rest);
    } else {
      LexDecimal(n, rest);
    }
  }

  /** Reading undoes the escaping of std::quoted. */
  lemma {:induction false} UnescapeOfEscape(s: string, rest: string)
    requires OneLine(s)
    ensures LexString(Escape(s) + rest, '"') == Further(s, |Escape(s)|, LexString(rest, '"'))
  {
    if s == "" {
      assert Escape(s) + rest == rest;
      assert forall text: string :: "" + text == text;
    } else {
      var tail := Escape(s[1..]) + rest;
      UnescapeOfEscape(s[1..], rest);
      assert s == [s[0]] + s[1..];
      if s[0] == '"' || s[0] == '\\' {
        Assoc(['\\', s[0]], Escape(s[1..]), rest);
        LexEscapedChar(s[0], tail, '"');
        FurtherTwice([s[0]], 2, s[1..], |Escape(s[1..])|, LexString(rest, '"'));
      } else {
        Assoc([s[0]], Escape(s[1..]), rest);
        LexPlainChar(s[0], tail, '"');
        FurtherTwice([s[0]], 1, s[1..], |Escape(s[1..])|, LexString(rest, '"'));
      }
    }
  }

  lemma ClosingQuote(rest: string)
    ensures LexString(['"'] + rest, '"') == Some(("", 1))
  {
  }

  lemma LexQuotedString(s: string, rest: string)
    requires OneLine(s)
    ensures Lex(Quoted(s) + rest) == Prepend([TStr(s)], Lex(rest))
  {
    UnescapeOfEscape(s, ['"'] + rest);
    ClosingQuote(rest);
    assert s + "" == s;
    Assoc(Escape(s), ['"'], rest);
    LexQuotedBody(Escape(s), s, '"', rest);
    Assoc(['"'], Escape(s) + ['"'], rest);
  }

  lemma LexScalar(e: Exp, rest: string)
    requires WellFormed(e) && !e.ETable? && Breaks(rest)
    ensures Lex(Scalar(e) + rest) == Prepend(Toks(e), Lex(rest))
  {
    match e
    case ENil => LexName("nil", rest);
    case EBool(b) => LexName(if b then "true" else "false", rest);
    case ENum(n) => LexNumber(n, rest);
    case EStr(s) => LexQuotedString(s, rest);
  }

  // --------------------------------------------------- the whole printed form

  predicate GoodLabel(name: string) { name == "" || IsIdentifier(name) }

  lemma LexLabel(name: string, space: char, rest: string)
    requires IsIdentifier(name) && IsSpace(space)
    ensures Lex((name + [' ', '=', space]) + rest) == Prepend(NameToks(name), Lex(rest))
  {
    var a := [' ', '=', space] + rest;
    assert (name + [' ', '=', space]) + rest == name + a;
    LexName(name, a);
    LexEquals(space, rest);
    PrependTwice([TName(name)], [TSym('=')], Lex(rest));
    assert [TName(name)] + [TSym('=')] == NameToks(name);
  }

  lemma LexOpening(name: string, tabs: nat, rest: string)
    requires GoodLabel(name)
    ensures Lex(Opening(name, tabs) + rest) == Prepend(NameToks(name) + [TSym('{')], Lex(rest))
  {
    var line := Tabs(tabs) + "{\n";
    LexBraceLine(tabs, rest);
    if name == "" {
      assert Opening(name, tabs) == line;
      assert NameToks(name) + [TSym('{')] == [TSym('{')];
    } else {
      var heading := name + " =\n";
      Assoc(Tabs(tabs) + heading, line, rest);
      Assoc(Tabs(tabs), heading, line + rest);
      LexTabs(tabs, heading + (line + rest));
      LexLabel(name, '\n', line + rest);
      PrependTwice(NameToks(name), [TSym('{')], Lex(rest));
    }
  }

  lemma LexBraceLine(tabs: nat, rest: string)
    ensures Lex((Tabs(tabs) + "{\n") + rest) == Prepend([TSym('{')], Lex(rest))
  {
    Assoc(Tabs(tabs), "{\n", rest);
    LexTabs(tabs, "{\n" + rest);
    LexSymbolLine('{', rest);
  }

  lemma LexLabelled(value: string, ts: seq<Token>, name: string, tabs: nat, rest: string)
    requires GoodLabel(name) && Lex(value + rest) == Prepend(ts, Lex(rest))
    ensures Lex((Tabs(tabs) + ((if name == "" then "" else name + " = ") + value)) + rest)
         == Prepend(NameToks(name) + ts, Lex(rest))
  {
    var all := (Tabs(tabs) + ((if name == "" then "" else name + " = ") + value)) + rest;
    if name == "" {
      assert all == Tabs(tabs) + (value + rest);
      LexTabs(tabs, value + rest);
      assert NameToks(name) + ts == ts;
    } else {
      var labelled := (name + " = ") + (value + rest);
      assert all == Tabs(tabs) + labelled;
      LexTabs(tabs, labelled);
      LexLabel(name, ' ', value + rest);
      PrependTwice(NameToks(name), ts, Lex(rest));
    }
  }

  /** Three stretches of text, each lexed with what follows it. */
  lemma LexThree(a: string, b: string, c: string, x: seq<Token>, y: seq<Token>, z: seq<Token>, rest: string)
    requires Lex(a + (b + (c + rest))) == Prepend(x, Lex(b + (c + rest)))
    requires Lex(b + (c + rest)) == Prepend(y, Lex(c + rest))
    requires Lex(c + rest) == Prepend(z, Lex(rest))
    ensures Lex((a + (b + c)) + rest) == Prepend(x + (y + z), Lex(rest))
  {
    Assoc(b, c, rest);
    Assoc(a, b + c, rest);
    PrependTwice(y, z, Lex(rest));
    PrependTwice(x, y + z, Lex(rest));
  }

  lemma TableToks(name: seq<Token>, fields: seq<Token>)
    ensures name + [TSym('{')] + (fields + [TSym('}')]) == name + ([TSym('{')] + fields + [TSym('}')])
  {
  }

  /** The tokens of the printed form are those of the expression, whatever the
      indentation. */
  lemma {:induction false} LexRender(e: Exp, name: string, tabs: nat, rest: string)
    requires WellFormed(e) && GoodLabel(name) && Breaks(rest)
    ensures Lex(Render(e, name, tabs) + rest) == Prepend(NameToks(name) + Toks(e), Lex(rest))
    decreases e, 1
  {
    if e.ETable? {
      var inside, closing := RenderFields(e.fields, tabs + 1), "\n" + (Tabs(tabs) + "}");
      var fields := FieldsToks(e.fields);
      LexOpening(name, tabs, inside + (closing + rest));
      LexRenderFields(e.fields, tabs + 1, closing + rest);
      LexClosing(tabs, rest);
      LexThree(Opening(name, tabs), inside, closing, NameToks(name) + [TSym('{')], fields, [TSym('}')], rest);
      TableToks(NameToks(name), fields);
    } else {
      LexScalar(e, rest);
      LexLabelled(Scalar(e), Toks(e), name, tabs, rest);
    }
  }

  lemma {:induction false} LexRenderField(f: Field, tabs: nat, rest: string)
    requires FieldWellFormed(f) && Breaks(rest)
    ensures Lex(RenderField(f, tabs) + rest) == Prepend(FieldToks(f), Lex(rest))
    decreases f, 2
  {
    match f
    case Named(name, e) => LexRender(e, name, tabs, rest);
    case Pos(e) =>
      LexRender(e, "", tabs, rest);
      assert NameToks("") + Toks(e) == Toks(e);
  }

  lemma {:induction false} LexRenderFields(fs: seq<Field>, tabs: nat, rest: string)
    requires AllWellFormed(fs) && Breaks(rest)
    ensures Lex(RenderFields(fs, tabs) + rest) == Prepend(FieldsToks(fs), Lex(rest))
    decreases fs, 0
  {
    if fs == [] {
      assert RenderFields(fs, tabs) + rest == rest;
      PrependNothing(Lex(rest));
    } else if |fs| == 1 {
      LexRenderField(fs[0], tabs, rest);
    } else {
      var first, more := RenderField(fs[0], tabs), RenderFields(fs[1..], tabs);
      LexRenderField(fs[0], tabs, ",\n" + (more + rest));
      LexSymbolLine(',', more + rest);
      LexRenderFields(fs[1..], tabs, rest);
      LexThree(first, ",\n", more, FieldToks(fs[0]), [TSym(',')], FieldsToks(fs[1..]), rest);
      Assoc(FieldToks(fs[0]), [TSym(',')], FieldsToks(fs[1..]));
    }
  }

  /** Reading a printed assignment, followed by more text, gives the assignment. */
  lemma ReadRender(e: Exp, name: string, tabs: nat)
    requires WellFormed(e) && IsIdentifier(name)
    ensures Read(Render(e, name, tabs)) == Some([Assignment(name, e)])
  {
    assert Render(e, name, tabs) + "" == Render(e, name, tabs);
    LexRender(e, name, tabs, "");
    var ts := NameToks(name) + Toks(e);
    assert ts + [] == ts;
    GoodNames(e);
    ParseAssignment(name, e, []);
    assert [Assignment(name, e)] + [] == [Assignment(name, e)];
  }

  lemma ParseAssignment(name: string, e: Exp, rest: seq<Token>)
    requires NamesGood(e) && IsIdentifier(name)
    ensures ParseChunk(NameToks(name) + Toks(e) + rest) ==
      match ParseChunk(rest) case None => None case Some(more) => Some([Assignment(name, e)] + more)
  {
    var ts := NameToks(name) + Toks(e) + rest;
    assert ts[2..] == Toks(e) + rest;
    ParseOfToks(e, rest);
  }

  // ------------------------------------------- strings that span lines do not

  /** std::quoted leaves a line break raw, and the lexer stops there. */
  lemma {:induction false} UnreadableString(s: string, rest: string)
    requires !OneLine(s)
    ensures LexString(Escape(s) + rest, '"') == None
  {
    var c := if s[0] == '"' || s[0] == '\\' then ['\\', s[0]] else [s[0]];
    Assoc(c, Escape(s[1..]), rest);
    var tail := Escape(s[1..]) + rest;
    assert (c + tail)[|c|..] == tail && (c + tail)[0] == c[0];
    assert s == [s[0]] + s[1..];
    if s[0] != '\n' && s[0] != '\r' {
      UnreadableString(s[1..], rest);
    }
  }

  lemma UnreadableScalar(s: string, name: string, tabs: nat, rest: string)
    requires !OneLine(s) && GoodLabel(name)
    ensures Lex(Render(EStr(s), name, tabs) + rest) == None
  {
    var text := Quoted(s) + rest;
    UnreadableString(s, ['"'] + rest);
    Assoc(Escape(s), ['"'], rest);
    Assoc(['"'], Escape(s) + ['"'], rest);
    assert text[0] == '"' && text[1..] == Escape(s) + (['"'] + rest);
    assert Lex(text) == None;
    if name == "" {
      assert "" + Quoted(s) == Quoted(s);
      Assoc(Tabs(tabs), Quoted(s), rest);
      LexTabs(tabs, text);
    } else {
      Assoc(name + " = ", Quoted(s), rest);
      Assoc(Tabs(tabs), (name + " = ") + Quoted(s), rest);
      LexTabs(tabs, (name + " = ") + text);
      LexLabel(name, ' ', text);
    }
  }

  /** One string with a raw line break anywhere makes the whole text unreadable. */
  lemma {:induction false} UnreadableRender(e: Exp, name: string, tabs: nat, rest: string)
    requires NamesGood(e) && !WellFormed(e) && GoodLabel(name) && Breaks(rest)
    ensures Lex(Render(e, name, tabs) + rest) == None
    decreases e, 1
  {
    if e.ETable? {
      var inside, closing := RenderFields(e.fields, tabs + 1), "\n" + (Tabs(tabs) + "}");
      Assoc(inside, closing, rest);
      Assoc(Opening(name, tabs), inside + closing, rest);
      LexOpening(name, tabs, inside + (closing + rest));
      UnreadableFields(e.fields, tabs + 1, closing + rest);
    } else {
      UnreadableScalar(e.s, name, tabs, rest);
    }
  }

  lemma {:induction false} UnreadableField(f: Field, tabs: nat, rest: string)
    requires FieldNamesGood(f) && !FieldWellFormed(f) && Breaks(rest)
    ensures Lex(RenderField(f, tabs) + rest) == None
    decreases f, 2
  {
    match f
    case Named(name, e) => UnreadableRender(e, name, tabs, rest);
    case Pos(e) => UnreadableRender(e, "", tabs, rest);
  }

  lemma {:induction false} UnreadableFields(fs: seq<Field>, tabs: nat, rest: string)
    requires AllNamesGood(fs) && !AllWellFormed(fs) && Breaks(rest)
    ensures Lex(RenderFields(fs, tabs) + rest) == None
    decreases fs, 0
  {
    if |fs| == 1 {
      UnreadableField(fs[0], tabs, rest);
    } else {
      var first, more := RenderField(fs[0], tabs), RenderFields(fs[1..], tabs);
      var after := ",\n" + (more + rest);
      Assoc(",\n", more, rest);
      Assoc(first, ",\n" + more, rest);
      if FieldWellFormed(fs[0]) {
        LexRenderField(fs[0], tabs, after);
        LexSymbolLine(',', more + rest);
        UnreadableFields(fs[1..], tabs, rest);
      } else {
        UnreadableField(fs[0], tabs, after);
      }
    }
  }

  // --------------------------------------------------- line breaks and CR

  /** A character occurs in a name or a string of the expression. */
  predicate Holds(e: Exp, c: char)
    decreases e, 1
  {
    match e
    case EStr(s) => c in s
    case ETable(fields) => FieldsHold(fields, c)
    case _ => false
  }

  predicate FieldHolds(f: Field, c: char)
    decreases f, 2
  {
    match f
    case Named(name, e) => c in name || Holds(e, c)
    case Pos(e) => Holds(e, c)
  }

  predicate FieldsHold(fs: seq<Field>, c: char)
    decreases fs, 0
  {
    fs != [] && (FieldHolds(fs[0], c) || FieldsHold(fs[1..], c))
  }

  /** Characters the printer never writes of its own accord. */
  predicate Foreign(c: char) { c == '\r' || c == NUL }

  lemma {:induction false} ForeignInTabs(n: nat, c: char)
    requires Foreign(c)
    ensures c !in Tabs(n)
  {
    if n > 0 {
      ForeignInTabs(n - 1, c);
    }
  }

  lemma {:induction false} ForeignInEscape(s: string, c: char)
    requires Foreign(c)
    ensures c in Escape(s) <==> c in s
  {
    if s != "" {
      ForeignInEscape(s[1..], c);
      assert s == [s[0]] + s[1..];
    }
  }

  lemma ForeignInScalar(e: Exp, c: char)
    requires Foreign(c) && !e.ETable?
    ensures c in Scalar(e) <==> Holds(e, c)
  {
    match e
    case ENil =>
    case EBool(_) =>
    case ENum(n) => assert !IsDigit(c);
    case EStr(s) => ForeignInEscape(s, c);
  }

  /** The printed form contains CR (or NUL) if and only if some key or string does. */
  lemma {:induction false} ForeignInRender(e: Exp, name: string, tabs: nat, c: char)
    requires Foreign(c)
    ensures c in Render(e, name, tabs) <==> c in name || Holds(e, c)
    decreases e, 1
  {
    ForeignInTabs(tabs, c);
    if e.ETable? {
      ForeignInFields(e.fields, tabs + 1, c);
      ForeignInOpening(name, tabs, c);
    } else {
      ForeignInScalar(e, c);
    }
  }

  lemma ForeignInOpening(name: string, tabs: nat, c: char)
    requires Foreign(c)
    ensures c in Opening(name, tabs) <==> c in name
  {
    ForeignInTabs(tabs, c);
  }

  lemma {:induction false} ForeignInField(f: Field, tabs: nat, c: char)
    requires Foreign(c)
    ensures c in RenderField(f, tabs) <==> FieldHolds(f, c)
    decreases f, 2
  {
    match f
    case Named(name, e) => ForeignInRender(e, name, tabs, c);
    case Pos(e) => ForeignInRender(e, "", tabs, c);
  }

  lemma {:induction false} ForeignInFields(fs: seq<Field>, tabs: nat, c: char)
    requires Foreign(c)
    ensures c in RenderFields(fs, tabs) <==> FieldsHold(fs, c)
    decreases fs, 0
  {
    if fs != [] {
      ForeignInField(fs[0], tabs, c);
      ForeignInFields(fs[1..], tabs, c);
    }
  }
}
