/** The client's request builders, and what the server's handlers read from them. */
module ClientRequests {
  import opened Prelude
  import opened LuaSyntax
  import opened LuaPrinter
  import opened LuaRoundTrip
  import opened LuaMeaning
  import opened LuaExact
  import opened LuaRaw
  import opened Framing
  import opened QueryReply

  // ------------------------------------------------------------- QString::arg

  /** The many-argument QString::arg: every place marker of the template is replaced in
      one pass, so markers inside an argument are left alone. */
  function Arg(template: string, args: seq<string>): string {
    if template == "" then ""
    else if template[0] == '%' && |template| > 1 && '1' <= template[1] <= '9' && DigitValue(template[1]) <= |args| then
      args[DigitValue(template[1]) - 1] + Arg(template[2..], args)
    else [template[0]] + Arg(template[1..], args)
  }

  datatype Piece = Lit(text: string) | Mark(k: nat)

  predicate GoodPieces(pieces: seq<Piece>, count: nat) {
    forall p :: p in pieces ==> if p.Lit? then '%' !in p.text else 1 <= p.k <= 9 && p.k <= count
  }

  function PieceText(p: Piece): string {
    match p case Lit(text) => text case Mark(k) => ['%', ('0' as int + k % 10) as char]
  }

  function TemplateText(pieces: seq<Piece>): string {
    if pieces == [] then "" else PieceText(pieces[0]) + TemplateText(pieces[1..])
  }

  function FillPiece(p: Piece, args: seq<string>): string {
    match p case Lit(text) => text case Mark(k) => if 1 <= k <= |args| then args[k - 1] else ""
  }

  function Fill(pieces: seq<Piece>, args: seq<string>): string {
    if pieces == [] then "" else FillPiece(pieces[0], args) + Fill(pieces[1..], args)
  }

  lemma {:induction false} ArgKeepsLiteral(text: string, rest: string, args: seq<string>)
    requires '%' !in text
    ensures Arg(text + rest, args) == text + Arg(rest, args)
  {
    if text == "" {
      assert text + rest == rest;
      assert "" + Arg(rest, args) == Arg(rest, args);
    } else {
      assert (text + rest)[1..] == text[1..] + rest;
      ArgKeepsLiteral(text[1..], rest, args);
      assert text[0] in text && text == [text[0]] + text[1..];
    }
  }

  lemma {:induction false} ArgFillsMark(k: nat, rest: string, args: seq<string>)
    requires 1 <= k <= 9 && k <= |args|
    ensures Arg(PieceText(Mark(k)) + rest, args) == args[k - 1] + Arg(rest, args)
  {
    var c := ('0' as int + k) as char;
    var t := ['%', c] + rest;
    assert DigitValue(c) == k && '1' <= c <= '9';
    assert t[0] == '%' && t[1] == c && t[2..] == rest;
    assert PieceText(Mark(k)) == ['%', c];
  }

  /** Substitution is simultaneous: whatever the arguments contain, each marker of the
      template becomes exactly its argument. */
  lemma {:induction false} ArgFills(pieces: seq<Piece>, args: seq<string>)
    requires GoodPieces(pieces, |args|)
    ensures Arg(TemplateText(pieces), args) == Fill(pieces, args)
  {
    if pieces != [] {
      var rest := TemplateText(pieces[1..]);
      assert pieces[0] in pieces && forall p :: p in pieces[1..] ==> p in pieces;
      ArgFills(pieces[1..], args);
      if pieces[0].Lit? {
        ArgKeepsLiteral(pieces[0].text, rest, args);
      } else {
        ArgFillsMark(pieces[0].k, rest, args);
      }
    }
  }

  lemma {:induction false} FillAppend(a: seq<Piece>, b: seq<Piece>, args: seq<string>)
    ensures Fill(a + b, args) == Fill(a, args) + Fill(b, args)
  {
    if a == [] {
      assert a + b == b;
    } else {
      assert (a + b)[1..] == a[1..] + b;
      FillAppend(a[1..], b, args);
    }
  }

  // ------------------------------------------------------ shape of a request

  datatype Slot = TextSlot(name: string, k: nat) | NumberSlot(name: string, k: nat)

  /** name = 'word' and a space; name = '%k'; or name = {<tab>slot,<tab>slot...}. */
  datatype Part =
    | WordPart(name: string, word: string)
    | TextPart(name: string, k: nat)
    | TablePart(name: string, slots: seq<Slot>)

  datatype Argument = Text(s: string) | Number(n: int)

  function ArgumentText(a: Argument): string {
    match a case Text(s) => s case Number(n) => Scalar(ENum(n))
  }

  function Texts(args: seq<Argument>): (r: seq<string>)
    ensures |r| == |args| && forall i :: 0 <= i < |args| ==> r[i] == ArgumentText(args[i])
  {
    seq(|args|, i requires 0 <= i < |args| => ArgumentText(args[i]))
  }

  function SlotPieces(s: Slot): seq<Piece> {
    match s
    case TextSlot(name, k) => [Lit("\t" + (name + " = '")), Mark(k), Lit("'")]
    case NumberSlot(name, k) => [Lit("\t" + (name + " = ")), Mark(k)]
  }

  function SlotsPieces(slots: seq<Slot>): seq<Piece> {
    if slots == [] then []
    else if |slots| == 1 then SlotPieces(slots[0])
    else SlotPieces(slots[0]) + ([Lit(",")] + SlotsPieces(slots[1..]))
  }

  function PartPieces(p: Part): seq<Piece> {
    match p
    case WordPart(name, word) => [Lit(QuotedAssignment(name, word) + " ")]
    case TextPart(name, k) => [Lit(name + " = '"), Mark(k), Lit("'")]
    case TablePart(name, slots) => [Lit(name + " = "), Lit("{")] + (SlotsPieces(slots) + [Lit("}")])
  }

  function PartsPieces(parts: seq<Part>): seq<Piece> {
    if parts == [] then [] else PartPieces(parts[0]) + PartsPieces(parts[1..])
  }

  /** The bytes the client writes for a request. */
  function RequestText(parts: seq<Part>, args: seq<Argument>): string {
    Arg(TemplateText(PartsPieces(parts) + [Lit(CRLF)]), Texts(args))
  }

  // ------------------------------------------------ what it should read back as

  /** Field strings that are read as they stand: no single quote, backslash, line break or NUL. */
  predicate GoodText(s: string) { QuoteFree(s) && '\\' !in s }

  /** Fields are pasted without escaping; one without a quote stays between its own. */
  predicate RawArguments(args: seq<Argument>) {
    forall i :: 0 <= i < |args| && args[i].Text? ==> QuoteFree(args[i].s)
  }

  predicate Readable(s: string) { Unescape(s).Some? }

  function AsRead(s: string): string { if Readable(s) then Unescape(s).value else "" }

  lemma GoodTextReads(s: string)
    requires GoodText(s)
    ensures Readable(s) && AsRead(s) == s && Plain(s)
  {
    UnescapeShrinks(s);
  }

  /** The arguments as Lua reads them. */
  function ReadArgument(a: Argument): Argument {
    match a case Text(t) => Text(AsRead(t)) case Number(_) => a
  }

  function ReadArguments(args: seq<Argument>): (r: seq<Argument>)
    ensures |r| == |args| && forall i :: 0 <= i < |args| ==> r[i] == ReadArgument(args[i])
  {
    seq(|args|, i requires 0 <= i < |args| => ReadArgument(args[i]))
  }

  predicate IsText(args: seq<Argument>, k: nat) { 1 <= k <= 9 && k <= |args| && args[k - 1].Text? }
  predicate IsNumber(args: seq<Argument>, k: nat) { 1 <= k <= 9 && k <= |args| && args[k - 1].Number? }

  /** The slot's argument is of its kind. */
  predicate Typed(s: Slot, args: seq<Argument>) {
    if s.TextSlot? then IsText(args, s.k) else IsNumber(args, s.k)
  }

  predicate GoodSlot(s: Slot, args: seq<Argument>) { IsIdentifier(s.name) && Typed(s, args) }

  predicate GoodSlots(slots: seq<Slot>, args: seq<Argument>) {
    forall i :: 0 <= i < |slots| ==> GoodSlot(slots[i], args)
  }

  predicate GoodPart(p: Part, args: seq<Argument>) {
    && IsIdentifier(p.name)
    && match p
       case WordPart(_, word) => GoodText(word) && '%' !in word
       case TextPart(_, k) => IsText(args, k)
       case TablePart(_, slots) => GoodSlots(slots, args)
  }

  predicate GoodParts(parts: seq<Part>, args: seq<Argument>) {
    forall i :: 0 <= i < |parts| ==> GoodPart(parts[i], args)
  }

  predicate SlotReadable(s: Slot, args: seq<Argument>)
    requires Typed(s, args)
  {
    s.TextSlot? ==> Readable(args[s.k - 1].s)
  }

  predicate SlotsReadable(slots: seq<Slot>, args: seq<Argument>)
    requires GoodSlots(slots, args)
  {
    forall i :: 0 <= i < |slots| ==> SlotReadable(slots[i], args)
  }

  predicate PartReadable(p: Part, args: seq<Argument>)
    requires GoodPart(p, args)
  {
    match p
    case WordPart(_, _) => true
    case TextPart(_, k) => Readable(args[k - 1].s)
    case TablePart(_, slots) => SlotsReadable(slots, args)
  }

  predicate PartsReadable(parts: seq<Part>, args: seq<Argument>)
    requires GoodParts(parts, args)
  {
    forall i :: 0 <= i < |parts| ==> PartReadable(parts[i], args)
  }

  function SlotField(s: Slot, args: seq<Argument>): Field
    requires GoodSlot(s, args)
  {
    match s
    case TextSlot(name, k) => Named(name, EStr(args[k - 1].s))
    case NumberSlot(name, k) => Named(name, ENum(args[k - 1].n))
  }

  function SlotFields(slots: seq<Slot>, args: seq<Argument>): (r: seq<Field>)
    requires GoodSlots(slots, args)
    ensures |r| == |slots| && forall i :: 0 <= i < |slots| ==> r[i] == SlotField(slots[i], args)
  {
    seq(|slots|, i requires 0 <= i < |slots| => SlotField(slots[i], args))
  }

  function PartAssignment(p: Part, args: seq<Argument>): Assignment
    requires GoodPart(p, args)
  {
    match p
    case WordPart(name, word) => Assignment(name, EStr(word))
    case TextPart(name, k) => Assignment(name, EStr(args[k - 1].s))
    case TablePart(name, slots) => Assignment(name, ETable(SlotFields(slots, args)))
  }

  function Meaning(parts: seq<Part>, args: seq<Argument>): (r: seq<Assignment>)
    requires GoodParts(parts, args)
    ensures |r| == |parts| && forall i :: 0 <= i < |parts| ==> r[i] == PartAssignment(parts[i], args)
  {
    seq(|parts|, i requires 0 <= i < |parts| => PartAssignment(parts[i], args))
  }

  // ------------------------------------------------------ the text after filling

  function SlotText(s: Slot, args: seq<Argument>): string
    requires Typed(s, args)
  {
    match s
    case TextSlot(name, k) => ['\t'] + QuotedAssignment(name, args[k - 1].s)
    case NumberSlot(name, k) => ['\t'] + ((name + " = ") + Scalar(ENum(args[k - 1].n)))
  }

  function SlotsText(slots: seq<Slot>, args: seq<Argument>): string
    requires GoodSlots(slots, args)
  {
    if slots == [] then ""
    else if |slots| == 1 then SlotText(slots[0], args)
    else SlotText(slots[0], args) + ([','] + SlotsText(slots[1..], args))
  }

  function PartText(p: Part, args: seq<Argument>): string
    requires GoodPart(p, args)
  {
    match p
    case WordPart(name, word) => QuotedAssignment(name, word) + [' ']
    case TextPart(name, k) => QuotedAssignment(name, args[k - 1].s)
    case TablePart(name, slots) => (name + " = ") + (['{'] + (SlotsText(slots, args) + ['}']))
  }

  function PartsText(parts: seq<Part>, args: seq<Argument>): string
    requires GoodParts(parts, args)
  {
    if parts == [] then "" else PartText(parts[0], args) + PartsText(parts[1..], args)
  }

  lemma FillOne(a: Piece, args: seq<string>)
    ensures Fill([a], args) == FillPiece(a, args)
  {
    assert [a][1..] == [];
    assert FillPiece(a, args) + "" == FillPiece(a, args);
  }

  lemma FillTwo(a: Piece, b: Piece, args: seq<string>)
    ensures Fill([a, b], args) == FillPiece(a, args) + FillPiece(b, args)
  {
    assert [a, b][1..] == [b];
    FillOne(b, args);
  }

  lemma FillThree(a: Piece, b: Piece, c: Piece, args: seq<string>)
    ensures Fill([a, b, c], args) == FillPiece(a, args) + (FillPiece(b, args) + FillPiece(c, args))
  {
    assert [a, b, c][1..] == [b, c];
    FillTwo(b, c, args);
  }

  lemma FillQuoted(opening: string, k: nat, args: seq<string>)
    requires 1 <= k <= |args|
    ensures Fill([Lit(opening), Mark(k), Lit("'")], args) == opening + (args[k - 1] + "'")
  {
    FillThree(Lit(opening), Mark(k), Lit("'"), args);
  }

  lemma QuoteFilled(before: string, name: string, k: nat, args: seq<Argument>)
    requires IsText(args, k)
    ensures Fill([Lit(before + (name + " = '")), Mark(k), Lit("'")], Texts(args))
         == before + QuotedAssignment(name, args[k - 1].s)
  {
    FillQuoted(before + (name + " = '"), k, Texts(args));
    QuoteText(before, name, args[k - 1].s);
  }

  lemma QuoteText(before: string, name: string, s: string)
    ensures before + (name + " = '") + (s + "'") == before + QuotedAssignment(name, s)
  {
    var opening, value := " = '", s + "'";
    assert opening == " = " + ['\''];
    Assoc(before, name + opening, value);
    Assoc(name, opening, value);
    Assoc(" = ", ['\''], value);
  }

  lemma NumberFilled(name: string, k: nat, args: seq<Argument>)
    requires IsNumber(args, k)
    ensures Fill([Lit("\t" + (name + " = ")), Mark(k)], Texts(args))
         == ['\t'] + ((name + " = ") + Scalar(ENum(args[k - 1].n)))
  {
    FillTwo(Lit("\t" + (name + " = ")), Mark(k), Texts(args));
    Assoc("\t", name + " = ", Scalar(ENum(args[k - 1].n)));
  }

  lemma SlotFilled(s: Slot, args: seq<Argument>)
    requires Typed(s, args)
    ensures Fill(SlotPieces(s), Texts(args)) == SlotText(s, args)
  {
    match s
    case TextSlot(name, k) => QuoteFilled("\t", name, k, args);
    case NumberSlot(name, k) => NumberFilled(name, k, args);
  }

  lemma {:induction false} SlotsFilled(slots: seq<Slot>, args: seq<Argument>)
    requires GoodSlots(slots, args)
    ensures Fill(SlotsPieces(slots), Texts(args)) == SlotsText(slots, args)
  {
    if slots != [] {
      SlotFilled(slots[0], args);
      if |slots| > 1 {
        SlotsFilled(slots[1..], args);
        FillAppend(SlotPieces(slots[0]), [Lit(",")] + SlotsPieces(slots[1..]), Texts(args));
        FillAppend([Lit(",")], SlotsPieces(slots[1..]), Texts(args));
        FillOne(Lit(","), Texts(args));
      }
    }
  }

  lemma PartFilled(p: Part, args: seq<Argument>)
    requires GoodPart(p, args)
    ensures Fill(PartPieces(p), Texts(args)) == PartText(p, args)
  {
    match p
    case WordPart(name, word) => FillOne(Lit(QuotedAssignment(name, word) + " "), Texts(args));
    case TextPart(name, k) =>
      assert "" + (name + " = '") == name + " = '";
      QuoteFilled("", name, k, args);
      assert "" + QuotedAssignment(name, args[k - 1].s) == QuotedAssignment(name, args[k - 1].s);
    case TablePart(name, slots) => TableFilled(name, slots, args);
  }

  lemma TableFilled(name: string, slots: seq<Slot>, args: seq<Argument>)
    requires GoodSlots(slots, args)
    ensures Fill([Lit(name + " = "), Lit("{")] + (SlotsPieces(slots) + [Lit("}")]), Texts(args))
         == (name + " = ") + (['{'] + (SlotsText(slots, args) + ['}']))
  {
    var pieces := SlotsPieces(slots);
    SlotsFilled(slots, args);
    FillAppend([Lit(name + " = "), Lit("{")], pieces + [Lit("}")], Texts(args));
    FillTwo(Lit(name + " = "), Lit("{"), Texts(args));
    FillAppend(pieces, [Lit("}")], Texts(args));
    FillOne(Lit("}"), Texts(args));
  }

  lemma {:induction false} PartsFilled(parts: seq<Part>, args: seq<Argument>)
    requires GoodParts(parts, args)
    ensures Fill(PartsPieces(parts), Texts(args)) == PartsText(parts, args)
  {
    if parts != [] {
      assert GoodPart(parts[0], args);
      PartFilled(parts[0], args);
      PartsFilled(parts[1..], args);
      FillAppend(PartPieces(parts[0]), PartsPieces(parts[1..]), Texts(args));
    }
  }

  // ---------------------------------------------------------- lexing a request

  lemma LexNumberSlot(name: string, n: int, rest: string)
    requires IsIdentifier(name) && Breaks(rest)
    ensures Lex(((name + " = ") + Scalar(ENum(n))) + rest) == Prepend(NameToks(name) + Toks(ENum(n)), Lex(rest))
  {
    var value := Scalar(ENum(n)) + rest;
    Assoc(name + " = ", Scalar(ENum(n)), rest);
    LexLabel(name, ' ', value);
    LexNumber(n, rest);
    PrependTwice(NameToks(name), Toks(ENum(n)), Lex(rest));
  }

  /** name = 'text', read with its escapes. */
  lemma {:induction false} LexRawAssignment(name: string, raw: string, rest: string)
    requires IsIdentifier(name) && QuoteFree(raw) && Readable(raw)
    ensures Lex(QuotedAssignment(name, raw) + rest) == Prepend(NameToks(name) + [TStr(AsRead(raw))], Lex(rest))
  {
    var value := ['\''] + (raw + ['\''] + rest);
    LexRawText(raw, rest);
    AssignmentText(name, raw, rest);
    LexLabel(name, ' ', value);
    PrependTwice(NameToks(name), [TStr(AsRead(raw))], Lex(rest));
  }

  lemma {:induction false} LexRawText(raw: string, rest: string)
    requires QuoteFree(raw) && Readable(raw)
    ensures Lex(['\''] + (raw + ['\''] + rest)) == Prepend([TStr(AsRead(raw))], Lex(rest))
  {
    Assoc(raw, ['\''], rest);
    BodyReads(raw, rest);
    LexQuotedBody(raw, AsRead(raw), '\'', rest);
  }

  lemma AssignmentText(name: string, raw: string, rest: string)
    ensures QuotedAssignment(name, raw) + rest == (name + [' ', '=', ' ']) + (['\''] + (raw + ['\''] + rest))
  {
  }

  lemma ReadTyped(s: Slot, args: seq<Argument>)
    requires GoodSlot(s, args)
    ensures GoodSlot(s, ReadArguments(args))
  {
  }

  lemma ReadSlots(slots: seq<Slot>, args: seq<Argument>)
    requires GoodSlots(slots, args)
    ensures GoodSlots(slots, ReadArguments(args))
  {
    forall i | 0 <= i < |slots| ensures GoodSlot(slots[i], ReadArguments(args)) {
      ReadTyped(slots[i], args);
    }
  }

  lemma ReadParts(parts: seq<Part>, args: seq<Argument>)
    requires GoodParts(parts, args)
    ensures GoodParts(parts, ReadArguments(args))
  {
    forall i | 0 <= i < |parts| ensures GoodPart(parts[i], ReadArguments(args)) {
      assert GoodPart(parts[i], args);
      if parts[i].TablePart? { ReadSlots(parts[i].slots, args); }
    }
  }

  lemma LexSlot(s: Slot, args: seq<Argument>, rest: string)
    requires GoodSlot(s, args) && RawArguments(args) && SlotReadable(s, args) && Breaks(rest)
    requires GoodSlot(s, ReadArguments(args))
    ensures Lex(SlotText(s, args) + rest) == Prepend(FieldToks(SlotField(s, ReadArguments(args))), Lex(rest))
  {
    match s
    case TextSlot(name, k) =>
      var text := QuotedAssignment(name, args[k - 1].s);
      Assoc(['\t'], text, rest);
      LexSpace('\t', text + rest);
      LexRawAssignment(name, args[k - 1].s, rest);
    case NumberSlot(name, k) =>
      var text := (name + " = ") + Scalar(ENum(args[k - 1].n));
      Assoc(['\t'], text, rest);
      LexSpace('\t', text + rest);
      LexNumberSlot(name, args[k - 1].n, rest);
  }

  lemma LexCommaBetween(first: string, second: string, a: seq<Token>, b: seq<Token>, rest: string)
    requires Lex(first + ([','] + (second + rest))) == Prepend(a, Lex([','] + (second + rest)))
    requires Lex(second + rest) == Prepend(b, Lex(rest))
    ensures Lex(first + ([','] + second) + rest) == Prepend(a + [TSym(',')] + b, Lex(rest))
  {
    assert first + ([','] + second) + rest == first + ([','] + (second + rest));
    LexSymbol(',', second + rest);
    PrependTwice([TSym(',')], b, Lex(rest));
    PrependTwice(a, [TSym(',')] + b, Lex(rest));
    assert a + ([TSym(',')] + b) == a + [TSym(',')] + b;
  }

  lemma {:induction false} LexSlots(slots: seq<Slot>, args: seq<Argument>, rest: string)
    requires GoodSlots(slots, args) && RawArguments(args) && SlotsReadable(slots, args) && Breaks(rest)
    requires GoodSlots(slots, ReadArguments(args))
    ensures Lex(SlotsText(slots, args) + rest) == Prepend(FieldsToks(SlotFields(slots, ReadArguments(args))), Lex(rest))
  {
    var fields := SlotFields(slots, ReadArguments(args));
    if slots == [] {
      assert SlotsText(slots, args) + rest == rest;
      PrependNothing(Lex(rest));
    } else if |slots| == 1 {
      LexSlot(slots[0], args, rest);
    } else {
      var first, second := SlotText(slots[0], args), SlotsText(slots[1..], args);
      assert fields[1..] == SlotFields(slots[1..], ReadArguments(args));
      LexSlot(slots[0], args, [','] + (second + rest));
      LexSlots(slots[1..], args, rest);
      LexCommaBetween(first, second, FieldToks(fields[0]), FieldsToks(fields[1..]), rest);
    }
  }

  function AssignmentToks(a: Assignment): seq<Token> { NameToks(a.name) + Toks(a.value) }

  function AssignmentsToks(chunk: seq<Assignment>): seq<Token> {
    if chunk == [] then [] else AssignmentToks(chunk[0]) + AssignmentsToks(chunk[1..])
  }

  lemma LexBraces(inside: string, ts: seq<Token>, rest: string)
    requires Lex(inside + (['}'] + rest)) == Prepend(ts, Lex(['}'] + rest))
    ensures Lex((['{'] + (inside + ['}'])) + rest) == Prepend([TSym('{')] + ts + [TSym('}')], Lex(rest))
  {
    var inner := inside + (['}'] + rest);
    assert (['{'] + (inside + ['}'])) + rest == ['{'] + inner;
    LexSymbol('{', inner);
    LexSymbol('}', rest);
    PrependTwice(ts, [TSym('}')], Lex(rest));
    PrependTwice([TSym('{')], ts + [TSym('}')], Lex(rest));
    assert [TSym('{')] + (ts + [TSym('}')]) == [TSym('{')] + ts + [TSym('}')];
  }

  lemma LexBracesLabelled(name: string, inside: string, ts: seq<Token>, rest: string)
    requires IsIdentifier(name) && Lex(inside + (['}'] + rest)) == Prepend(ts, Lex(['}'] + rest))
    ensures Lex(((name + " = ") + (['{'] + (inside + ['}']))) + rest)
         == Prepend(NameToks(name) + ([TSym('{')] + ts + [TSym('}')]), Lex(rest))
  {
    var table := ['{'] + (inside + ['}']);
    LexBraces(inside, ts, rest);
    Assoc(name + " = ", table, rest);
    LexLabel(name, ' ', table + rest);
    PrependTwice(NameToks(name), [TSym('{')] + ts + [TSym('}')], Lex(rest));
  }

  lemma LexTable(name: string, slots: seq<Slot>, args: seq<Argument>, rest: string)
    requires IsIdentifier(name) && GoodSlots(slots, args) && RawArguments(args) && SlotsReadable(slots, args)
    requires GoodSlots(slots, ReadArguments(args))
    ensures Lex(((name + " = ") + (['{'] + (SlotsText(slots, args) + ['}']))) + rest)
         == Prepend(NameToks(name) + Toks(ETable(SlotFields(slots, ReadArguments(args)))), Lex(rest))
  {
    LexSlots(slots, args, ['}'] + rest);
    LexBracesLabelled(name, SlotsText(slots, args), FieldsToks(SlotFields(slots, ReadArguments(args))), rest);
  }

  lemma LexPart(p: Part, args: seq<Argument>, rest: string)
    requires GoodPart(p, args) && RawArguments(args) && PartReadable(p, args) && GoodPart(p, ReadArguments(args))
    ensures Lex(PartText(p, args) + rest)
         == Prepend(AssignmentToks(PartAssignment(p, ReadArguments(args))), Lex(rest))
  {
    match p
    case WordPart(name, word) =>
      Assoc(QuotedAssignment(name, word), [' '], rest);
      GoodTextReads(word);
      LexQuotedAssignment(name, word, [' '] + rest);
      LexSpace(' ', rest);
    case TextPart(name, k) =>
      LexRawAssignment(name, args[k - 1].s, rest);
    case TablePart(name, slots) =>
      LexTable(name, slots, args, rest);
  }

  lemma {:induction false} LexParts(parts: seq<Part>, args: seq<Argument>, rest: string)
    requires GoodParts(parts, args) && RawArguments(args) && PartsReadable(parts, args)
    requires GoodParts(parts, ReadArguments(args))
    ensures Lex(PartsText(parts, args) + rest)
         == Prepend(AssignmentsToks(Meaning(parts, ReadArguments(args))), Lex(rest))
  {
    if parts == [] {
      assert PartsText(parts, args) + rest == rest;
      PrependNothing(Lex(rest));
    } else {
      var first, more := PartText(parts[0], args), PartsText(parts[1..], args);
      Assoc(first, more, rest);
      LexPart(parts[0], args, more + rest);
      LexParts(parts[1..], args, rest);
      var chunk := Meaning(parts, ReadArguments(args));
      assert chunk[1..] == Meaning(parts[1..], ReadArguments(args));
      PrependTwice(AssignmentToks(chunk[0]), AssignmentsToks(chunk[1..]), Lex(rest));
    }
  }

  // -------------------------------------------------------------- parsing it

  predicate GoodChunk(chunk: seq<Assignment>) {
    forall i :: 0 <= i < |chunk| ==> IsIdentifier(chunk[i].name) && NamesGood(chunk[i].value)
  }

  lemma {:induction false} ParseAssignments(chunk: seq<Assignment>)
    requires GoodChunk(chunk)
    ensures ParseChunk(AssignmentsToks(chunk)) == Some(chunk)
  {
    if chunk != [] {
      ParseAssignments(chunk[1..]);
      ParseAssignment(chunk[0].name, chunk[0].value, AssignmentsToks(chunk[1..]));
      assert chunk == [chunk[0]] + chunk[1..];
    }
  }

  lemma {:induction false} SlotFieldsGood(slots: seq<Slot>, args: seq<Argument>)
    requires GoodSlots(slots, args)
    ensures AllNamesGood(SlotFields(slots, args))
  {
    if slots != [] {
      SlotFieldsGood(slots[1..], args);
      assert SlotFields(slots, args)[1..] == SlotFields(slots[1..], args);
      assert GoodSlot(slots[0], args);
    }
  }

  lemma MeaningIsGood(parts: seq<Part>, args: seq<Argument>)
    requires GoodParts(parts, args)
    ensures GoodChunk(Meaning(parts, args))
  {
    forall i | 0 <= i < |parts|
      ensures IsIdentifier(Meaning(parts, args)[i].name) && NamesGood(Meaning(parts, args)[i].value)
    {
      assert GoodPart(parts[i], args);
      if parts[i].TablePart? { SlotFieldsGood(parts[i].slots, args); }
    }
  }

  // ------------------------------------------------- a request with its fields apart

  function SlotLayout(s: Slot, args: seq<Argument>, after: Layout): Layout
    requires Typed(s, args)
  {
    match s
    case TextSlot(name, k) => More("\t" + (name + " = "), args[k - 1].s, after)
    case NumberSlot(name, k) => Before("\t" + ((name + " = ") + Scalar(ENum(args[k - 1].n))), after)
  }

  function SlotsLayout(slots: seq<Slot>, args: seq<Argument>, after: Layout): Layout
    requires GoodSlots(slots, args)
  {
    if slots == [] then after
    else if |slots| == 1 then SlotLayout(slots[0], args, after)
    else SlotLayout(slots[0], args, Before(",", SlotsLayout(slots[1..], args, after)))
  }

  function PartLayout(p: Part, args: seq<Argument>, after: Layout): Layout
    requires GoodPart(p, args)
  {
    match p
    case WordPart(name, word) => More(name + " = ", word, Before(" ", after))
    case TextPart(name, k) => More(name + " = ", args[k - 1].s, after)
    case TablePart(name, slots) => Before((name + " = ") + "{", SlotsLayout(slots, args, Before("}", after)))
  }

  function PartsLayout(parts: seq<Part>, args: seq<Argument>): Layout
    requires GoodParts(parts, args)
  {
    if parts == [] then End("") else PartLayout(parts[0], args, PartsLayout(parts[1..], args))
  }

  lemma NameIsNeutral(name: string)
    requires IsIdentifier(name)
    ensures Neutral(name + " = ")
  {
  }

  lemma NumberIsNeutral(n: int)
    ensures Neutral(Scalar(ENum(n)))
  {
    assert forall c :: IsDigit(c) ==> c != '\'' && c != '"' && c != '\\' && c != '\n' && c != '\r';
  }

  lemma FieldText(before: string, raw: string, after: string)
    ensures before + (['\''] + (raw + (['\''] + after))) == (before + (['\''] + (raw + ['\'']))) + after
  {
  }

  lemma SlotLaidOut(s: Slot, args: seq<Argument>, after: Layout)
    requires GoodSlot(s, args) && RawArguments(args) && GoodLayout(after)
    ensures var l := SlotLayout(s, args, after);
      && Flat(l) == SlotText(s, args) + Flat(after) && GoodLayout(l)
      && (AllReadable(l) <==> SlotReadable(s, args) && AllReadable(after))
  {
    NameIsNeutral(s.name);
    match s
    case TextSlot(name, k) =>
      var raw := args[k - 1].s;
      FieldText("\t" + (name + " = "), raw, Flat(after));
      Assoc("\t", name + " = ", ['\''] + (raw + ['\'']));
      Assoc(name, " = ", ['\''] + (raw + ['\'']));
    case NumberSlot(name, k) =>
      NumberIsNeutral(args[k - 1].n);
      BeforeFlat("\t" + ((name + " = ") + Scalar(ENum(args[k - 1].n))), after);
  }

  lemma {:induction false} SlotsLaidOut(slots: seq<Slot>, args: seq<Argument>, after: Layout)
    requires GoodSlots(slots, args) && RawArguments(args) && GoodLayout(after)
    ensures var l := SlotsLayout(slots, args, after);
      && Flat(l) == SlotsText(slots, args) + Flat(after) && GoodLayout(l)
      && (AllReadable(l) <==> SlotsReadable(slots, args) && AllReadable(after))
  {
    if slots == [] {
      assert "" + Flat(after) == Flat(after);
    } else if |slots| == 1 {
      SlotLaidOut(slots[0], args, after);
    } else {
      var more := SlotsLayout(slots[1..], args, after);
      SlotsLaidOut(slots[1..], args, after);
      BeforeFlat(",", more);
      SlotLaidOut(slots[0], args, Before(",", more));
      Assoc(",", SlotsText(slots[1..], args), Flat(after));
      Assoc(SlotText(slots[0], args), "," + SlotsText(slots[1..], args), Flat(after));
      FirstAndOthers(slots, args);
    }
  }

  lemma FirstAndOthers(slots: seq<Slot>, args: seq<Argument>)
    requires GoodSlots(slots, args) && slots != []
    ensures SlotsReadable(slots, args) <==> SlotReadable(slots[0], args) && SlotsReadable(slots[1..], args)
  {
    if SlotReadable(slots[0], args) && SlotsReadable(slots[1..], args) {
      forall i | 0 <= i < |slots| ensures SlotReadable(slots[i], args) {
        if i > 0 { assert slots[i] == slots[1..][i - 1]; }
      }
    }
  }

  lemma WordLaidOut(name: string, word: string, after: Layout)
    requires IsIdentifier(name) && GoodText(word) && GoodLayout(after)
    ensures var l := More(name + " = ", word, Before(" ", after));
      && Flat(l) == (QuotedAssignment(name, word) + [' ']) + Flat(after) && GoodLayout(l)
      && (AllReadable(l) <==> AllReadable(after))
  {
    NameIsNeutral(name);
    GoodTextReads(word);
    BeforeFlat(" ", after);
    FieldText(name + " = ", word, " " + Flat(after));
    Assoc(name, " = ", ['\''] + (word + ['\'']));
    Assoc(QuotedAssignment(name, word), [' '], Flat(after));
  }

  lemma TableLaidOut(name: string, slots: seq<Slot>, args: seq<Argument>, after: Layout)
    requires IsIdentifier(name) && GoodSlots(slots, args) && RawArguments(args) && GoodLayout(after)
    ensures var l := Before((name + " = ") + "{", SlotsLayout(slots, args, Before("}", after)));
      && Flat(l) == ((name + " = ") + (['{'] + (SlotsText(slots, args) + ['}']))) + Flat(after) && GoodLayout(l)
      && (AllReadable(l) <==> SlotsReadable(slots, args) && AllReadable(after))
  {
    NameIsNeutral(name);
    BeforeFlat("}", after);
    SlotsLaidOut(slots, args, Before("}", after));
    BeforeFlat((name + " = ") + "{", SlotsLayout(slots, args, Before("}", after)));
    Braced(name + " = ", SlotsText(slots, args), Flat(after));
  }

  lemma Braced(head: string, inside: string, after: string)
    ensures (head + "{") + (inside + ("}" + after)) == (head + (['{'] + (inside + ['}']))) + after
  {
  }

  lemma PartLaidOut(p: Part, args: seq<Argument>, after: Layout)
    requires GoodPart(p, args) && RawArguments(args) && GoodLayout(after)
    ensures var l := PartLayout(p, args, after);
      && Flat(l) == PartText(p, args) + Flat(after) && GoodLayout(l)
      && (AllReadable(l) <==> PartReadable(p, args) && AllReadable(after))
  {
    match p
    case WordPart(name, word) => WordLaidOut(name, word, after);
    case TextPart(name, k) =>
      NameIsNeutral(name);
      FieldText(name + " = ", args[k - 1].s, Flat(after));
      Assoc(name, " = ", ['\''] + (args[k - 1].s + ['\'']));
    case TablePart(name, slots) => TableLaidOut(name, slots, args, after);
  }

  lemma {:induction false} PartsLaidOut(parts: seq<Part>, args: seq<Argument>)
    requires GoodParts(parts, args) && RawArguments(args)
    ensures var l := PartsLayout(parts, args);
      Flat(l) == PartsText(parts, args) && GoodLayout(l) && (AllReadable(l) <==> PartsReadable(parts, args))
  {
    if parts != [] {
      assert GoodPart(parts[0], args);
      PartsLaidOut(parts[1..], args);
      PartLaidOut(parts[0], args, PartsLayout(parts[1..], args));
      if PartReadable(parts[0], args) && PartsReadable(parts[1..], args) {
        forall i | 0 <= i < |parts| ensures PartReadable(parts[i], args) {
          if i > 0 { assert parts[i] == parts[1..][i - 1]; }
        }
      }
    }
  }

  // ------------------------------------------------------- the server's framing

  /** std::getline(istr, request, '\r'). */
  function BeforeCr(s: string): string {
    if s == "" || s[0] == '\r' then "" else [s[0]] + BeforeCr(s[1..])
  }

  /** async_read_until and getline: a request is taken once the end marker has arrived. */
  function ServerRead(stream: string, endOfMessage: string): Option<string> {
    if IndexFrom(stream, endOfMessage, 0) == -1 then None else Some(BeforeCr(stream))
  }

  lemma {:induction false} BeforeCrlf(body: string)
    requires '\r' !in body
    ensures BeforeCr(body + CRLF) == body
  {
    if body == "" {
      assert body + CRLF == CRLF;
    } else {
      assert (body + CRLF)[1..] == body[1..] + CRLF;
      BeforeCrlf(body[1..]);
      assert body[0] in body && body == [body[0]] + body[1..];
    }
  }

  predicate Clean(s: string) { '\r' !in s && NUL !in s }

  lemma NameIsClean(name: string)
    requires IsIdentifier(name)
    ensures Clean(name) && '%' !in name
  {
  }

  lemma AssignmentIsClean(name: string, s: string)
    requires IsIdentifier(name) && QuoteFree(s)
    ensures Clean(QuotedAssignment(name, s)) && ('%' !in s ==> '%' !in QuotedAssignment(name, s))
  {
    NameIsClean(name);
  }

  lemma SlotClean(s: Slot, args: seq<Argument>)
    requires GoodSlot(s, args) && RawArguments(args)
    ensures Clean(SlotText(s, args)) && GoodPieces(SlotPieces(s), |args|)
  {
    NameIsClean(s.name);
    match s
    case TextSlot(name, k) =>
      AssignmentIsClean(name, args[k - 1].s);
    case NumberSlot(name, k) =>
      ForeignInScalar(ENum(args[k - 1].n), '\r');
      ForeignInScalar(ENum(args[k - 1].n), NUL);
  }

  lemma {:induction false} SlotsClean(slots: seq<Slot>, args: seq<Argument>)
    requires GoodSlots(slots, args) && RawArguments(args)
    ensures Clean(SlotsText(slots, args)) && GoodPieces(SlotsPieces(slots), |args|)
  {
    if slots != [] {
      SlotClean(slots[0], args);
      if |slots| > 1 {
        SlotsClean(slots[1..], args);
      }
    }
  }

  lemma TableClean(name: string, slots: seq<Slot>, args: seq<Argument>)
    requires IsIdentifier(name) && GoodSlots(slots, args) && RawArguments(args)
    ensures Clean((name + " = ") + (['{'] + (SlotsText(slots, args) + ['}'])))
    ensures GoodPieces([Lit(name + " = "), Lit("{")] + (SlotsPieces(slots) + [Lit("}")]), |args|)
  {
    NameIsClean(name);
    SlotsClean(slots, args);
  }

  lemma TextClean(name: string, k: nat, args: seq<Argument>)
    requires IsIdentifier(name) && IsText(args, k) && RawArguments(args)
    ensures Clean(QuotedAssignment(name, args[k - 1].s))
    ensures GoodPieces([Lit(name + " = '"), Mark(k), Lit("'")], |args|)
  {
    NameIsClean(name);
    AssignmentIsClean(name, args[k - 1].s);
  }

  lemma PartClean(p: Part, args: seq<Argument>)
    requires GoodPart(p, args) && RawArguments(args)
    ensures Clean(PartText(p, args)) && GoodPieces(PartPieces(p), |args|)
  {
    match p
    case WordPart(name, word) => AssignmentIsClean(name, word);
    case TextPart(name, k) => TextClean(name, k, args);
    case TablePart(name, slots) => TableClean(name, slots, args);
  }

  lemma {:induction false} PartsClean(parts: seq<Part>, args: seq<Argument>)
    requires GoodParts(parts, args) && RawArguments(args)
    ensures Clean(PartsText(parts, args)) && GoodPieces(PartsPieces(parts), |args|)
  {
    if parts != [] {
      PartClean(parts[0], args);
      PartsClean(parts[1..], args);
    }
  }

  // --------------------------------------------------------------- main result

  /** The chunk the server runs for a request text. */
  function ServerChunk(text: string): Option<seq<Assignment>> {
    match ServerRead(text, CRLF) case None => None case Some(s) => Read(UntilNul(s))
  }

  lemma RequestIsFramed(parts: seq<Part>, args: seq<Argument>)
    requires GoodParts(parts, args) && RawArguments(args)
    ensures ServerChunk(RequestText(parts, args)) == Read(PartsText(parts, args))
  {
    var body := PartsText(parts, args);
    PartsClean(parts, args);
    PartsFilled(parts, args);
    ArgFills(PartsPieces(parts) + [Lit(CRLF)], Texts(args));
    FillAppend(PartsPieces(parts), [Lit(CRLF)], Texts(args));
    FillOne(Lit(CRLF), Texts(args));
    assert RequestText(parts, args) == body + CRLF;
    FirstCrlf(body);
    BeforeCrlf(body);
    NoNulWhole(body);
  }

  lemma BodyParses(parts: seq<Part>, args: seq<Argument>)
    requires GoodParts(parts, args) && RawArguments(args) && PartsReadable(parts, args)
    requires GoodParts(parts, ReadArguments(args))
    ensures Read(PartsText(parts, args)) == Some(Meaning(parts, ReadArguments(args)))
  {
    var body, chunk := PartsText(parts, args), Meaning(parts, ReadArguments(args));
    LexParts(parts, args, "");
    assert body + "" == body && AssignmentsToks(chunk) + [] == AssignmentsToks(chunk);
    MeaningIsGood(parts, ReadArguments(args));
    ParseAssignments(chunk);
  }

  /** Every request of this shape, sent, framed and parsed by the server, reads back as
      exactly its parts with each field's escapes read, whatever markers its fields contain;
      if some field is not a string of its own, nothing is read at all. */
  lemma RequestReadsBack(parts: seq<Part>, args: seq<Argument>)
    requires GoodParts(parts, args) && RawArguments(args)
    ensures GoodParts(parts, ReadArguments(args))
    ensures ServerChunk(RequestText(parts, args)) ==
      if PartsReadable(parts, args) then Some(Meaning(parts, ReadArguments(args))) else None
  {
    ReadParts(parts, args);
    RequestIsFramed(parts, args);
    if PartsReadable(parts, args) {
      BodyParses(parts, args);
    } else {
      PartsLaidOut(parts, args);
      Unreadable(PartsLayout(parts, args));
    }
  }

  // ------------------------------------------------------------- the builders

  datatype UserLogin = UserLogin(login: string, password: string, rank: string)

  const USER_PART: Part := TablePart("user", [TextSlot("login", 1), TextSlot("password", 2), TextSlot("rank", 3)])

  function LoginArguments(u: UserLogin): seq<Argument> { [Text(u.login), Text(u.password), Text(u.rank)] }

  function UserTable(u: UserLogin): Assignment {
    Assignment("user",
      ETable([Named("login", EStr(u.login)), Named("password", EStr(u.password)), Named("rank", EStr(u.rank))]))
  }

  function Auth(u: UserLogin): string {
    RequestText([WordPart("request", "auth"), USER_PART], LoginArguments(u))
  }

  function GetUsers(u: UserLogin): string {
    RequestText([WordPart("request", "get_users"), USER_PART], LoginArguments(u))
  }

  const NEW_USER_PART: Part := TablePart("new_user", [
    TextSlot("login", 4), TextSlot("password", 5), TextSlot("sname", 6), TextSlot("name", 7),
    TextSlot("pname", 8), NumberSlot("rank", 9)])

  function CreateUser(u: UserLogin, n: NewUser): string {
    RequestText([WordPart("request", "create_user"), USER_PART, NEW_USER_PART], LoginArguments(u) + NewUserArguments(n))
  }

  function DeleteUser(u: UserLogin, login: string): string {
    RequestText([WordPart("request", "delete_user"), USER_PART, TextPart("delete_user_login", 4)],
      LoginArguments(u) + [Text(login)])
  }

  const NEW_CUSTOMER_PART: Part := TablePart("new_customer", [NumberSlot("telephone", 4), TextSlot("sname", 5),
    TextSlot("name", 6), TextSlot("pname", 7)])

  function CreateCustomer(u: UserLogin, n: NewCustomer): string {
    RequestText([WordPart("request", "create_customer"), USER_PART, NEW_CUSTOMER_PART],
      LoginArguments(u) + NewCustomerArguments(n))
  }

  /** Credentials without a single quote, line break or NUL, and how they are read. */
  predicate RawLogin(u: UserLogin) { QuoteFree(u.login) && QuoteFree(u.password) && QuoteFree(u.rank) }
  predicate LoginReadable(u: UserLogin) { Readable(u.login) && Readable(u.password) && Readable(u.rank) }
  function LoginAsRead(u: UserLogin): UserLogin { UserLogin(AsRead(u.login), AsRead(u.password), AsRead(u.rank)) }

  lemma LongNames()
    ensures IsIdentifier("request") && IsIdentifier("password") && IsIdentifier("new_user")
    ensures IsIdentifier("delete_user_login") && IsIdentifier("new_customer") && IsIdentifier("telephone")
  {
    NotReserved("request");
    NotReserved("password");
    NotReserved("new_user");
    NotReserved("delete_user_login");
    NotReserved("new_customer");
    NotReserved("telephone");
  }

  lemma ShortNames()
    ensures IsIdentifier("user") && IsIdentifier("login") && IsIdentifier("rank")
    ensures IsIdentifier("sname") && IsIdentifier("name") && IsIdentifier("pname")
  {
    ShortNotReserved("user");
    ShortNotReserved("login");
    ShortNotReserved("rank");
    ShortNotReserved("sname");
    ShortNotReserved("name");
    ShortNotReserved("pname");
  }

  lemma ShortNotReserved(name: string)
    requires name in ["user", "login", "rank", "sname", "name", "pname"]
    ensures name !in RESERVED
  {
    var words := ["user", "login", "rank", "sname", "name", "pname"];
    forall i, j | 0 <= i < |RESERVED| && 0 <= j < |words| ensures RESERVED[i] != words[j] {
      assert |RESERVED[i]| != |words[j]| || RESERVED[i][0] != words[j][0] || RESERVED[i][1] != words[j][1]
        || RESERVED[i][2] != words[j][2];
    }
  }

  lemma UserPartReads(u: UserLogin, args: seq<Argument>)
    requires LoginArguments(u) <= args
    ensures GoodPart(USER_PART, args) && (PartReadable(USER_PART, args) <==> LoginReadable(u))
    ensures GoodPart(USER_PART, ReadArguments(args))
    ensures PartAssignment(USER_PART, ReadArguments(args)) == UserTable(LoginAsRead(u))
  {
    UserPart(u, args);
    assert LoginArguments(LoginAsRead(u)) <= ReadArguments(args);
    UserPart(LoginAsRead(u), ReadArguments(args));
  }

  lemma UserPart(u: UserLogin, args: seq<Argument>)
    requires LoginArguments(u) <= args
    ensures GoodPart(USER_PART, args) && (PartReadable(USER_PART, args) <==> LoginReadable(u))
    ensures PartAssignment(USER_PART, args) == UserTable(u)
  {
    LongNames();
    ShortNames();
    var slots := USER_PART.slots;
    assert args[0] == LoginArguments(u)[0] && args[1] == LoginArguments(u)[1] && args[2] == LoginArguments(u)[2];
    assert GoodSlots(slots, args);
    assert SlotsReadable(slots, args) ==>
      SlotReadable(slots[0], args) && SlotReadable(slots[1], args) && SlotReadable(slots[2], args);
    assert SlotFields(slots, args) == UserTable(u).value.fields;
  }

  lemma WordPartReads(request: string, args: seq<Argument>)
    requires GoodWord(request)
    ensures GoodPart(WordPart("request", request), args)
    ensures PartAssignment(WordPart("request", request), args) == Assignment("request", EStr(request))
  {
    LongNames();
  }

  /** Words the builders write between quotes themselves. */
  predicate GoodWord(word: string) { GoodText(word) && '%' !in word }

  lemma CreateWords()
    ensures GoodWord("create_user") && GoodWord("create_customer")
  {
  }

  lemma ShortWords()
    ensures GoodWord("auth") && GoodWord("get_users")
  {
  }

  lemma DeleteWord()
    ensures GoodWord("delete_user")
  {
  }

  lemma LoginOnly(u: UserLogin, request: string)
    requires RawLogin(u) && GoodWord(request)
    ensures ServerChunk(RequestText([WordPart("request", request), USER_PART], LoginArguments(u))) ==
      if LoginReadable(u) then Some([Assignment("request", EStr(request)), UserTable(LoginAsRead(u))]) else None
  {
    var args := LoginArguments(u);
    var parts := [WordPart("request", request), USER_PART];
    WordPartReads(request, args);
    WordPartReads(request, ReadArguments(args));
    UserPartReads(u, args);
    RequestReadsBack(parts, args);
    assert PartsReadable(parts, args) ==> PartReadable(parts[1], args);
    assert Meaning(parts, ReadArguments(args)) == [Assignment("request", EStr(request)), UserTable(LoginAsRead(u))];
  }

  /** The server reads an Auth request as the name "auth" and the caller's credentials. */
  lemma AuthReads(u: UserLogin)
    requires RawLogin(u)
    ensures ServerChunk(Auth(u)) ==
      if LoginReadable(u) then Some([Assignment("request", EStr("auth")), UserTable(LoginAsRead(u))]) else None
  {
    ShortWords();
    LoginOnly(u, "auth");
  }

  lemma GetUsersReads(u: UserLogin)
    requires RawLogin(u)
    ensures ServerChunk(GetUsers(u)) ==
      if LoginReadable(u) then Some([Assignment("request", EStr("get_users")), UserTable(LoginAsRead(u))]) else None
  {
    ShortWords();
    LoginOnly(u, "get_users");
  }

  /** A part that reads as `more`, if it is readable. */
  ghost predicate PartBecomes(part: Part, args: seq<Argument>, more: Assignment, readable: bool) {
    && GoodPart(part, args) && GoodPart(part, ReadArguments(args))
    && PartAssignment(part, ReadArguments(args)) == more && (PartReadable(part, args) <==> readable)
  }

  /** A request with one more part after the credentials. */
  lemma WithOneMore(u: UserLogin, request: string, part: Part, args: seq<Argument>, more: Assignment, readable: bool)
    requires LoginArguments(u) <= args && GoodWord(request) && RawArguments(args)
    requires PartBecomes(part, args, more, readable)
    ensures ServerChunk(RequestText([WordPart("request", request), USER_PART, part], args)) ==
      if LoginReadable(u) && readable
      then Some([Assignment("request", EStr(request)), UserTable(LoginAsRead(u)), more]) else None
  {
    var parts := [WordPart("request", request), USER_PART, part];
    WordPartReads(request, args);
    WordPartReads(request, ReadArguments(args));
    UserPartReads(u, args);
    RequestReadsBack(parts, args);
    ThreeReadable(parts[0], parts[1], part, args);
    ThreeMean(parts[0], parts[1], part, ReadArguments(args));
  }

  lemma ThreeReadable(a: Part, b: Part, c: Part, args: seq<Argument>)
    requires GoodParts([a, b, c], args)
    ensures GoodPart(a, args) && GoodPart(b, args) && GoodPart(c, args)
    ensures PartsReadable([a, b, c], args) <==>
      PartReadable(a, args) && PartReadable(b, args) && PartReadable(c, args)
  {
    var parts := [a, b, c];
    assert parts[0] == a && parts[1] == b && parts[2] == c;
  }

  lemma ThreeMean(a: Part, b: Part, c: Part, args: seq<Argument>)
    requires GoodParts([a, b, c], args)
    ensures GoodPart(a, args) && GoodPart(b, args) && GoodPart(c, args)
    ensures Meaning([a, b, c], args) == [PartAssignment(a, args), PartAssignment(b, args), PartAssignment(c, args)]
  {
    var parts := [a, b, c];
    assert parts[0] == a && parts[1] == b && parts[2] == c;
  }

  lemma DeleteUserReads(u: UserLogin, login: string)
    requires RawLogin(u) && QuoteFree(login)
    ensures ServerChunk(DeleteUser(u, login)) ==
      if LoginReadable(u) && Readable(login)
      then Some([Assignment("request", EStr("delete_user")), UserTable(LoginAsRead(u)),
                 Assignment("delete_user_login", EStr(AsRead(login)))])
      else None
  {
    LongNames();
    DeleteWord();
    WithOneMore(u, "delete_user", TextPart("delete_user_login", 4), LoginArguments(u) + [Text(login)],
      Assignment("delete_user_login", EStr(AsRead(login))), Readable(login));
  }

  /** The fields of a user to create, the password already hashed. */
  datatype NewUser = NewUser(login: string, password: string, sname: string, name: string, pname: string, rank: int)

  predicate RawUser(n: NewUser) {
    QuoteFree(n.login) && QuoteFree(n.password) && QuoteFree(n.sname) && QuoteFree(n.name) && QuoteFree(n.pname)
  }

  predicate UserReadable(n: NewUser) {
    Readable(n.login) && Readable(n.password) && Readable(n.sname) && Readable(n.name) && Readable(n.pname)
  }

  function UserAsRead(n: NewUser): NewUser {
    NewUser(AsRead(n.login), AsRead(n.password), AsRead(n.sname), AsRead(n.name), AsRead(n.pname), n.rank)
  }

  function NewUserFields(n: NewUser): seq<Field> {
    [Named("login", EStr(n.login)), Named("password", EStr(n.password)), Named("sname", EStr(n.sname)),
     Named("name", EStr(n.name)), Named("pname", EStr(n.pname)), Named("rank", ENum(n.rank))]
  }

  function NewUserArguments(n: NewUser): seq<Argument> {
    [Text(n.login), Text(n.password), Text(n.sname), Text(n.name), Text(n.pname), Number(n.rank)]
  }

  lemma NewUserPart(args: seq<Argument>, n: NewUser)
    requires |args| == 9 && args[3..] == NewUserArguments(n)
    ensures GoodPart(NEW_USER_PART, args)
    ensures PartAssignment(NEW_USER_PART, args) == Assignment("new_user", ETable(NewUserFields(n)))
    ensures PartReadable(NEW_USER_PART, args) <==> UserReadable(n)
  {
    LongNames();
    ShortNames();
    assert forall i :: 0 <= i < 6 ==> args[i + 3] == NewUserArguments(n)[i];
    assert GoodSlots(NEW_USER_PART.slots, args);
    assert SlotFields(NEW_USER_PART.slots, args) == NewUserFields(n);
    NewUserReadable(args, n);
  }

  lemma NewUserReadable(args: seq<Argument>, n: NewUser)
    requires |args| == 9 && args[3..] == NewUserArguments(n) && GoodSlots(NEW_USER_PART.slots, args)
    ensures SlotsReadable(NEW_USER_PART.slots, args) <==> UserReadable(n)
  {
    var slots := NEW_USER_PART.slots;
    assert forall i :: 0 <= i < 6 ==> args[i + 3] == NewUserArguments(n)[i];
    assert SlotsReadable(slots, args) ==>
      SlotReadable(slots[0], args) && SlotReadable(slots[1], args) && SlotReadable(slots[2], args)
      && SlotReadable(slots[3], args) && SlotReadable(slots[4], args);
  }

  /** The six fields create_user reads, with `rank` a number. */
  lemma CreateUserReads(u: UserLogin, n: NewUser)
    requires RawLogin(u) && RawUser(n)
    ensures ServerChunk(CreateUser(u, n)) ==
      if LoginReadable(u) && UserReadable(n)
      then Some([Assignment("request", EStr("create_user")), UserTable(LoginAsRead(u)),
                 Assignment("new_user", ETable(NewUserFields(UserAsRead(n))))])
      else None
  {
    var args := LoginArguments(u) + NewUserArguments(n);
    NewUserArgumentsRead(u, n);
    NewUserBecomes(args, n);
    CreateWords();
    WithOneMore(u, "create_user", NEW_USER_PART, args,
      Assignment("new_user", ETable(NewUserFields(UserAsRead(n)))), UserReadable(n));
  }

  lemma NewUserBecomes(args: seq<Argument>, n: NewUser)
    requires |args| == 9 && args[3..] == NewUserArguments(n)
    requires ReadArguments(args)[3..] == NewUserArguments(UserAsRead(n))
    ensures PartBecomes(NEW_USER_PART, args, Assignment("new_user", ETable(NewUserFields(UserAsRead(n)))),
              UserReadable(n))
  {
    NewUserPart(args, n);
    NewUserPart(ReadArguments(args), UserAsRead(n));
  }

  lemma NewUserArgumentsRead(u: UserLogin, n: NewUser)
    requires RawLogin(u) && RawUser(n)
    ensures var args := LoginArguments(u) + NewUserArguments(n);
      && |args| == 9 && RawArguments(args) && LoginArguments(u) <= args && args[3..] == NewUserArguments(n)
      && ReadArguments(args)[3..] == NewUserArguments(UserAsRead(n))
  {
    var args := LoginArguments(u) + NewUserArguments(n);
    forall i | 0 <= i < |args| && args[i].Text? ensures QuoteFree(args[i].s) {
      if i < 3 { assert args[i] == LoginArguments(u)[i]; } else { assert args[i] == NewUserArguments(n)[i - 3]; }
    }
  }

  datatype NewCustomer = NewCustomer(telephone: nat, sname: string, name: string, pname: string)

  predicate RawCustomer(n: NewCustomer) { QuoteFree(n.sname) && QuoteFree(n.name) && QuoteFree(n.pname) }
  predicate CustomerReadable(n: NewCustomer) { Readable(n.sname) && Readable(n.name) && Readable(n.pname) }
  function CustomerAsRead(n: NewCustomer): NewCustomer {
    NewCustomer(n.telephone, AsRead(n.sname), AsRead(n.name), AsRead(n.pname))
  }

  function NewCustomerFields(n: NewCustomer): seq<Field> {
    [Named("telephone", ENum(n.telephone)), Named("sname", EStr(n.sname)), Named("name", EStr(n.name)),
     Named("pname", EStr(n.pname))]
  }

  function NewCustomerArguments(n: NewCustomer): seq<Argument> {
    [Number(n.telephone), Text(n.sname), Text(n.name), Text(n.pname)]
  }

  lemma NewCustomerPart(args: seq<Argument>, n: NewCustomer)
    requires |args| == 7 && args[3..] == NewCustomerArguments(n)
    ensures GoodPart(NEW_CUSTOMER_PART, args)
    ensures PartAssignment(NEW_CUSTOMER_PART, args) == Assignment("new_customer", ETable(NewCustomerFields(n)))
    ensures PartReadable(NEW_CUSTOMER_PART, args) <==> CustomerReadable(n)
  {
    LongNames();
    ShortNames();
    var slots := NEW_CUSTOMER_PART.slots;
    assert forall i :: 0 <= i < 4 ==> args[i + 3] == NewCustomerArguments(n)[i];
    assert GoodSlots(slots, args);
    assert SlotsReadable(slots, args) ==>
      SlotReadable(slots[1], args) && SlotReadable(slots[2], args) && SlotReadable(slots[3], args);
    assert SlotFields(slots, args) == NewCustomerFields(n);
  }

  lemma CreateCustomerReads(u: UserLogin, n: NewCustomer)
    requires RawLogin(u) && RawCustomer(n)
    ensures ServerChunk(CreateCustomer(u, n)) ==
      if LoginReadable(u) && CustomerReadable(n)
      then Some([Assignment("request", EStr("create_customer")), UserTable(LoginAsRead(u)),
                 Assignment("new_customer", ETable(NewCustomerFields(CustomerAsRead(n))))])
      else None
  {
    var args := LoginArguments(u) + NewCustomerArguments(n);
    NewCustomerArgumentsRead(u, n);
    NewCustomerBecomes(args, n);
    CreateWords();
    WithOneMore(u, "create_customer", NEW_CUSTOMER_PART, args,
      Assignment("new_customer", ETable(NewCustomerFields(CustomerAsRead(n)))), CustomerReadable(n));
  }

  lemma NewCustomerBecomes(args: seq<Argument>, n: NewCustomer)
    requires |args| == 7 && args[3..] == NewCustomerArguments(n)
    requires ReadArguments(args)[3..] == NewCustomerArguments(CustomerAsRead(n))
    ensures PartBecomes(NEW_CUSTOMER_PART, args,
      Assignment("new_customer", ETable(NewCustomerFields(CustomerAsRead(n)))), CustomerReadable(n))
  {
    NewCustomerPart(args, n);
    NewCustomerPart(ReadArguments(args), CustomerAsRead(n));
  }

  lemma NewCustomerArgumentsRead(u: UserLogin, n: NewCustomer)
    requires RawLogin(u) && RawCustomer(n)
    ensures var args := LoginArguments(u) + NewCustomerArguments(n);
      && |args| == 7 && RawArguments(args) && LoginArguments(u) <= args && args[3..] == NewCustomerArguments(n)
      && ReadArguments(args)[3..] == NewCustomerArguments(CustomerAsRead(n))
  {
    var args := LoginArguments(u) + NewCustomerArguments(n);
    forall i | 0 <= i < |args| && args[i].Text? ensures QuoteFree(args[i].s) {
      if i < 3 { assert args[i] == LoginArguments(u)[i]; } else { assert args[i] == NewCustomerArguments(n)[i - 3]; }
    }
  }

  // --------------------------------------------------- what a handler finds

  /** The field a handler gets from a table of the request it has run. */
  ghost function HandlerField(chunk: seq<Assignment>, tableName: string, name: string, len: Length): Option<Value>
    requires Lawful(len)
  {
    match Global(chunk, tableName, len) case Table(entries, _) => FieldOf(entries, name) case _ => None
  }

  predicate OneAssignmentEach(chunk: seq<Assignment>) {
    forall i, j :: 0 <= i < j < |chunk| ==> chunk[i].name != chunk[j].name
  }

  /** A record: named fields only, none twice, none nil. */
  predicate IsRecord(fields: seq<Field>) {
    && (forall i :: 0 <= i < |fields| ==> fields[i].Named? && fields[i].value != ENil)
    && (forall i, j :: 0 <= i < j < |fields| && fields[i].Named? && fields[j].Named? ==>
          fields[i].name != fields[j].name)
  }

  lemma {:induction false} GlobalOf(chunk: seq<Assignment>, i: nat, len: Length)
    requires Lawful(len) && OneAssignmentEach(chunk) && i < |chunk|
    ensures Global(chunk, chunk[i].name, len) == Eval(chunk[i].value, len)
    decreases |chunk|
  {
    if i < |chunk| - 1 {
      GlobalOf(chunk[..|chunk| - 1], i, len);
    }
  }

  ghost function RecordEntries(fields: seq<Field>, len: Length): (r: seq<Entry>)
    requires Lawful(len) && IsRecord(fields)
    ensures |r| == |fields|
    ensures forall i :: 0 <= i < |fields| ==> r[i] == Entry(StrKey(fields[i].name), FieldValue(fields[i], len))
  {
    if fields == [] then []
    else [Entry(StrKey(fields[0].name), FieldValue(fields[0], len))] + RecordEntries(fields[1..], len)
  }

  lemma OnlyNilIsNil(e: Exp, len: Length)
    requires Lawful(len) && e != ENil
    ensures Eval(e, len) != Nil
  {
    match e
    case EBool(_) =>
    case ENum(_) =>
    case EStr(_) =>
    case ETable(_) =>
  }

  lemma {:induction false} RecordEvaluates(acc: seq<Entry>, fields: seq<Field>, len: Length)
    requires Lawful(len) && IsRecord(fields)
    requires forall e, i :: e in acc && 0 <= i < |fields| ==> e.key != StrKey(fields[i].name)
    ensures EvalNamed(acc, fields, len) == acc + RecordEntries(fields, len) && EvalPos(fields, len) == []
    decreases fields
  {
    if fields == [] {
      assert acc + RecordEntries(fields, len) == acc;
    } else {
      var first := Entry(StrKey(fields[0].name), FieldValue(fields[0], len));
      RemoveAbsent(acc, fields[0].name);
      OnlyNilIsNil(fields[0].value, len);
      assert Assign(acc, fields[0].name, first.value) == acc + [first];
      RecordEvaluates(acc + [first], fields[1..], len);
      Assoc(acc, [first], RecordEntries(fields[1..], len));
    }
  }

  lemma {:induction false} FieldOfRecord(fields: seq<Field>, j: nat, len: Length)
    requires Lawful(len) && IsRecord(fields) && j < |fields|
    ensures FieldOf(RecordEntries(fields, len), fields[j].name) == Some(FieldValue(fields[j], len))
    decreases |fields|
  {
    if j > 0 {
      FieldOfRecord(fields[1..], j - 1, len);
      assert RecordEntries(fields, len)[1..] == RecordEntries(fields[1..], len);
    }
  }

  /** The handler finds every field of every record of the request, whatever # does. */
  lemma FieldArrives(chunk: seq<Assignment>, i: nat, j: nat, len: Length)
    requires Lawful(len) && OneAssignmentEach(chunk) && i < |chunk| && chunk[i].value.ETable?
    requires IsRecord(chunk[i].value.fields) && j < |chunk[i].value.fields|
    ensures var f := chunk[i].value.fields[j];
      HandlerField(chunk, chunk[i].name, f.name, len) == Some(Eval(f.value, len))
  {
    var fields := chunk[i].value.fields;
    GlobalOf(chunk, i, len);
    RecordEvaluates([], fields, len);
    FieldOfRecord(fields, j, len);
    assert IsBorder([], len([]));
    assert [] + RecordEntries(fields, len) == RecordEntries(fields, len);
    assert RecordEntries(fields, len) + Leftover([], 0) == RecordEntries(fields, len);
  }

  /** The request name a handler is looked up by, and the credentials it checks. */
  ghost predicate CallArrives(chunk: seq<Assignment>, request: string, u: UserLogin, len: Length)
    requires Lawful(len)
  {
    && Global(chunk, "request", len) == Str(request)
    && HandlerField(chunk, "user", "login", len) == Some(Str(u.login))
    && HandlerField(chunk, "user", "password", len) == Some(Str(u.password))
    && HandlerField(chunk, "user", "rank", len) == Some(Str(u.rank))
  }

  lemma CallFields(request: string, u: UserLogin, chunk: seq<Assignment>, len: Length)
    requires Lawful(len) && OneAssignmentEach(chunk) && |chunk| >= 2
    requires chunk[0] == Assignment("request", EStr(request)) && chunk[1] == UserTable(u)
    ensures CallArrives(chunk, request, u, len)
  {
    GlobalOf(chunk, 0, len);
    FieldArrives(chunk, 1, 0, len);
    FieldArrives(chunk, 1, 1, len);
    FieldArrives(chunk, 1, 2, len);
  }

  /** The server runs an Auth request to the name "auth" and the caller's credentials as
      read, or reads nothing if one of them is not a string of its own. */
  lemma AuthArrives(u: UserLogin, len: Length)
    requires Lawful(len) && RawLogin(u)
    ensures var chunk := ServerChunk(Auth(u));
      if LoginReadable(u) then chunk.Some? && CallArrives(chunk.value, "auth", LoginAsRead(u), len) else chunk == None
  {
    AuthReads(u);
    if LoginReadable(u) { CallFields("auth", LoginAsRead(u), ServerChunk(Auth(u)).value, len); }
  }

  lemma GetUsersArrives(u: UserLogin, len: Length)
    requires Lawful(len) && RawLogin(u)
    ensures var chunk := ServerChunk(GetUsers(u));
      if LoginReadable(u) then chunk.Some? && CallArrives(chunk.value, "get_users", LoginAsRead(u), len)
      else chunk == None
  {
    GetUsersReads(u);
    if LoginReadable(u) { CallFields("get_users", LoginAsRead(u), ServerChunk(GetUsers(u)).value, len); }
  }

  /** What delete_user finds: the credentials and the login as read. */
  lemma DeleteUserArrives(u: UserLogin, login: string, len: Length)
    requires Lawful(len) && RawLogin(u) && QuoteFree(login)
    ensures var chunk := ServerChunk(DeleteUser(u, login));
      if LoginReadable(u) && Readable(login)
      then chunk.Some? && CallArrives(chunk.value, "delete_user", LoginAsRead(u), len)
           && Global(chunk.value, "delete_user_login", len) == Str(AsRead(login))
      else chunk == None
  {
    DeleteUserReads(u, login);
    if LoginReadable(u) && Readable(login) {
      var chunk := ServerChunk(DeleteUser(u, login)).value;
      CallFields("delete_user", LoginAsRead(u), chunk, len);
      GlobalOf(chunk, 2, len);
    }
  }

  /** The fields create_user finds: five strings and the rank. */
  ghost predicate UserArrives(chunk: seq<Assignment>, n: NewUser, len: Length)
    requires Lawful(len)
  {
    && HandlerField(chunk, "new_user", "login", len) == Some(Str(n.login))
    && HandlerField(chunk, "new_user", "password", len) == Some(Str(n.password))
    && HandlerField(chunk, "new_user", "sname", len) == Some(Str(n.sname))
    && HandlerField(chunk, "new_user", "name", len) == Some(Str(n.name))
    && HandlerField(chunk, "new_user", "pname", len) == Some(Str(n.pname))
    && HandlerField(chunk, "new_user", "rank", len) == Some(LuaMeaning.Number(n.rank))
  }

  lemma NewUserFound(chunk: seq<Assignment>, n: NewUser, len: Length)
    requires Lawful(len) && OneAssignmentEach(chunk) && |chunk| == 3
    requires chunk[2] == Assignment("new_user", ETable(NewUserFields(n)))
    ensures UserArrives(chunk, n, len)
  {
    FieldArrives(chunk, 2, 0, len);
    FieldArrives(chunk, 2, 1, len);
    FieldArrives(chunk, 2, 2, len);
    FieldArrives(chunk, 2, 3, len);
    FieldArrives(chunk, 2, 4, len);
    FieldArrives(chunk, 2, 5, len);
  }

  /** What create_user finds: the five strings as read, and the rank, an integer exactly if
      64 bits hold it. */
  lemma CreateUserArrives(u: UserLogin, n: NewUser, len: Length)
    requires Lawful(len) && RawLogin(u) && RawUser(n)
    ensures var chunk := ServerChunk(CreateUser(u, n));
      if LoginReadable(u) && UserReadable(n)
      then chunk.Some? && CallArrives(chunk.value, "create_user", LoginAsRead(u), len)
           && UserArrives(chunk.value, UserAsRead(n), len)
           && (HandlerField(chunk.value, "new_user", "rank", len) == Some(Int(n.rank)) <==>
                 INT64_MIN < n.rank <= INT64_MAX)
      else chunk == None
  {
    CreateUserReads(u, n);
    if LoginReadable(u) && UserReadable(n) {
      var chunk := ServerChunk(CreateUser(u, n)).value;
      CallFields("create_user", LoginAsRead(u), chunk, len);
      NewUserFound(chunk, UserAsRead(n), len);
    }
  }

  /** What create_customer finds: the names as read, and the telephone as an integer exactly
      if it is at most the greatest signed 64-bit integer, though the client sends 64
      unsigned bits. */
  lemma CreateCustomerArrives(u: UserLogin, n: NewCustomer, len: Length)
    requires Lawful(len) && RawLogin(u) && RawCustomer(n)
    ensures var chunk := ServerChunk(CreateCustomer(u, n));
      if LoginReadable(u) && CustomerReadable(n)
      then chunk.Some? && CallArrives(chunk.value, "create_customer", LoginAsRead(u), len)
           && CustomerArrives(chunk.value, CustomerAsRead(n), len)
           && (HandlerField(chunk.value, "new_customer", "telephone", len) == Some(Int(n.telephone)) <==>
                 n.telephone <= INT64_MAX)
      else chunk == None
  {
    CreateCustomerReads(u, n);
    if LoginReadable(u) && CustomerReadable(n) {
      var chunk := ServerChunk(CreateCustomer(u, n)).value;
      CallFields("create_customer", LoginAsRead(u), chunk, len);
      NewCustomerFound(chunk, CustomerAsRead(n), len);
    }
  }

  ghost predicate CustomerArrives(chunk: seq<Assignment>, n: NewCustomer, len: Length)
    requires Lawful(len)
  {
    && HandlerField(chunk, "new_customer", "telephone", len) == Some(LuaMeaning.Number(n.telephone))
    && HandlerField(chunk, "new_customer", "sname", len) == Some(Str(n.sname))
    && HandlerField(chunk, "new_customer", "name", len) == Some(Str(n.name))
    && HandlerField(chunk, "new_customer", "pname", len) == Some(Str(n.pname))
  }

  lemma NewCustomerFound(chunk: seq<Assignment>, n: NewCustomer, len: Length)
    requires Lawful(len) && OneAssignmentEach(chunk) && |chunk| == 3
    requires chunk[2] == Assignment("new_customer", ETable(NewCustomerFields(n)))
    ensures CustomerArrives(chunk, n, len)
  {
    FieldArrives(chunk, 2, 0, len);
    FieldArrives(chunk, 2, 1, len);
    FieldArrives(chunk, 2, 2, len);
    FieldArrives(chunk, 2, 3, len);
  }
}
