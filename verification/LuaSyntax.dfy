/** The literal subset of Lua both sides exchange: lexer and parser for assignments,
    table constructors, quoted strings, integers, booleans and nil (sections 3.1,
    3.3.3 and 3.4.9 of the Lua 5.4 Reference Manual). */
module LuaSyntax {
  import opened Prelude

  datatype Exp = ENil | EBool(b: bool) | ENum(n: int) | EStr(s: string) | ETable(fields: seq<Field>)
  datatype Field = Named(name: string, value: Exp) | Pos(value: Exp)

  datatype Token = TName(name: string) | TStr(s: string) | TNum(n: nat) | TSym(c: char)

  const RESERVED: seq<string> := [
    "and", "break", "do", "else", "elseif", "end", "false", "for", "function", "goto", "if", "in", "local",
    "nil", "not", "or", "repeat", "return", "then", "true", "until", "while"]

  const NUL: char := 0 as char

  predicate IsSpace(c: char) { c == ' ' || c == '\t' || c == '\n' || c == '\r' || c == 11 as char || c == 12 as char }
  predicate IsDigit(c: char) { '0' <= c <= '9' }
  predicate IsLetter(c: char) { 'a' <= c <= 'z' || 'A' <= c <= 'Z' || c == '_' }
  predicate IsWordChar(c: char) { IsLetter(c) || IsDigit(c) }
  predicate IsSymbol(c: char) { c == '{' || c == '}' || c == '=' || c == ',' || c == ';' || c == '-' }

  predicate IsName(s: string) { s != "" && IsLetter(s[0]) && forall i :: 0 <= i < |s| ==> IsWordChar(s[i]) }
  predicate IsIdentifier(s: string) { IsName(s) && s !in RESERVED }

  // ---------------------------------------------------------------- lexer

  function WordLength(s: string): (n: nat)
    ensures n <= |s|
  {
    if s == "" || !IsWordChar(s[0]) then 0 else 1 + WordLength(s[1..])
  }

  function DigitsLength(s: string): (n: nat)
    ensures n <= |s| && forall i :: 0 <= i < n ==> IsDigit(s[i])
  {
    if s == "" || !IsDigit(s[0]) then 0 else 1 + DigitsLength(s[1..])
  }

  function DigitValue(c: char): nat
    requires IsDigit(c)
  {
    c as int - '0' as int
  }

  /** The value of a run of decimal digits. */
  function Digits(s: string): nat
    requires forall i :: 0 <= i < |s| ==> IsDigit(s[i])
  {
    if s == "" then 0 else 10 * Digits(s[..|s| - 1]) + DigitValue(s[|s| - 1])
  }

  predicate IsHex(c: char) { IsDigit(c) || 'a' <= c <= 'f' || 'A' <= c <= 'F' }

  function HexValue(c: char): (v: nat)
    requires IsHex(c)
    ensures v < 16
  {
    if IsDigit(c) then DigitValue(c)
    else if 'a' <= c <= 'f' then 10 + (c as int - 'a' as int)
    else 10 + (c as int - 'A' as int)
  }

  /** How many of the first characters are hexadecimal digits. */
  function HexLength(s: string): (n: nat)
    ensures n <= |s| && forall i :: 0 <= i < n ==> IsHex(s[i])
  {
    if s == "" || !IsHex(s[0]) then 0 else 1 + HexLength(s[1..])
  }

  function Hex(s: string): (v: nat)
    requires forall i :: 0 <= i < |s| ==> IsHex(s[i])
    ensures (s == "" ==> v == 0) && (|s| <= 1 ==> v < 16) && (|s| <= 2 ==> v < 256)
  {
    if s == "" then 0 else 16 * Hex(s[..|s| - 1]) + HexValue(s[|s| - 1])
  }

  function SpaceLength(s: string): (n: nat)
    ensures n <= |s|
  {
    if s == "" || !IsSpace(s[0]) then 0 else 1 + SpaceLength(s[1..])
  }

  /** The low 6 * n bits of a code point, six to a byte. */
  function Continuation(v: nat, n: nat): (r: string)
    ensures |r| == n
  {
    if n == 0 then "" else Continuation(v / 64, n - 1) + [(0x80 + v % 64) as char]
  }

  /** UTF-8 as Lua writes it, for code points below 2 to the 31. */
  function Utf8(v: nat): (r: string)
    requires v < 0x8000_0000
    ensures |r| <= 6 && (v < 0x800 ==> |r| <= 2)
  {
    if v < 0x80 then [v as char]
    else if v < 0x800 then [(0xc0 + v / 0x40) as char] + Continuation(v, 1)
    else if v < 0x1_0000 then [(0xe0 + v / 0x1000) as char] + Continuation(v, 2)
    else if v < 0x20_0000 then [(0xf0 + v / 0x4_0000) as char] + Continuation(v, 3)
    else if v < 0x400_0000 then [(0xf8 + v / 0x100_0000) as char] + Continuation(v, 4)
    else [(0xfc + v / 0x4000_0000) as char] + Continuation(v, 5)
  }

  /** The escapes that stand for one fixed character. */
  function SimpleEscape(c: char): Option<char> {
    if c == '\\' || c == '"' || c == '\'' then Some(c)
    else if c == 'n' then Some('\n')
    else if c == 't' then Some('\t')
    else if c == 'r' then Some('\r')
    else if c == 'a' then Some(7 as char)
    else if c == 'b' then Some(8 as char)
    else if c == 'v' then Some(11 as char)
    else if c == 'f' then Some(12 as char)
    else None
  }

  /** What follows `\u`: a code point in braces. */
  function CodePoint(s: string): (r: Option<(string, nat)>)
    ensures r.Some? ==> |r.value.0| <= r.value.1 + 1 && r.value.1 <= |s|
  {
    if s == "" || s[0] != '{' then None else
      var n := HexLength(s[1..]);
      if n == 0 || 1 + n >= |s| || s[1 + n] != '}' then None else
        var digits := s[1..][..n];
        if Hex(digits) >= 0x8000_0000 then None else Some((Utf8(Hex(digits)), n + 2))
  }

  /** The escape sequence at the head of what follows a backslash: the characters it
      stands for and its length (section 3.1 of the Lua 5.4 Reference Manual). */
  function EscapeOf(s: string): (r: Option<(string, nat)>)
    ensures r.Some? ==> |r.value.0| <= r.value.1 && 1 <= r.value.1 <= |s|
  {
    if s == "" then None
    else if SimpleEscape(s[0]).Some? then Some(([SimpleEscape(s[0]).value], 1))
    else if s[0] == '\n' || s[0] == '\r' then
      Some(("\n", if |s| > 1 && (s[1] == '\n' || s[1] == '\r') && s[1] != s[0] then 2 else 1))
    else if s[0] == 'z' then Some(("", 1 + SpaceLength(s[1..])))
    else if s[0] == 'x' then
      if |s| < 3 || !IsHex(s[1]) || !IsHex(s[2]) then None
      else Some(([(16 * HexValue(s[1]) + HexValue(s[2])) as char], 3))
    else if s[0] == 'u' then
      match CodePoint(s[1..]) case None => None case Some((text, n)) => Some((text, n + 1))
    else if IsDigit(s[0]) then
      var n := if DigitsLength(s) < 3 then DigitsLength(s) else 3;
      if Digits(s[..n]) > 255 then None else Some(([Digits(s[..n]) as char], n))
    else None
  }

  /** The contents of a quoted string up to its closing quote, and how far that is. A raw
      line break does not belong in one. */
  function LexString(s: string, quote: char): (r: Option<(string, nat)>)
    ensures r.Some? ==> 1 <= r.value.1 <= |s|
    decreases |s|
  {
    if s == "" || s[0] == '\n' || s[0] == '\r' then None
    else if s[0] == quote then Some(("", 1))
    else if s[0] == '\\' then
      match EscapeOf(s[1..])
      case None => None
      case Some((c, n)) =>
        (match LexString(s[1 + n..], quote)
         case None => None
         case Some((text, m)) => Some((c + text, 1 + n + m)))
    else match LexString(s[1..], quote)
      case None => None
      case Some((text, n)) => Some(([s[0]] + text, n + 1))
  }

  /** Text to tokens; None outside the subset (comments, long brackets, operators, floats). */
  function Lex(s: string): Option<seq<Token>>
    decreases |s|
  {
    if s == "" then Some([])
    else if IsSpace(s[0]) then Lex(s[1..])
    else if IsLetter(s[0]) then
      var n := WordLength(s);
      Prepend([TName(s[..n])], Lex(s[n..]))
    else if IsDigit(s[0]) then
      var n := DigitsLength(s);
      if n < |s| && (IsLetter(s[n]) || s[n] == '.') then None
      else Prepend([TNum(Digits(s[..n]))], Lex(s[n..]))
    else if s[0] == '"' || s[0] == '\'' then
      match LexString(s[1..], s[0])
      case None => None
      case Some((text, n)) => Prepend([TStr(text)], Lex(s[1 + n..]))
    else if (s[0] == '-' || s[0] == '=') && |s| > 1 && s[1] == s[0] then None
    else if IsSymbol(s[0]) then Prepend([TSym(s[0])], Lex(s[1..]))
    else None
  }

  /** One more character of a string's contents, as it stands or escaped. */
  function Further(c: string, k: nat, rest: Option<(string, nat)>): Option<(string, nat)> {
    match rest case None => None case Some((text, n)) => Some((c + text, k + n))
  }

  lemma FurtherTwice(a: string, k: nat, b: string, m: nat, rest: Option<(string, nat)>)
    ensures Further(a, k, Further(b, m, rest)) == Further(a + b, k + m, rest)
  {
    if rest.Some? {
      Assoc(a, b, rest.value.0);
    }
  }

  lemma {:induction false} LexPlainChar(c: char, tail: string, quote: char)
    requires c != '\n' && c != '\r' && c != quote && c != '\\'
    ensures LexString([c] + tail, quote) == Further([c], 1, LexString(tail, quote))
  {
    assert ([c] + tail)[1..] == tail;
  }

  lemma {:induction false} LexEscape(s: string, quote: char)
    requires s != "" && s[0] == '\\' && quote != '\\'
    ensures var e := EscapeOf(s[1..]);
      LexString(s, quote) == if e.None? then None
        else Further(e.value.0, 1 + e.value.1, LexString(s[1 + e.value.1..], quote))
  {
  }

  lemma {:induction false} LexEscapedChar(c: char, tail: string, quote: char)
    requires (c == '"' || c == '\\') && quote != '\\'
    ensures LexString(['\\', c] + tail, quote) == Further([c], 2, LexString(tail, quote))
  {
    var s := ['\\', c] + tail;
    assert s[1..] == [c] + tail && s[2..] == tail;
    assert EscapeOf([c] + tail) == Some(([c], 1));
  }

  // --------------------------------------------------------------- parser

  function ParseExp(ts: seq<Token>): (r: Option<(Exp, seq<Token>)>)
    ensures r.Some? ==> |r.value.1| < |ts|
    decreases |ts|, 0
  {
    if ts == [] then None
    else match ts[0]
      case TName(w) =>
        if w == "nil" then Some((ENil, ts[1..]))
        else if w == "true" then Some((EBool(true), ts[1..]))
        else if w == "false" then Some((EBool(false), ts[1..]))
        else None
      case TStr(s) => Some((EStr(s), ts[1..]))
      case TNum(n) => Some((ENum(n), ts[1..]))
      case TSym(c) =>
        if c == '-' && |ts| > 1 && ts[1].TNum? then Some((ENum(0 - ts[1].n), ts[2..]))
        else if c == '{' then
          match ParseFields(ts[1..])
          case None => None
          case Some((fields, rest)) => Some((ETable(fields), rest))
        else None
  }

  function ParseField(ts: seq<Token>): (r: Option<(Field, seq<Token>)>)
    ensures r.Some? ==> |r.value.1| < |ts|
    decreases |ts|, 1
  {
    if |ts| >= 2 && ts[0].TName? && ts[0].name !in RESERVED && ts[1] == TSym('=') then
      match ParseExp(ts[2..])
      case None => None
      case Some((e, rest)) => Some((Named(ts[0].name, e), rest))
    else
      match ParseExp(ts)
      case None => None
      case Some((e, rest)) => Some((Pos(e), rest))
  }

  /** The fields of a constructor whose opening brace has been read. */
  function ParseFields(ts: seq<Token>): (r: Option<(seq<Field>, seq<Token>)>)
    ensures r.Some? ==> |r.value.1| < |ts|
    decreases |ts|, 2
  {
    if ts == [] then None
    else if ts[0] == TSym('}') then Some(([], ts[1..]))
    else match ParseField(ts)
      case None => None
      case Some((f, rest)) =>
        if rest == [] then None
        else if rest[0] == TSym('}') then Some(([f], rest[1..]))
        else if rest[0] == TSym(',') || rest[0] == TSym(';') then
          match ParseFields(rest[1..])
          case None => None
          case Some((fs, rest')) => Some(([f] + fs, rest'))
        else None
  }

  datatype Assignment = Assignment(name: string, value: Exp)

  /** A chunk of the subset: assignments to global names, one after another. */
  function ParseChunk(ts: seq<Token>): Option<seq<Assignment>>
    decreases |ts|
  {
    if ts == [] then Some([])
    else if ts[0] == TSym(';') then ParseChunk(ts[1..])
    else if |ts| >= 2 && ts[0].TName? && ts[0].name !in RESERVED && ts[1] == TSym('=') then
      match ParseExp(ts[2..])
      case None => None
      case Some((e, rest)) =>
        match ParseChunk(rest)
        case None => None
        case Some(more) => Some([Assignment(ts[0].name, e)] + more)
    else None
  }

  function Read(text: string): Option<seq<Assignment>> {
    match Lex(text) case None => None case Some(ts) => ParseChunk(ts)
  }

  // -------------------------------------------- tokens of an expression

  function Toks(e: Exp): (ts: seq<Token>)
    ensures ts != []
    decreases e, 1
  {
    match e
    case ENil => [TName("nil")]
    case EBool(b) => [TName(if b then "true" else "false")]
    case ENum(n) => if n < 0 then [TSym('-'), TNum(-n)] else [TNum(n)]
    case EStr(s) => [TStr(s)]
    case ETable(fields) => [TSym('{')] + FieldsToks(fields) + [TSym('}')]
  }

  function NameToks(name: string): seq<Token> {
    if name == "" then [] else [TName(name), TSym('=')]
  }

  function FieldToks(f: Field): seq<Token>
    decreases f, 2
  {
    match f
    case Named(name, e) => NameToks(name) + Toks(e)
    case Pos(e) => Toks(e)
  }

  function FieldsToks(fs: seq<Field>): seq<Token>
    decreases fs, 0
  {
    if fs == [] then []
    else if |fs| == 1 then FieldToks(fs[0])
    else FieldToks(fs[0]) + [TSym(',')] + FieldsToks(fs[1..])
  }

  /** Names are identifiers and strings stay on one line. */
  predicate WellFormed(e: Exp)
    decreases e, 1
  {
    match e
    case EStr(s) => OneLine(s)
    case ETable(fields) => AllWellFormed(fields)
    case _ => true
  }

  predicate OneLine(s: string) { '\n' !in s && '\r' !in s }

  predicate FieldWellFormed(f: Field)
    decreases f, 2
  {
    match f
    case Named(name, e) => IsIdentifier(name) && WellFormed(e)
    case Pos(e) => WellFormed(e)
  }

  predicate AllWellFormed(fs: seq<Field>)
    decreases fs, 0
  {
    fs == [] || (FieldWellFormed(fs[0]) && AllWellFormed(fs[1..]))
  }

  /** Every name is an identifier; strings may be anything. */
  predicate NamesGood(e: Exp)
    decreases e, 1
  {
    match e
    case ETable(fields) => AllNamesGood(fields)
    case _ => true
  }

  predicate FieldNamesGood(f: Field)
    decreases f, 2
  {
    match f
    case Named(name, e) => IsIdentifier(name) && NamesGood(e)
    case Pos(e) => NamesGood(e)
  }

  predicate AllNamesGood(fs: seq<Field>)
    decreases fs, 0
  {
    fs == [] || (FieldNamesGood(fs[0]) && AllNamesGood(fs[1..]))
  }

  lemma {:induction false} GoodNames(e: Exp)
    requires WellFormed(e)
    ensures NamesGood(e)
    decreases e, 1
  {
    if e.ETable? {
      GoodFieldNames(e.fields);
    }
  }

  lemma {:induction false} GoodFieldName(f: Field)
    requires FieldWellFormed(f)
    ensures FieldNamesGood(f)
    decreases f, 2
  {
    GoodNames(f.value);
  }

  lemma {:induction false} GoodFieldNames(fs: seq<Field>)
    requires AllWellFormed(fs)
    ensures AllNamesGood(fs)
    decreases fs, 0
  {
    if fs != [] {
      GoodFieldName(fs[0]);
      GoodFieldNames(fs[1..]);
    }
  }

  // ------------------------------------------------ parsing inverts Toks

  lemma {:induction false} ParseOfToks(e: Exp, rest: seq<Token>)
    requires NamesGood(e)
    ensures ParseExp(Toks(e) + rest) == Some((e, rest))
    decreases e, 1
  {
    var ts := Toks(e) + rest;
    match e
    case ENil => assert ts[1..] == rest;
    case EBool(_) => assert ts[1..] == rest;
    case EStr(_) => assert ts[1..] == rest;
    case ENum(n) => if n < 0 { assert ts[2..] == rest; } else { assert ts[1..] == rest; }
    case ETable(fields) =>
      ParseOfFieldsToks(fields, rest);
      assert ts[1..] == FieldsToks(fields) + ([TSym('}')] + rest);
  }

  lemma {:induction false} ParseOfFieldToks(f: Field, rest: seq<Token>)
    requires FieldNamesGood(f)
    ensures FieldToks(f) != [] && FieldToks(f)[0] != TSym('}')
    ensures ParseField(FieldToks(f) + rest) == Some((f, rest))
    decreases f, 2
  {
    var ts := FieldToks(f) + rest;
    match f
    case Named(name, e) =>
      ParseOfToks(e, rest);
      assert ts[2..] == Toks(e) + rest;
    case Pos(e) =>
      ParseOfToks(e, rest);
      if e.ENil? || e.EBool? { assert ts[0].name in RESERVED by { ReservedWords(); } }
  }

  lemma ReservedWords()
    ensures "nil" in RESERVED && "true" in RESERVED && "false" in RESERVED
  {
    assert RESERVED[13] == "nil" && RESERVED[19] == "true" && RESERVED[6] == "false";
  }

  lemma {:induction false} ParseOneField(f: Field, rest: seq<Token>)
    requires FieldToks(f) != [] && FieldToks(f)[0] != TSym('}')
    requires ParseField(FieldToks(f) + ([TSym('}')] + rest)) == Some((f, [TSym('}')] + rest))
    ensures ParseFields(FieldToks(f) + ([TSym('}')] + rest)) == Some(([f], rest))
  {
    assert ([TSym('}')] + rest)[1..] == rest;
  }

  lemma {:induction false} ParseMoreFields(f: Field, fs: seq<Field>, more: seq<Token>, rest: seq<Token>)
    requires FieldToks(f) != [] && FieldToks(f)[0] != TSym('}')
    requires ParseField(FieldToks(f) + ([TSym(',')] + more)) == Some((f, [TSym(',')] + more))
    requires ParseFields(more) == Some((fs, rest))
    ensures ParseFields(FieldToks(f) + ([TSym(',')] + more)) == Some(([f] + fs, rest))
  {
    assert ([TSym(',')] + more)[1..] == more;
  }

  lemma FourToks(a: seq<Token>, b: seq<Token>, c: seq<Token>, d: seq<Token>)
    ensures a + b + c + d == a + (b + (c + d))
  {
  }

  lemma {:induction false} ParseOfFieldsToks(fs: seq<Field>, rest: seq<Token>)
    requires AllNamesGood(fs)
    ensures ParseFields(FieldsToks(fs) + ([TSym('}')] + rest)) == Some((fs, rest))
    decreases fs, 0
  {
    var tail := [TSym('}')] + rest;
    if fs == [] {
      assert FieldsToks(fs) + tail == tail && tail[1..] == rest;
    } else if |fs| == 1 {
      ParseOfFieldToks(fs[0], tail);
      ParseOneField(fs[0], rest);
      assert fs == [fs[0]];
    } else {
      var more := FieldsToks(fs[1..]) + tail;
      ParseOfFieldToks(fs[0], [TSym(',')] + more);
      ParseOfFieldsToks(fs[1..], rest);
      ParseMoreFields(fs[0], fs[1..], more, rest);
      FourToks(FieldToks(fs[0]), [TSym(',')], FieldsToks(fs[1..]), tail);
      assert fs == [fs[0]] + fs[1..];
    }
  }

  // ------------------------------------------------ lexing piece by piece

  /** Text that cannot continue a word or a number. */
  predicate Breaks(rest: string) { rest == "" || !(IsWordChar(rest[0]) || rest[0] == '.') }

  lemma {:induction false} LexSpace(c: char, rest: string)
    requires IsSpace(c)
    ensures Lex([c] + rest) == Lex(rest)
  {
    assert ([c] + rest)[1..] == rest;
  }

  lemma {:induction false} WordLengthOf(name: string, rest: string)
    requires forall i :: 0 <= i < |name| ==> IsWordChar(name[i])
    requires Breaks(rest)
    ensures WordLength(name + rest) == |name|
  {
    if name == "" {
      assert name + rest == rest;
    } else {
      assert (name + rest)[1..] == name[1..] + rest;
      WordLengthOf(name[1..], rest);
    }
  }

  lemma {:induction false} LexName(name: string, rest: string)
    requires IsName(name) && Breaks(rest)
    ensures Lex(name + rest) == Prepend([TName(name)], Lex(rest))
  {
    var s := name + rest;
    WordLengthOf(name, rest);
    assert s[..|name|] == name && s[|name|..] == rest;
    assert s[0] == name[0];
  }

  lemma {:induction false} DigitsLengthOf(digits: string, rest: string)
    requires forall i :: 0 <= i < |digits| ==> IsDigit(digits[i])
    requires Breaks(rest)
    ensures DigitsLength(digits + rest) == |digits|
  {
    if digits == "" {
      assert digits + rest == rest;
    } else {
      assert (digits + rest)[1..] == digits[1..] + rest;
      DigitsLengthOf(digits[1..], rest);
    }
  }

  lemma {:induction false} LexDigits(digits: string, rest: string)
    requires digits != "" && (forall i :: 0 <= i < |digits| ==> IsDigit(digits[i])) && Breaks(rest)
    ensures Lex(digits + rest) == Prepend([TNum(Digits(digits))], Lex(rest))
  {
    var s := digits + rest;
    DigitsLengthOf(digits, rest);
    assert s[..|digits|] == digits && s[|digits|..] == rest;
    assert s[0] == digits[0];
  }

  lemma {:induction false} LexSymbol(c: char, rest: string)
    requires IsSymbol(c) && (rest == "" || rest[0] != c || (c != '-' && c != '='))
    ensures Lex([c] + rest) == Prepend([TSym(c)], Lex(rest))
  {
    assert ([c] + rest)[1..] == rest;
  }

  /** `body` is how `s` is written between quotes `q`: escaped or not, the lexer
      gets `s` back from it. */
  lemma {:induction false} LexQuotedBody(body: string, s: string, q: char, rest: string)
    requires q == '"' || q == '\''
    requires LexString(body + [q] + rest, q) == Some((s, |body| + 1))
    ensures Lex([q] + (body + [q] + rest)) == Prepend([TStr(s)], Lex(rest))
  {
    var inside := body + [q] + rest;
    assert inside[|body| + 1..] == rest;
    LexQuote(q, inside, s, |body| + 1);
  }

  /** From a single quote on. */
  lemma {:induction false} LexFromQuote(tail: string)
    ensures var body := LexString(tail, '\'');
      Lex(['\''] + tail) == if body.None? then None else Prepend([TStr(body.value.0)], Lex(tail[body.value.1..]))
  {
    var s := ['\''] + tail;
    assert s[1..] == tail;
    var body := LexString(tail, '\'');
    if body.Some? {
      assert s[1 + body.value.1..] == tail[body.value.1..];
    }
  }

  lemma {:induction false} LexQuote(q: char, inside: string, s: string, n: nat)
    requires q == '"' || q == '\''
    requires LexString(inside, q) == Some((s, n))
    ensures Lex([q] + inside) == Prepend([TStr(s)], Lex(inside[n..]))
  {
    var text := [q] + inside;
    assert text[1..] == inside;
    assert text[1 + n..] == inside[n..];
  }
}
