/** Text pasted unescaped between single quotes, as the client builds its requests: what
    Lua reads from it, and why a field whose last backslash escapes the closing quote
    makes the whole text unreadable. */
module LuaRaw {
  import opened Prelude
  import opened LuaSyntax

  /** No single quote, line break or NUL. */
  predicate QuoteFree(s: string) { OneLine(s) && NUL !in s && '\'' !in s }

  /** What Lua reads between the quotes, if every escape is one within the text. */
  function Unescape(s: string): Option<string>
    decreases |s|
  {
    if s == "" then Some("")
    else if s[0] == '\\' then
      match EscapeOf(s[1..])
      case None => None
      case Some((c, n)) => Prepend(c, Unescape(s[1 + n..]))
    else Prepend([s[0]], Unescape(s[1..]))
  }

  /** Without a backslash the text is read as it stands, with one as something shorter. */
  lemma {:induction false} UnescapeShrinks(s: string)
    ensures '\\' !in s ==> Unescape(s) == Some(s)
    ensures '\\' in s && Unescape(s).Some? ==> |Unescape(s).value| < |s|
    ensures Unescape(s).Some? ==> |Unescape(s).value| <= |s|
    decreases |s|
  {
    if s == "" {
    } else if s[0] == '\\' {
      var e := EscapeOf(s[1..]);
      if e.Some? { UnescapeShrinks(s[1 + e.value.1..]); }
    } else {
      UnescapeShrinks(s[1..]);
      assert s == [s[0]] + s[1..];
    }
  }

  // --------------------------------------------------- escapes stay within the text

  lemma {:induction false} HexLengthLocal(a: string, rest: string)
    ensures HexLength(a + (['\''] + rest)) == HexLength(a)
  {
    var s := a + (['\''] + rest);
    if a == "" {
      assert s[0] == '\'';
    } else {
      assert s[1..] == a[1..] + (['\''] + rest);
      HexLengthLocal(a[1..], rest);
    }
  }

  lemma {:induction false} SpaceLengthLocal(a: string, rest: string)
    ensures SpaceLength(a + (['\''] + rest)) == SpaceLength(a)
  {
    var s := a + (['\''] + rest);
    if a == "" {
      assert s[0] == '\'';
    } else {
      assert s[1..] == a[1..] + (['\''] + rest);
      SpaceLengthLocal(a[1..], rest);
    }
  }

  lemma {:induction false} DigitsLengthLocal(a: string, rest: string)
    ensures DigitsLength(a + (['\''] + rest)) == DigitsLength(a)
  {
    var s := a + (['\''] + rest);
    if a == "" {
      assert s[0] == '\'';
    } else {
      assert s[1..] == a[1..] + (['\''] + rest);
      DigitsLengthLocal(a[1..], rest);
    }
  }

  lemma {:induction false} CodePointLocal(a: string, rest: string)
    requires '\'' !in a
    ensures CodePoint(a + (['\''] + rest)) == CodePoint(a)
  {
    var s := a + (['\''] + rest);
    if a == "" {
      assert s[0] == '\'';
    } else {
      var tail := a[1..];
      assert s[1..] == tail + (['\''] + rest);
      HexLengthLocal(tail, rest);
      var n := HexLength(tail);
      assert s[1..][..n] == tail[..n];
      if n == |tail| {
        assert s[1 + n] == '\'';
      } else {
        assert s[1 + n] == a[1 + n];
      }
    }
  }

  lemma {:induction false} DecimalLocal(a: string, rest: string)
    requires a != "" && IsDigit(a[0])
    ensures EscapeOf(a + (['\''] + rest)) == EscapeOf(a)
  {
    var s := a + (['\''] + rest);
    DigitsLengthLocal(a, rest);
    var n := if DigitsLength(a) < 3 then DigitsLength(a) else 3;
    assert s[0] == a[0] && s[..n] == a[..n];
  }

  lemma {:induction false} HexEscapeLocal(a: string, rest: string)
    requires a != "" && a[0] == 'x' && '\'' !in a
    ensures EscapeOf(a + (['\''] + rest)) == EscapeOf(a)
  {
    var s := a + (['\''] + rest);
    assert s[0] == 'x';
    if |a| < 3 {
      assert s[|a|] == '\'';
    } else {
      assert s[1] == a[1] && s[2] == a[2];
    }
  }

  /** An escape begun before the quote ends before it. */
  lemma {:induction false} EscapeLocal(a: string, rest: string)
    requires a != "" && OneLine(a) && '\'' !in a
    ensures EscapeOf(a + (['\''] + rest)) == EscapeOf(a)
  {
    var s := a + (['\''] + rest);
    assert s[0] == a[0] && a[0] in a && s[1..] == a[1..] + (['\''] + rest);
    if a[0] == 'z' {
      SpaceLengthLocal(a[1..], rest);
    } else if a[0] == 'x' {
      HexEscapeLocal(a, rest);
    } else if a[0] == 'u' {
      CodePointLocal(a[1..], rest);
    } else if IsDigit(a[0]) {
      DecimalLocal(a, rest);
    }
  }

  lemma TailIsQuoteFree(s: string, n: nat)
    requires QuoteFree(s) && n <= |s|
    ensures QuoteFree(s[n..])
  {
  }

  lemma {:induction false} Dropped(s: string, n: nat, rest: string)
    requires n <= |s|
    ensures (s + rest)[n..] == s[n..] + rest
  {
  }

  /** The first character of a field, or its first escape, is read and the rest remains. */
  function FirstOf(s: string): (r: Option<(string, nat)>)
    requires s != ""
    ensures r.Some? ==> 1 <= r.value.1 <= |s|
  {
    if s[0] != '\\' then Some(([s[0]], 1)) else
      var e := EscapeOf(s[1..]);
      if e.None? then None else Some((e.value.0, 1 + e.value.1))
  }

  lemma {:induction false} UnescapeFirst(s: string)
    requires s != ""
    ensures var e := FirstOf(s);
      Unescape(s) == if e.None? then None else Prepend(e.value.0, Unescape(s[e.value.1..]))
  {
  }

  lemma {:induction false} BodyFirst(s: string, rest: string)
    requires QuoteFree(s) && s != "" && s != "\\"
    ensures var e := FirstOf(s);
      LexString(s + (['\''] + rest), '\'') == if e.None? then None
        else Further(e.value.0, e.value.1, LexString(s[e.value.1..] + (['\''] + rest), '\''))
  {
    var end := ['\''] + rest;
    Dropped(s, 1, end);
    if s[0] == '\\' {
      assert s[1..] != "";
      TailIsQuoteFree(s, 1);
      EscapeLocal(s[1..], rest);
      LexEscape(s + end, '\'');
      if EscapeOf(s[1..]).Some? { Dropped(s, 1 + EscapeOf(s[1..]).value.1, end); }
    } else {
      assert s[0] in s && s + end == [s[0]] + (s[1..] + end);
      LexPlainChar(s[0], s[1..] + end, '\'');
    }
  }

  lemma {:induction false} LoneBackslash(rest: string)
    ensures Unescape("\\") == None
    ensures LexString("\\" + (['\''] + rest), '\'') == Further("'", 2, LexString(rest, '\''))
  {
    var s := "\\" + (['\''] + rest);
    assert s[1..] == ['\''] + rest && s[2..] == rest && "\\"[1..] == "";
    LexEscape(s, '\'');
    assert EscapeOf(['\''] + rest) == Some((['\''], 1));
  }

  /** A text whose escapes are all its own is read up to the quote after it. */
  lemma {:induction false} BodyReads(s: string, rest: string)
    requires QuoteFree(s) && Unescape(s).Some?
    ensures LexString(s + (['\''] + rest), '\'') == Some((Unescape(s).value, |s| + 1))
    decreases |s|
  {
    if s == "" {
      assert s + (['\''] + rest) == ['\''] + rest;
    } else {
      LoneBackslash(rest);
      UnescapeFirst(s);
      BodyFirst(s, rest);
      var n := FirstOf(s).value.1;
      TailIsQuoteFree(s, n);
      BodyReads(s[n..], rest);
    }
  }

  /** Any other text is refused, or its last backslash takes the quote and the string goes on. */
  lemma {:induction false} BodyRunsOn(s: string, rest: string)
    requires QuoteFree(s) && Unescape(s).None?
    ensures var r := LexString(s + (['\''] + rest), '\'');
      r.Some? ==> LexString(rest, '\'').Some? && r.value.1 == |s| + 1 + LexString(rest, '\'').value.1
    decreases |s|
  {
    if s == "\\" {
      LoneBackslash(rest);
    } else {
      UnescapeFirst(s);
      BodyFirst(s, rest);
      if FirstOf(s).Some? {
        var n := FirstOf(s).value.1;
        TailIsQuoteFree(s, n);
        BodyRunsOn(s[n..], rest);
      }
    }
  }

  // --------------------------------------------------- a text with its fields apart

  /** Fixed text and pasted fields in turn; each field stands between single quotes. */
  datatype Layout = End(gap: string) | More(gap: string, raw: string, rest: Layout)

  function Flat(l: Layout): string {
    match l
    case End(gap) => gap
    case More(gap, raw, rest) => gap + (['\''] + (raw + (['\''] + Flat(rest))))
  }

  /** Fixed text holds no quote of either kind, backslash or line break. */
  predicate Neutral(gap: string) { '\'' !in gap && '"' !in gap && '\\' !in gap && OneLine(gap) }

  predicate GoodLayout(l: Layout) {
    match l
    case End(gap) => Neutral(gap)
    case More(gap, raw, rest) => Neutral(gap) && QuoteFree(raw) && GoodLayout(rest)
  }

  predicate AllReadable(l: Layout) {
    match l case End(_) => true case More(_, raw, rest) => Unescape(raw).Some? && AllReadable(rest)
  }

  /** More fixed text in front. */
  function Before(gap: string, l: Layout): Layout {
    match l case End(g) => End(gap + g) case More(g, raw, rest) => More(gap + g, raw, rest)
  }

  lemma {:induction false} BeforeFlat(gap: string, l: Layout)
    ensures Flat(Before(gap, l)) == gap + Flat(l)
    ensures AllReadable(Before(gap, l)) == AllReadable(l)
    ensures Neutral(gap) && GoodLayout(l) ==> GoodLayout(Before(gap, l))
  {
    match l
    case End(g) =>
    case More(g, raw, rest) => Assoc(gap, g, ['\''] + (raw + (['\''] + Flat(rest))));
  }

  /** The text from inside a field on. */
  function Within(raw: string, rest: Layout): string { raw + (['\''] + Flat(rest)) }

  /** A string that has begun in fixed text ends at the next field's opening quote. */
  lemma {:induction false} GapString(gap: string, tail: string)
    requires Neutral(gap)
    ensures LexString(gap + (['\''] + tail), '\'') == Some((gap, |gap| + 1))
    ensures LexString(gap, '\'').None?
  {
    var all := gap + (['\''] + tail);
    if gap == "" {
      assert all[0] == '\'';
    } else {
      assert all[1..] == gap[1..] + (['\''] + tail) && gap[0] in gap;
      assert gap == [gap[0]] + gap[1..];
      GapString(gap[1..], tail);
    }
  }

  /** So after a closing quote that was taken, the text goes on inside a field, or is over. */
  lemma {:induction false} AfterTakenQuote(l: Layout)
    requires GoodLayout(l) && LexString(Flat(l), '\'').Some?
    ensures l.More? && Flat(l)[LexString(Flat(l), '\'').value.1..] == Within(l.raw, l.rest)
  {
    match l
    case End(gap) => GapString(gap, "");
    case More(gap, raw, rest) =>
      GapString(gap, Within(raw, rest));
      assert Flat(l)[|gap| + 1..] == Within(raw, rest);
  }

  // -------------------------------------------------------- the fields turned inside out

  lemma {:induction false} WithinDropped(raw: string, rest: Layout, n: nat)
    requires n <= |raw|
    ensures Within(raw, rest)[n..] == Within(raw[n..], rest)
  {
    Dropped(raw, n, ['\''] + Flat(rest));
  }

  /** Fixed text passes through a double-quoted string, quotes included. */
  lemma {:induction false} GapPasses(gap: string, tail: string)
    requires Neutral(gap) && LexString(gap + (['\''] + tail), '"').Some?
    ensures LexString(tail, '"').Some?
    ensures LexString(gap + (['\''] + tail), '"').value.1 == |gap| + 1 + LexString(tail, '"').value.1
  {
    var all := gap + (['\''] + tail);
    if gap == "" {
      assert all == ['\''] + tail;
      LexPlainChar('\'', tail, '"');
    } else {
      var more := gap[1..] + (['\''] + tail);
      assert gap[0] in gap && all == [gap[0]] + more;
      LexPlainChar(gap[0], more, '"');
      GapPasses(gap[1..], tail);
    }
  }

  lemma {:induction false} GapAlone(gap: string)
    requires Neutral(gap)
    ensures LexString(gap, '"').None?
  {
    if gap != "" {
      assert gap[0] in gap && gap == [gap[0]] + gap[1..];
      LexPlainChar(gap[0], gap[1..], '"');
      GapAlone(gap[1..]);
    }
  }

  /** A double-quoted string that begins inside a field ends inside one, if at all. */
  lemma {:induction false} DoubleQuoted(raw: string, rest: Layout) returns (raw': string, rest': Layout)
    requires QuoteFree(raw) && GoodLayout(rest) && LexString(Within(raw, rest), '"').Some?
    ensures QuoteFree(raw') && GoodLayout(rest')
    ensures Within(raw, rest)[LexString(Within(raw, rest), '"').value.1..] == Within(raw', rest')
    decreases |raw| + |Flat(rest)|, 1
  {
    var s, tail := Within(raw, rest), ['\''] + Flat(rest);
    if raw == "" {
      assert s == tail;
      LexPlainChar('\'', Flat(rest), '"');
      raw', rest' := DoubleInGap(rest);
      assert s[1..] == Flat(rest);
      Skipped(s, 1, LexString(Flat(rest), '"').value.1);
    } else if raw[0] == '"' {
      raw', rest' := raw[1..], rest;
      TailIsQuoteFree(raw, 1);
      WithinDropped(raw, rest, 1);
    } else {
      raw', rest' := DoubleGoesOn(raw, rest);
    }
  }

  lemma {:induction false} Skipped(s: string, k: nat, n: nat)
    requires k <= |s| && n <= |s[k..]|
    ensures s[k..][n..] == s[k + n..]
  {
  }

  lemma {:induction false} DoubleInGap(l: Layout) returns (raw': string, rest': Layout)
    requires GoodLayout(l) && LexString(Flat(l), '"').Some?
    ensures QuoteFree(raw') && GoodLayout(rest')
    ensures Flat(l)[LexString(Flat(l), '"').value.1..] == Within(raw', rest')
    decreases |Flat(l)|, 0
  {
    match l
    case End(gap) => GapAlone(gap);
    case More(gap, raw, rest) =>
      GapPasses(gap, Within(raw, rest));
      raw', rest' := DoubleQuoted(raw, rest);
      assert Flat(l)[|gap| + 1..] == Within(raw, rest);
      Skipped(Flat(l), |gap| + 1, LexString(Within(raw, rest), '"').value.1);
  }

  lemma {:induction false} DoubleGoesOn(raw: string, rest: Layout) returns (raw': string, rest': Layout)
    requires QuoteFree(raw) && GoodLayout(rest) && LexString(Within(raw, rest), '"').Some?
    requires raw != "" && raw[0] != '"'
    ensures QuoteFree(raw') && GoodLayout(rest')
    ensures Within(raw, rest)[LexString(Within(raw, rest), '"').value.1..] == Within(raw', rest')
    decreases |raw| + |Flat(rest)|, 0
  {
    var s := Within(raw, rest);
    if raw == "\\" {
      LoneInDouble(rest);
      raw', rest' := DoubleInGap(rest);
      Skipped(s, 2, LexString(Flat(rest), '"').value.1);
    } else {
      FieldStep(raw, rest);
      var n := FirstOf(raw).value.1;
      TailIsQuoteFree(raw, n);
      WithinDropped(raw, rest, n);
      raw', rest' := DoubleQuoted(raw[n..], rest);
      Skipped(s, n, LexString(Within(raw[n..], rest), '"').value.1);
    }
  }

  lemma {:induction false} LoneInDouble(rest: Layout)
    ensures LexString(Within("\\", rest), '"') == Further("'", 2, LexString(Flat(rest), '"'))
    ensures Within("\\", rest)[2..] == Flat(rest)
  {
    var s := Within("\\", rest);
    assert s[1..] == ['\''] + Flat(rest) && s[2..] == Flat(rest);
    LexEscape(s, '"');
    assert EscapeOf(['\''] + Flat(rest)) == Some((['\''], 1));
  }

  lemma {:induction false} FieldStep(raw: string, rest: Layout)
    requires QuoteFree(raw) && raw != "" && raw != "\\" && raw[0] != '"'
    ensures var e := FirstOf(raw);
      LexString(Within(raw, rest), '"') == if e.None? then None
        else Further(e.value.0, e.value.1, LexString(Within(raw[e.value.1..], rest), '"'))
  {
    var end := ['\''] + Flat(rest);
    Dropped(raw, 1, end);
    if raw[0] == '\\' {
      assert raw[1..] != "";
      TailIsQuoteFree(raw, 1);
      EscapeLocal(raw[1..], Flat(rest));
      LexEscape(raw + end, '"');
      if EscapeOf(raw[1..]).Some? { Dropped(raw, 1 + EscapeOf(raw[1..]).value.1, end); }
    } else {
      assert raw[0] in raw && raw + end == [raw[0]] + (raw[1..] + end);
      LexPlainChar(raw[0], raw[1..] + end, '"');
    }
  }

  lemma {:induction false} WordLengthLocal(a: string, rest: string)
    ensures WordLength(a + (['\''] + rest)) == WordLength(a)
  {
    var s := a + (['\''] + rest);
    if a == "" {
      assert s[0] == '\'';
    } else {
      assert s[1..] == a[1..] + (['\''] + rest);
      WordLengthLocal(a[1..], rest);
    }
  }

  /** Read as Lua text, not as a string, the inside of a field leads nowhere: sooner or
      later some string never ends. */
  lemma {:induction false} InsideOut(raw: string, rest: Layout)
    requires QuoteFree(raw) && GoodLayout(rest)
    ensures Lex(Within(raw, rest)) == None
    decreases |raw| + |Flat(rest)|
  {
    var s := Within(raw, rest);
    if raw == "" {
      ClosingOpens(rest);
    } else {
      assert s[0] == raw[0] && raw[0] in raw;
      if IsLetter(raw[0]) {
        WordLengthLocal(raw, Flat(rest));
        InsideOutAfter(raw, rest, WordLength(raw));
      } else if IsDigit(raw[0]) {
        DigitsLengthLocal(raw, Flat(rest));
        InsideOutAfter(raw, rest, DigitsLength(raw));
      } else if raw[0] == '"' {
        InsideDouble(raw, rest);
      } else {
        InsideOutAfter(raw, rest, 1);
      }
    }
  }

  lemma {:induction false} InsideOutAfter(raw: string, rest: Layout, n: nat)
    requires QuoteFree(raw) && GoodLayout(rest) && 1 <= n <= |raw|
    ensures Lex(Within(raw, rest)[n..]) == None
    decreases |raw| + |Flat(rest)|, 0
  {
    TailIsQuoteFree(raw, n);
    WithinDropped(raw, rest, n);
    InsideOut(raw[n..], rest);
  }

  /** The quote meant to close the field opens a string. */
  lemma {:induction false} ClosingOpens(rest: Layout)
    requires GoodLayout(rest)
    ensures Lex(Within("", rest)) == None
    decreases |Flat(rest)|, 0
  {
    assert Within("", rest) == ['\''] + Flat(rest);
    LexFromQuote(Flat(rest));
    if LexString(Flat(rest), '\'').Some? {
      AfterTakenQuote(rest);
      InsideOut(rest.raw, rest.rest);
    }
  }

  lemma {:induction false} InsideDouble(raw: string, rest: Layout)
    requires QuoteFree(raw) && GoodLayout(rest) && raw != "" && raw[0] == '"'
    ensures Lex(Within(raw, rest)) == None
    decreases |raw| + |Flat(rest)|, 0
  {
    var s := Within(raw, rest);
    TailIsQuoteFree(raw, 1);
    WithinDropped(raw, rest, 1);
    var body := LexString(s[1..], '"');
    if body.Some? {
      var raw', rest' := DoubleQuoted(raw[1..], rest);
      Skipped(s, 1, body.value.1);
      InsideOut(raw', rest');
    }
  }

  /** What cannot be lexed from a quote on cannot be lexed with fixed text before it. */
  lemma {:induction false} GapBefore(gap: string, tail: string)
    requires Neutral(gap) && Lex(['\''] + tail) == None
    ensures Lex(gap + (['\''] + tail)) == None
    decreases |gap|
  {
    var s := gap + (['\''] + tail);
    if gap == "" {
      assert s == ['\''] + tail;
    } else {
      assert s[0] == gap[0] && gap[0] in gap;
      WordLengthLocal(gap, tail);
      DigitsLengthLocal(gap, tail);
      var n := if IsLetter(gap[0]) then WordLength(gap) else if IsDigit(gap[0]) then DigitsLength(gap) else 1;
      Dropped(gap, n, ['\''] + tail);
      Dropped(gap, 1, ['\''] + tail);
      GapBefore(gap[n..], tail);
    }
  }

  /** One field that is not read as a string of its own makes the whole text unreadable,
      whatever the other fields hold. */
  lemma {:induction false} Unreadable(l: Layout)
    requires GoodLayout(l) && !AllReadable(l)
    ensures Lex(Flat(l)) == None
  {
    if Unescape(l.raw).Some? { Unreadable(l.rest); }
    FieldUnreadable(l.raw, l.rest);
    GapBefore(l.gap, Within(l.raw, l.rest));
  }

  lemma {:induction false} FieldUnreadable(raw: string, rest: Layout)
    requires QuoteFree(raw) && GoodLayout(rest) && (Unescape(raw).Some? ==> Lex(Flat(rest)) == None)
    ensures Lex(['\''] + Within(raw, rest)) == None
  {
    var tail := Within(raw, rest);
    LexFromQuote(tail);
    if Unescape(raw).Some? {
      BodyReads(raw, Flat(rest));
      assert tail[|raw| + 1..] == Flat(rest);
    } else if LexString(tail, '\'').Some? {
      FieldRunsOn(raw, rest);
      InsideOut(rest.raw, rest.rest);
    }
  }

  /** A string that runs on past its field ends where the next field begins. */
  lemma {:induction false} FieldRunsOn(raw: string, rest: Layout)
    requires QuoteFree(raw) && GoodLayout(rest) && Unescape(raw).None? && LexString(Within(raw, rest), '\'').Some?
    ensures rest.More?
    ensures Within(raw, rest)[LexString(Within(raw, rest), '\'').value.1..] == Within(rest.raw, rest.rest)
  {
    BodyRunsOn(raw, Flat(rest));
    TakenQuoteLeads(raw, rest, LexString(Flat(rest), '\'').value.1);
  }

  lemma {:induction false} TakenQuoteLeads(raw: string, rest: Layout, n: nat)
    requires GoodLayout(rest) && LexString(Flat(rest), '\'').Some? && n == LexString(Flat(rest), '\'').value.1
    ensures rest.More? && |raw| + 1 + n <= |Within(raw, rest)|
    ensures Within(raw, rest)[|raw| + 1 + n..] == Within(rest.raw, rest.rest)
  {
    AfterTakenQuote(rest);
    FieldAndQuote(raw, Flat(rest), n);
  }

  lemma {:induction false} FieldAndQuote(raw: string, tail: string, n: nat)
    requires n <= |tail|
    ensures var s := raw + (['\''] + tail); |raw| + 1 + n <= |s| && s[|raw| + 1 + n..] == tail[n..]
  {
  }
}
