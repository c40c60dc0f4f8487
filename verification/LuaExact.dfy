/** When a printed value reads back. Both readers hand the text to Lua as a C string, so
    it is cut at the first NUL; a cut at a character the printer never writes by itself
    falls inside a quoted string, and then nothing can be read. */
module LuaExact {
  import opened Prelude
  import opened LuaSyntax
  import opened LuaPrinter
  import opened LuaRoundTrip
  import opened LuaMeaning

  // ---------------------------------------------------------- the C string

  /** The text as far as c_str() shows it. */
  function UntilNul(s: string): string {
    if s == "" || s[0] == NUL then "" else [s[0]] + UntilNul(s[1..])
  }

  lemma {:induction false} NoNulWhole(s: string)
    requires NUL !in s
    ensures UntilNul(s) == s
  {
    if s != "" {
      NoNulWhole(s[1..]);
    }
  }

  lemma {:induction false} FirstNul(s: string) returns (r: nat)
    requires NUL in s
    ensures r < |s| && s[r] == NUL && UntilNul(s) == s[..r]
  {
    if s[0] == NUL {
      r := 0;
    } else {
      var q := FirstNul(s[1..]);
      r := q + 1;
      assert s[..r] == [s[0]] + s[1..][..q];
    }
  }

  // ----------------------------------------------------- a cut inside a string

  lemma NameHasNoControl(name: string)
    requires IsIdentifier(name)
    ensures '\r' !in name && NUL !in name
  {
  }

  lemma Spliced(a: string, b: string, r: nat)
    requires |a| <= r < |a + b|
    ensures (a + b)[..r] == a + b[..r - |a|] && (a + b)[r] == b[r - |a|]
  {
  }

  lemma InFirst(a: string, b: string, r: nat)
    requires r < |a|
    ensures (a + b)[..r] == a[..r] && (a + b)[r] == a[r]
  {
  }

  /** A character that does not occur in `a` is found in `b`. */
  lemma PastFirst(a: string, b: string, r: nat)
    requires r < |a + b| && (a + b)[r] !in a
    ensures |a| <= r && (a + b)[..r] == a + b[..r - |a|] && (a + b)[r] == b[r - |a|]
  {
    assert forall k :: 0 <= k < |a| ==> (a + b)[k] in a;
  }

  lemma BeforeLast(a: string, b: string, r: nat)
    requires r < |a + b| && (a + b)[r] !in b
    ensures r < |a| && (a + b)[..r] == a[..r] && (a + b)[r] == a[r]
  {
    assert forall k :: |a| <= k < |a + b| ==> (a + b)[k] == b[k - |a|];
  }

  lemma {:induction false} CutString(s: string, r: nat)
    requires r < |Escape(s)| && Foreign(Escape(s)[r])
    ensures LexString(Escape(s)[..r], '"') == None
  {
    var c := if s[0] == '"' || s[0] == '\\' then ['\\', s[0]] else [s[0]];
    var more := Escape(s[1..]);
    if r < |c| {
      assert r == 0;
    } else {
      Spliced(c, more, r);
      CutString(s[1..], r - |c|);
      var tail := more[..r - |c|];
      assert (c + tail)[|c|..] == tail && (c + tail)[0] == c[0];
    }
  }

  lemma CutQuoted(s: string, r: nat)
    requires r < |Quoted(s)| && Foreign(Quoted(s)[r])
    ensures Lex(Quoted(s)[..r]) == None
  {
    Spliced(['"'], Escape(s) + ['"'], r);
    InFirst(Escape(s), ['"'], r - 1);
    CutString(s, r - 1);
    var text := Quoted(s)[..r];
    assert text[0] == '"' && text[1..] == Escape(s)[..r - 1];
  }

  lemma CutScalar(e: Exp, r: nat)
    requires !e.ETable? && r < |Scalar(e)| && Foreign(Scalar(e)[r])
    ensures Lex(Scalar(e)[..r]) == None
  {
    ForeignInScalar(e, Scalar(e)[r]);
    CutQuoted(e.s, r);
  }

  /** Cut at a CR or NUL, a printed expression is no longer readable. */
  lemma {:induction false} CutRender(e: Exp, name: string, tabs: nat, r: nat)
    requires NamesGood(e) && GoodLabel(name) && r < |Render(e, name, tabs)| && Foreign(Render(e, name, tabs)[r])
    ensures Lex(Render(e, name, tabs)[..r]) == None
    decreases e, 1
  {
    var c := Render(e, name, tabs)[r];
    if name != "" { NameHasNoControl(name); }
    ForeignInTabs(tabs, c);
    if e.ETable? {
      CutTable(e, name, tabs, r);
    } else {
      var text := (if name == "" then "" else name + " = ") + Scalar(e);
      PastFirst(Tabs(tabs), text, r);
      var q := r - |Tabs(tabs)|;
      LexTabs(tabs, text[..q]);
      CutLabelled(e, name, q);
    }
  }

  lemma CutLabelled(e: Exp, name: string, r: nat)
    requires !e.ETable? && GoodLabel(name)
    requires var text := (if name == "" then "" else name + " = ") + Scalar(e); r < |text| && Foreign(text[r])
    ensures Lex(((if name == "" then "" else name + " = ") + Scalar(e))[..r]) == None
  {
    if name == "" {
      assert "" + Scalar(e) == Scalar(e);
      CutScalar(e, r);
    } else {
      NameHasNoControl(name);
      PastFirst(name + " = ", Scalar(e), r);
      var q := r - |name + " = "|;
      CutScalar(e, q);
      LexLabel(name, ' ', Scalar(e)[..q]);
    }
  }

  lemma {:induction false} CutTable(e: Exp, name: string, tabs: nat, r: nat)
    requires e.ETable? && NamesGood(e) && GoodLabel(name) && (name != "" ==> '\r' !in name && NUL !in name)
    requires r < |Render(e, name, tabs)| && Foreign(Render(e, name, tabs)[r])
    ensures Lex(Render(e, name, tabs)[..r]) == None
    decreases e, 0
  {
    var c := Render(e, name, tabs)[r];
    var inside, closing := RenderFields(e.fields, tabs + 1), "\n" + (Tabs(tabs) + "}");
    ForeignInOpening(name, tabs, c);
    PastFirst(Opening(name, tabs), inside + closing, r);
    var q := r - |Opening(name, tabs)|;
    ForeignInTabs(tabs, c);
    assert c !in closing;
    BeforeLast(inside, closing, q);
    LexOpening(name, tabs, inside[..q]);
    CutFields(e.fields, tabs + 1, q);
  }

  lemma {:induction false} CutField(f: Field, tabs: nat, r: nat)
    requires FieldNamesGood(f) && r < |RenderField(f, tabs)| && Foreign(RenderField(f, tabs)[r])
    ensures Lex(RenderField(f, tabs)[..r]) == None
    decreases f, 2
  {
    match f
    case Named(name, e) => CutRender(e, name, tabs, r);
    case Pos(e) => CutRender(e, "", tabs, r);
  }

  lemma {:induction false} CutFields(fs: seq<Field>, tabs: nat, r: nat)
    requires AllNamesGood(fs) && r < |RenderFields(fs, tabs)| && Foreign(RenderFields(fs, tabs)[r])
    ensures Lex(RenderFields(fs, tabs)[..r]) == None
    decreases fs, 0
  {
    if |fs| == 1 {
      CutField(fs[0], tabs, r);
    } else {
      var first, more := RenderField(fs[0], tabs), RenderFields(fs[1..], tabs);
      if r < |first| {
        InFirst(first, ",\n" + more, r);
        CutField(fs[0], tabs, r);
      } else {
        var q := r - |first|;
        Spliced(first, ",\n" + more, r);
        PastFirst(",\n", more, q);
        CutFields(fs[1..], tabs, q - 2);
        LexSymbolLine(',', more[..q - 2]);
        NothingAfter(fs[0], tabs, ",\n" + more[..q - 2]);
      }
    }
  }

  /** What cannot be lexed cannot be lexed after a field either. */
  lemma NothingAfter(f: Field, tabs: nat, rest: string)
    requires FieldNamesGood(f) && Breaks(rest) && Lex(rest) == None
    ensures Lex(RenderField(f, tabs) + rest) == None
  {
    if FieldWellFormed(f) {
      LexRenderField(f, tabs, rest);
    } else {
      UnreadableField(f, tabs, rest);
    }
  }

  // ------------------------------------------------------- no CR when readable

  lemma {:induction false} WellFormedNoCr(e: Exp)
    requires WellFormed(e)
    ensures !Holds(e, '\r')
    decreases e, 1
  {
    if e.ETable? {
      FieldsNoCr(e.fields);
    }
  }

  lemma {:induction false} FieldNoCr(f: Field)
    requires FieldWellFormed(f)
    ensures !FieldHolds(f, '\r')
    decreases f, 2
  {
    WellFormedNoCr(f.value);
    if f.Named? { NameHasNoControl(f.name); }
  }

  lemma {:induction false} FieldsNoCr(fs: seq<Field>)
    requires AllWellFormed(fs)
    ensures !FieldsHold(fs, '\r')
    decreases fs, 0
  {
    if fs != [] {
      FieldNoCr(fs[0]);
      FieldsNoCr(fs[1..]);
    }
  }

  // ------------------------------------------- what is read has proper names

  predicate NamesInToks(ts: seq<Token>) {
    forall i :: 0 <= i < |ts| && ts[i].TName? ==> IsName(ts[i].name)
  }

  lemma {:induction false} WordIsWord(s: string)
    ensures forall i :: 0 <= i < WordLength(s) ==> IsWordChar(s[i])
  {
    if s != "" && IsWordChar(s[0]) {
      WordIsWord(s[1..]);
      assert forall i :: 1 <= i < WordLength(s) ==> s[i] == s[1..][i - 1];
    }
  }

  lemma {:induction false} LexedNames(s: string)
    ensures Lex(s).Some? ==> NamesInToks(Lex(s).value)
    decreases |s|
  {
    if s == "" {
    } else if IsSpace(s[0]) {
      LexedNames(s[1..]);
    } else if IsLetter(s[0]) {
      WordIsWord(s);
      LexedNames(s[WordLength(s)..]);
    } else if IsDigit(s[0]) {
      LexedNames(s[DigitsLength(s)..]);
    } else if s[0] == '"' || s[0] == '\'' {
      var body := LexString(s[1..], s[0]);
      if body.Some? { LexedNames(s[1 + body.value.1..]); }
    } else {
      LexedNames(s[1..]);
    }
  }

  lemma {:induction false} ParsedExpNames(ts: seq<Token>)
    requires NamesInToks(ts) && ParseExp(ts).Some?
    ensures NamesGood(ParseExp(ts).value.0) && NamesInToks(ParseExp(ts).value.1)
    decreases |ts|, 0
  {
    if ts[0] == TSym('{') {
      ParsedFieldsNames(ts[1..]);
    }
  }

  lemma {:induction false} ParsedFieldNames(ts: seq<Token>)
    requires NamesInToks(ts) && ParseField(ts).Some?
    ensures FieldNamesGood(ParseField(ts).value.0) && NamesInToks(ParseField(ts).value.1)
    decreases |ts|, 1
  {
    if |ts| >= 2 && ts[0].TName? && ts[0].name !in RESERVED && ts[1] == TSym('=') {
      ParsedExpNames(ts[2..]);
    } else {
      ParsedExpNames(ts);
    }
  }

  lemma {:induction false} ParsedFieldsNames(ts: seq<Token>)
    requires NamesInToks(ts) && ParseFields(ts).Some?
    ensures AllNamesGood(ParseFields(ts).value.0) && NamesInToks(ParseFields(ts).value.1)
    decreases |ts|, 2
  {
    if ts[0] != TSym('}') {
      ParsedFieldNames(ts);
      var (f, rest) := ParseField(ts).value;
      if rest[0] != TSym('}') {
        ParsedFieldsNames(rest[1..]);
        var fs := ParseFields(rest[1..]).value.0;
        assert ([f] + fs)[1..] == fs;
      } else {
        assert [f][1..] == [];
      }
    }
  }

  /** Whatever text is read, every name assigned to is an identifier. */
  lemma ReadNames(text: string)
    ensures var r := Read(text);
      r.Some? && |r.value| == 1 ==> IsIdentifier(r.value[0].name) && NamesGood(r.value[0].value)
  {
    LexedNames(text);
    if Lex(text).Some? {
      ParsedChunkNames(Lex(text).value);
    }
  }

  lemma {:induction false} ParsedChunkNames(ts: seq<Token>)
    requires NamesInToks(ts)
    ensures var r := ParseChunk(ts);
      r.Some? ==> forall i :: 0 <= i < |r.value| ==> IsIdentifier(r.value[i].name) && NamesGood(r.value[i].value)
    decreases |ts|
  {
    if ts == [] {
    } else if ts[0] == TSym(';') {
      ParsedChunkNames(ts[1..]);
    } else if |ts| >= 2 && ts[0].TName? && ts[0].name !in RESERVED && ts[1] == TSym('=') && ParseExp(ts[2..]).Some? {
      ParsedExpNames(ts[2..]);
      ParsedChunkNames(ParseExp(ts[2..]).value.1);
    }
  }

  // ------------------------------------------------------ the exact condition

  /** A printed assignment, cut where its first NUL is, reads back if and only if every
      name in it is an identifier and no string holds a line break or NUL. With proper
      names the other case reads as nothing. */
  lemma ReadRenderExactly(e: Exp, name: string, tabs: nat)
    ensures Read(UntilNul(Render(e, name, tabs))) == Some([Assignment(name, e)]) <==>
      IsIdentifier(name) && WellFormed(e) && !Holds(e, NUL)
    ensures NamesGood(e) && IsIdentifier(name) && !(WellFormed(e) && !Holds(e, NUL)) ==>
      Read(UntilNul(Render(e, name, tabs))) == None
  {
    ReadNames(UntilNul(Render(e, name, tabs)));
    if NamesGood(e) && IsIdentifier(name) {
      ReadOrNothing(e, name, tabs);
    }
    if WellFormed(e) { GoodNames(e); }
  }

  lemma ReadOrNothing(e: Exp, name: string, tabs: nat)
    requires NamesGood(e) && IsIdentifier(name)
    ensures Read(UntilNul(Render(e, name, tabs))) ==
      if WellFormed(e) && !Holds(e, NUL) then Some([Assignment(name, e)]) else None
  {
    var text := Render(e, name, tabs);
    NameHasNoControl(name);
    ForeignInRender(e, name, tabs, NUL);
    if Holds(e, NUL) {
      var r := FirstNul(text);
      CutRender(e, name, tabs, r);
    } else {
      NoNulWhole(text);
      if WellFormed(e) {
        ReadRender(e, name, tabs);
      } else {
        assert text + "" == text;
        UnreadableRender(e, name, tabs, "");
      }
    }
  }

  // ----------------------------------------------- and for values, all the way

  /** Every string key anywhere in the value is an identifier, and every integer one that
      a numeral denotes. */
  ghost predicate Writable(v: Value)
    decreases v
  {
    && (v.Int? ==> INT64_MIN < v.n <= INT64_MAX)
    && (v.Table? ==>
          && (forall i :: 0 <= i < |v.entries| ==> EntryWritable(v.entries[i]))
          && (forall i :: 0 <= i < |v.list| ==> Writable(v.list[i])))
  }

  ghost predicate EntryWritable(e: Entry)
    decreases e
  {
    (e.key.StrKey? ==> IsIdentifier(e.key.name)) && Writable(e.value)
  }

  ghost predicate AllWritable(entries: seq<Entry>) {
    forall i :: 0 <= i < |entries| ==> EntryWritable(entries[i])
  }

  lemma {:induction false} RemoveKeeps(entries: seq<Entry>, name: string)
    requires AllWritable(entries)
    ensures AllWritable(Remove(entries, name))
  {
    if entries != [] {
      RemoveKeeps(entries[1..], name);
    }
  }

  lemma {:induction false} LeftoverWritable(list: seq<Value>, n: nat)
    requires n <= |list| && forall i :: 0 <= i < |list| ==> Writable(list[i])
    ensures AllWritable(Leftover(list, n))
    decreases |list| - n
  {
    if n < |list| {
      LeftoverWritable(list, n + 1);
    }
  }

  /** What is evaluated from proper names could have been written. */
  lemma {:induction false} EvalWritable(e: Exp, len: Length)
    requires Lawful(len) && NamesGood(e)
    ensures Writable(Eval(e, len))
    decreases e, 1
  {
    if e.ETable? {
      var list := EvalPos(e.fields, len);
      EvalNamedWritable([], e.fields, len);
      EvalPosWritable(e.fields, len);
      assert IsBorder(list, len(list));
      LeftoverWritable(list, len(list));
    }
  }

  lemma {:induction false} FieldValueWritable(f: Field, len: Length)
    requires Lawful(len) && FieldNamesGood(f)
    ensures Writable(FieldValue(f, len))
    decreases f, 2
  {
    EvalWritable(f.value, len);
  }

  lemma {:induction false} EvalNamedWritable(entries: seq<Entry>, fields: seq<Field>, len: Length)
    requires Lawful(len) && AllNamesGood(fields) && AllWritable(entries)
    ensures AllWritable(EvalNamed(entries, fields, len))
    decreases fields, 0
  {
    if fields != [] {
      FieldValueWritable(fields[0], len);
      if fields[0].Named? {
        RemoveKeeps(entries, fields[0].name);
        EvalNamedWritable(Assign(entries, fields[0].name, FieldValue(fields[0], len)), fields[1..], len);
      } else {
        EvalNamedWritable(entries, fields[1..], len);
      }
    }
  }

  lemma {:induction false} EvalPosWritable(fields: seq<Field>, len: Length)
    requires Lawful(len) && AllNamesGood(fields)
    ensures forall i :: 0 <= i < |EvalPos(fields, len)| ==> Writable(EvalPos(fields, len)[i])
    decreases fields, 0
  {
    if fields != [] {
      FieldValueWritable(fields[0], len);
      EvalPosWritable(fields[1..], len);
    }
  }

  /** If the normal form has proper keys, so has what is printed. */
  lemma {:induction false} NormalKeys(v: Value)
    requires Writable(Normal(v))
    ensures NamesGood(Tree(v))
    decreases v, 1
  {
    if v.Table? {
      NormalEntriesKeys(v, v.entries);
      NormalListKeys(v, v.list);
      NamesGoodAppend(NamedFields(v.entries), PosFields(v.list));
    }
  }

  lemma {:induction false} NormalEntriesKeys(v: Value, entries: seq<Entry>)
    requires AllWritable(NormalEntries(entries)) && forall i :: 0 <= i < |entries| ==> entries[i].value < v
    ensures AllNamesGood(NamedFields(entries))
    decreases v, 0, |entries|
  {
    if entries != [] {
      var all := NormalEntries(entries);
      assert all == NormalEntry(entries[0]) + NormalEntries(entries[1..]);
      if KeptEntry(entries[0]) {
        assert all[0] == Entry(entries[0].key, Normal(entries[0].value)) && all[1..] == NormalEntries(entries[1..]);
        NormalKeys(entries[0].value);
        assert NamedFields(entries) == NamedField(entries[0]) + NamedFields(entries[1..]);
        assert NamedFields(entries)[1..] == NamedFields(entries[1..]);
      } else {
        assert all == NormalEntries(entries[1..]) && NamedFields(entries) == NamedFields(entries[1..]);
      }
      NormalEntriesKeys(v, entries[1..]);
    }
  }

  lemma {:induction false} NormalListKeys(v: Value, list: seq<Value>)
    requires forall i :: 0 <= i < |NormalList(list)| ==> Writable(NormalList(list)[i])
    requires forall i :: 0 <= i < |list| ==> list[i] < v
    ensures AllNamesGood(PosFields(list))
    decreases v, 0, |list|
  {
    if list != [] {
      var all := NormalList(list);
      assert all == NormalItem(list[0]) + NormalList(list[1..]);
      if !list[0].Func? {
        assert all[0] == Normal(list[0]) && all[1..] == NormalList(list[1..]);
        NormalKeys(list[0]);
        assert PosFields(list) == PosField(list[0]) + PosFields(list[1..]);
        assert PosFields(list)[1..] == PosFields(list[1..]);
      } else {
        assert all == NormalList(list[1..]) && PosFields(list) == PosFields(list[1..]);
      }
      NormalListKeys(v, list[1..]);
    }
  }

  lemma {:induction false} NamesGoodAppend(a: seq<Field>, b: seq<Field>)
    requires AllNamesGood(a) && AllNamesGood(b)
    ensures AllNamesGood(a + b)
  {
    if a == [] {
      assert a + b == b;
    } else {
      assert (a + b)[1..] == a[1..] + b;
      NamesGoodAppend(a[1..], b);
    }
  }

  /** Handing the printed value to Lua assigns the normal form to the name. */
  ghost predicate ArrivesNormal(v: Value, name: string, tabs: nat, len: Length)
    requires Lawful(len)
  {
    var r := Read(UntilNul(Render(Tree(v), name, tabs)));
    r.Some? && |r.value| == 1 && r.value[0].name == name && Eval(r.value[0].value, len) == Normal(v)
  }

  /** Print, cut, lex, parse and run: every lawful reader ends with the normal form if and
      only if names and kept keys are identifiers, no kept string holds a line break or
      NUL, no kept position is a hole, and every integer can be written. */
  lemma PrintedReadsNormal(v: Value, name: string, tabs: nat)
    requires Valid(v) && Printable(v) && !v.Func?
    ensures (forall len: Length | Lawful(len) :: ArrivesNormal(v, name, tabs, len)) <==>
      IsIdentifier(name) && WellFormed(Tree(v)) && !Holds(Tree(v), NUL) && Faithful(v)
  {
    var e := Tree(v);
    ReadRenderExactly(e, name, tabs);
    if IsIdentifier(name) && WellFormed(e) && !Holds(e, NUL) && Faithful(v) {
      forall len: Length | Lawful(len) ensures ArrivesNormal(v, name, tabs, len) {
        ReadsNormal(v, len);
      }
    }
    if forall len: Length | Lawful(len) :: ArrivesNormal(v, name, tabs, len) {
      FirstHoleLawful();
      assert ArrivesNormal(v, name, tabs, FirstHole);
      ArrivedIsReadable(v, name, tabs);
    }
  }

  lemma ArrivedIsReadable(v: Value, name: string, tabs: nat)
    requires Lawful(FirstHole) && Valid(v) && Printable(v) && !v.Func? && ArrivesNormal(v, name, tabs, FirstHole)
    ensures IsIdentifier(name) && WellFormed(Tree(v)) && !Holds(Tree(v), NUL) && Faithful(v)
  {
    var text := UntilNul(Render(Tree(v), name, tabs));
    ReadNames(text);
    EvalWritable(Read(text).value[0].value, FirstHole);
    NormalKeys(v);
    ReadOrNothing(Tree(v), name, tabs);
    NormalReadFaithful(v);
  }
}
