/** Lua values and the recursive printer LuaConfSerialize. */
module LuaPrinter {
  import opened Prelude
  import opened LuaSyntax

  datatype Key = StrKey(name: string) | OtherKey(id: int)
  datatype Entry = Entry(key: Key, value: Value)

  /** A table is what the printer can see of it: the pairs iteration visits, positions
      aside, in iteration order, and the values at positions 1..#. A hole in the list
      is Nil. `Num` is a number that is not an integer. */
  datatype Value = Nil | Bool(b: bool) | Int(n: int) | Num(n: int) | Str(s: string) | Func
                 | Table(entries: seq<Entry>, list: seq<Value>)

  /** No floating-point number inside: how those print is not modelled. */
  predicate Printable(v: Value)
    decreases v
  {
    match v
    case Num(_) => false
    case Table(entries, list) =>
      && (forall i :: 0 <= i < |entries| ==> Printable(entries[i].value))
      && (forall i :: 0 <= i < |list| ==> Printable(list[i]))
    case _ => true
  }

  // --------------------------------------------------- what gets printed

  /** The expression a value is written as. */
  function Tree(v: Value): Exp
    decreases v, 1
  {
    match v
    case Nil => ENil
    case Bool(b) => EBool(b)
    case Int(n) => ENum(n)
    case Num(n) => ENum(n)
    case Str(s) => EStr(s)
    case Func => ENil
    case Table(entries, list) => ETable(NamedFields(entries) + PosFields(list))
  }

  predicate KeptEntry(e: Entry) { e.key.StrKey? && !e.value.Func? }

  /** No field for an entry the printer skips, otherwise one. */
  function NamedField(e: Entry): seq<Field>
    decreases e, 2
  {
    if KeptEntry(e) then [Named(e.key.name, Tree(e.value))] else []
  }

  function NamedFields(entries: seq<Entry>): seq<Field>
    decreases entries, 0
  {
    if entries == [] then [] else NamedField(entries[0]) + NamedFields(entries[1..])
  }

  function PosField(v: Value): seq<Field>
    decreases v, 2
  {
    if v.Func? then [] else [Pos(Tree(v))]
  }

  function PosFields(list: seq<Value>): seq<Field>
    decreases list, 0
  {
    if list == [] then [] else PosField(list[0]) + PosFields(list[1..])
  }

  // ------------------------------------------------------ how it is laid out

  function Tabs(n: nat): string {
    if n == 0 then "" else "\t" + Tabs(n - 1)
  }

  function Escape(s: string): string {
    if s == "" then "" else (if s[0] == '"' || s[0] == '\\' then ['\\', s[0]] else [s[0]]) + Escape(s[1..])
  }

  /** std::quoted. */
  function Quoted(s: string): string { ['"'] + (Escape(s) + ['"']) }

  function Decimal(n: nat): (r: string)
    ensures r != "" && forall i :: 0 <= i < |r| ==> IsDigit(r[i])
  {
    var last := [('0' as int + n % 10) as char];
    if n < 10 then last else Decimal(n / 10) + last
  }

  function Scalar(e: Exp): string
    requires !e.ETable?
  {
    match e
    case ENil => "nil"
    case EBool(b) => if b then "true" else "false"
    case ENum(n) => if n < 0 then "-" + Decimal(-n) else Decimal(n)
    case EStr(s) => Quoted(s)
  }

  function Opening(name: string, tabs: nat): string {
    (if name == "" then "" else Tabs(tabs) + (name + " =\n")) + (Tabs(tabs) + "{\n")
  }

  function Render(e: Exp, name: string, tabs: nat): string
    decreases e, 1
  {
    match e
    case ETable(fields) => Opening(name, tabs) + (RenderFields(fields, tabs + 1) + ("\n" + (Tabs(tabs) + "}")))
    case _ => Tabs(tabs) + ((if name == "" then "" else name + " = ") + Scalar(e))
  }

  function RenderField(f: Field, tabs: nat): string
    decreases f, 2
  {
    match f
    case Named(name, e) => Render(e, name, tabs)
    case Pos(e) => Render(e, "", tabs)
  }

  function RenderFields(fs: seq<Field>, tabs: nat): string
    decreases fs, 0
  {
    if fs == [] then ""
    else if |fs| == 1 then RenderField(fs[0], tabs)
    else RenderField(fs[0], tabs) + (",\n" + RenderFields(fs[1..], tabs))
  }

  // ------------------------------------------------------------ the printer

  /** What a further field adds to the printed fields before it. */
  function Addition(fs: seq<Field>, f: Field, tabs: nat): string {
    (if fs == [] then "" else ",\n") + RenderField(f, tabs)
  }

  lemma {:induction false} RenderOneMore(fs: seq<Field>, f: Field, tabs: nat)
    ensures RenderFields(fs + [f], tabs) == RenderFields(fs, tabs) + Addition(fs, f, tabs)
  {
    var all, x := fs + [f], Addition(fs, f, tabs);
    if fs == [] {
      assert all == [f] && "" + ("" + RenderField(f, tabs)) == RenderField(f, tabs);
    } else {
      var first, rest := RenderField(fs[0], tabs), fs[1..];
      assert all[0] == fs[0] && all[1..] == rest + [f];
      if rest == [] {
        assert all[1..] == [f];
      } else {
        RenderOneMore(rest, f, tabs);
        Assoc(",\n", RenderFields(rest, tabs), x);
        Assoc(first, ",\n" + RenderFields(rest, tabs), x);
      }
    }
  }

  lemma {:induction false} NamedFieldsAppend(a: seq<Entry>, b: seq<Entry>)
    ensures NamedFields(a + b) == NamedFields(a) + NamedFields(b)
  {
    if a == [] {
      assert a + b == b;
    } else {
      assert (a + b)[1..] == a[1..] + b;
      NamedFieldsAppend(a[1..], b);
    }
  }

  lemma {:induction false} PosFieldsAppend(a: seq<Value>, b: seq<Value>)
    ensures PosFields(a + b) == PosFields(a) + PosFields(b)
  {
    if a == [] {
      assert a + b == b;
    } else {
      assert (a + b)[1..] == a[1..] + b;
      PosFieldsAppend(a[1..], b);
    }
  }

  /** The buffer after the fields `fs` of a table have been written. */
  function Buffer(head: string, fs: seq<Field>, tabs: nat): string { head + RenderFields(fs, tabs) }

  lemma BufferGrows(head: string, fs: seq<Field>, f: Field, tabs: nat)
    ensures Buffer(head, fs + [f], tabs)
         == Buffer(head, fs, tabs) + (if fs == [] then "" else ",\n") + RenderField(f, tabs)
  {
    RenderOneMore(fs, f, tabs);
    var sep, last := if fs == [] then "" else ",\n", RenderField(f, tabs);
    Assoc(head, RenderFields(fs, tabs), sep + last);
    Assoc(head + RenderFields(fs, tabs), sep, last);
  }

  lemma EntryStep(entries: seq<Entry>, i: nat)
    requires i < |entries|
    ensures NamedFields(entries[..i + 1]) == NamedFields(entries[..i]) + NamedField(entries[i])
  {
    assert entries[..i + 1] == entries[..i] + [entries[i]];
    NamedFieldsAppend(entries[..i], [entries[i]]);
  }

  lemma ListStep(named: seq<Field>, list: seq<Value>, i: nat)
    requires i < |list|
    ensures named + PosFields(list[..i + 1]) == named + PosFields(list[..i]) + PosField(list[i])
  {
    assert list[..i + 1] == list[..i] + [list[i]];
    PosFieldsAppend(list[..i], [list[i]]);
  }

  /** The printer: two loops over one buffer, sharing the separator flag. */
  method LuaConfSerialize(v: Value, name: string, tabs: nat) returns (ostr: string)
    requires Printable(v)
    ensures ostr == if v.Func? then "" else Render(Tree(v), name, tabs)
    decreases v, 1
  {
    if v.Func? {
      return "";
    }
    if v.Table? {
      ostr := SerializeTable(v, name, tabs);
      return;
    }
    ostr := "";
    if name != "" {
      ostr := name + " = ";
    }
    ostr := Tabs(tabs) + (ostr + Scalar(Tree(v)));
  }

  method SerializeTable(v: Value, name: string, tabs: nat) returns (ostr: string)
    requires v.Table? && Printable(v)
    ensures ostr == Render(Tree(v), name, tabs)
    decreases v, 0
  {
    ostr := "";
    if name != "" {
      ostr := Tabs(tabs) + (name + " =\n");
    }
    ostr := ostr + (Tabs(tabs) + "{\n");
    ghost var head := ostr;
    assert head == Opening(name, tabs);
    var isFirst;
    ostr, isFirst := WriteEntries(v, tabs + 1, ostr);
    ostr := WriteList(v, tabs + 1, head, NamedFields(v.entries), ostr, isFirst);
    ghost var fields := NamedFields(v.entries) + PosFields(v.list);
    ostr := ostr + ("\n" + (Tabs(tabs) + "}"));
    assert ostr == Opening(name, tabs) + (RenderFields(fields, tabs + 1) + ("\n" + (Tabs(tabs) + "}")));
  }

  /** The loop over the pairs: string keys whose value is not a function. */
  method WriteEntries(v: Value, tabs: nat, head: string) returns (ostr: string, isFirst: bool)
    requires v.Table? && Printable(v)
    ensures isFirst <==> NamedFields(v.entries) == []
    ensures ostr == Buffer(head, NamedFields(v.entries), tabs)
    decreases v.entries
  {
    ostr, isFirst := head, true;
    ghost var fields: seq<Field> := [];
    for i := 0 to |v.entries|
      invariant fields == NamedFields(v.entries[..i])
      invariant isFirst <==> fields == []
      invariant ostr == Buffer(head, fields, tabs)
    {
      EntryStep(v.entries, i);
      var e := v.entries[i];
      if KeptEntry(e) {
        var part := LuaConfSerialize(e.value, e.key.name, tabs);
        BufferGrows(head, fields, Named(e.key.name, Tree(e.value)), tabs);
        ostr := ostr + (if isFirst then "" else ",\n") + part;
        isFirst := false;
        fields := fields + [Named(e.key.name, Tree(e.value))];
      }
    }
    assert v.entries[..|v.entries|] == v.entries;
  }

  /** The loop over the positions, going on with the buffer and the flag. */
  method WriteList(v: Value, tabs: nat, ghost head: string, ghost named: seq<Field>, written: string, first: bool)
    returns (ostr: string)
    requires v.Table? && Printable(v)
    requires (first <==> named == []) && written == Buffer(head, named, tabs)
    ensures ostr == Buffer(head, named + PosFields(v.list), tabs)
    decreases v.list
  {
    ostr := written;
    var isFirst := first;
    ghost var fields := named;
    for i := 0 to |v.list|
      invariant fields == named + PosFields(v.list[..i])
      invariant isFirst <==> fields == []
      invariant ostr == Buffer(head, fields, tabs)
    {
      ListStep(named, v.list, i);
      if !v.list[i].Func? {
        var part := LuaConfSerialize(v.list[i], "", tabs);
        BufferGrows(head, fields, Pos(Tree(v.list[i])), tabs);
        ostr := ostr + (if isFirst then "" else ",\n") + part;
        isFirst := false;
        fields := fields + [Pos(Tree(v.list[i]))];
      }
    }
    assert v.list[..|v.list|] == v.list;
  }
}
