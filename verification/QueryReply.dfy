/** A query result on its way to the client: built as a Lua table, printed, framed,
    received in blocks, and read back. */
module QueryReply {
  import opened Prelude
  import opened LuaSyntax
  import opened LuaPrinter
  import opened LuaRoundTrip
  import opened LuaMeaning
  import opened LuaExact
  import opened Framing

  /** What a query result holds under a column of a row. */
  datatype Cell = Null | IntCell(n: int) | BoolCell(b: bool) | TextCell(s: string)

  /** The field a row table should have for a cell: none for NULL, and otherwise the integer,
      the boolean or the string. */
  predicate Shows(field: Option<Value>, c: Cell) {
    match c
    case Null => field == None
    case IntCell(n) => field == Some(Int(n))
    case BoolCell(b) => field == Some(Bool(b))
    case TextCell(s) => field == Some(Str(s))
  }

  predicate DistinctColumns(columns: seq<string>) {
    forall i, j :: 0 <= i < j < |columns| ==> columns[i] != columns[j]
  }

  predicate GoodColumns(columns: seq<string>) {
    (forall i :: 0 <= i < |columns| ==> IsIdentifier(columns[i])) && DistinctColumns(columns)
  }

  /** A text the printed form can carry. */
  predicate GoodString(s: string) { OneLine(s) && NUL !in s }

  /** No CR, LF or NUL in a string, and integers a numeral can write. */
  predicate GoodCell(c: Cell) {
    match c
    case IntCell(n) => INT64_MIN < n <= INT64_MAX
    case TextCell(s) => GoodString(s)
    case _ => true
  }

  predicate GoodRow(columns: seq<string>, row: seq<Cell>) {
    |row| == |columns| && forall j :: 0 <= j < |row| ==> GoodCell(row[j])
  }

  // ---------------------------------------------------- the table of a result

  /** A table with one field per non-NULL cell, in whatever order it iterates. */
  ghost predicate RepresentsRow(v: Value, columns: seq<string>, row: seq<Cell>) {
    && v.Table? && v.list == [] && |row| == |columns|
    && (forall i, j :: 0 <= i < j < |v.entries| ==> v.entries[i].key != v.entries[j].key)
    && (forall e :: e in v.entries ==>
          exists j :: 0 <= j < |columns| && e.key == StrKey(columns[j]) && Shows(Some(e.value), row[j]))
    && (forall j :: 0 <= j < |columns| ==> Shows(FieldOf(v.entries, columns[j]), row[j]))
  }

  /** A list of such tables, row by row. */
  ghost predicate Represents(v: Value, columns: seq<string>, rows: seq<seq<Cell>>) {
    && v.Table? && v.entries == [] && |v.list| == |rows|
    && forall i :: 0 <= i < |rows| ==> RepresentsRow(v.list[i], columns, rows[i])
  }

  lemma {:induction false} FieldOfAppend(entries: seq<Entry>, e: Entry, name: string)
    ensures FieldOf(entries + [e], name) ==
      if FieldOf(entries, name).Some? then FieldOf(entries, name)
      else if e.key == StrKey(name) then Some(e.value) else None
  {
    if entries == [] {
      assert [] + [e] == [e] && [e][1..] == [];
    } else {
      assert (entries + [e])[1..] == entries[1..] + [e];
      FieldOfAppend(entries[1..], e, name);
    }
  }

  lemma {:induction false} FieldOfAbsent(entries: seq<Entry>, name: string)
    ensures FieldOf(entries, name).None? <==> forall e :: e in entries ==> e.key != StrKey(name)
  {
    if entries != [] {
      FieldOfAbsent(entries[1..], name);
      assert forall e :: e in entries <==> e == entries[0] || e in entries[1..];
    }
  }

  /** The first `n` cells of a row, as a row table. */
  ghost predicate RowPrefix(entries: seq<Entry>, columns: seq<string>, row: seq<Cell>, n: nat) {
    n <= |columns| && n <= |row| && RepresentsRow(Table(entries, []), columns[..n], row[..n])
  }

  lemma {:induction false} NextCell(entries: seq<Entry>, columns: seq<string>, row: seq<Cell>, n: nat, v: Value)
    requires DistinctColumns(columns) && |row| == |columns| && n < |columns| && RowPrefix(entries, columns, row, n)
    requires row[n].Null? || Shows(Some(v), row[n])
    ensures row[n].Null? ==> RowPrefix(entries, columns, row, n + 1)
    ensures !row[n].Null? ==> RowPrefix(entries + [Entry(StrKey(columns[n]), v)], columns, row, n + 1)
    ensures FieldOf(entries, columns[n]).None?
  {
    var cs, rs := columns[..n + 1], row[..n + 1];
    FieldOfAbsent(entries, columns[n]);
    forall e | e in entries ensures e.key != StrKey(columns[n]) {
      var j :| 0 <= j < n && e.key == StrKey(columns[..n][j]) && Shows(Some(e.value), row[..n][j]);
      assert columns[j] != columns[n];
    }
    var e := Entry(StrKey(columns[n]), v);
    var entries' := if row[n].Null? then entries else entries + [e];
    forall x | x in entries'
      ensures exists j :: 0 <= j < |cs| && x.key == StrKey(cs[j]) && Shows(Some(x.value), rs[j])
    {
      if x in entries {
        var j :| 0 <= j < n && x.key == StrKey(columns[..n][j]) && Shows(Some(x.value), row[..n][j]);
        assert cs[j] == columns[..n][j] && rs[j] == row[..n][j];
      } else {
        assert x.key == StrKey(cs[n]) && Shows(Some(x.value), rs[n]);
      }
    }
    NextFields(entries, columns, row, n, v);
  }

  lemma {:induction false} NextFields(entries: seq<Entry>, columns: seq<string>, row: seq<Cell>, n: nat, v: Value)
    requires DistinctColumns(columns) && |row| == |columns| && n < |columns| && RowPrefix(entries, columns, row, n)
    requires (row[n].Null? || Shows(Some(v), row[n])) && FieldOf(entries, columns[n]).None?
    ensures var all := if row[n].Null? then entries else entries + [Entry(StrKey(columns[n]), v)];
      var cs, rs := columns[..n + 1], row[..n + 1];
      forall j :: 0 <= j < |cs| ==> Shows(FieldOf(all, cs[j]), rs[j])
  {
    var cs, rs, e := columns[..n + 1], row[..n + 1], Entry(StrKey(columns[n]), v);
    var all := if row[n].Null? then entries else entries + [e];
    forall j | 0 <= j < n + 1 ensures Shows(FieldOf(all, cs[j]), rs[j]) {
      FieldOfAppend(entries, e, cs[j]);
      if j < n {
        assert cs[j] == columns[..n][j] && rs[j] == row[..n][j] && columns[j] != columns[n];
      }
    }
  }

  /** No cell becomes a floating-point number. */
  lemma ResultIsPrintable(v: Value, columns: seq<string>, rows: seq<seq<Cell>>)
    requires Represents(v, columns, rows)
    ensures Printable(v)
  {
    forall i | 0 <= i < |v.list| ensures Printable(v.list[i]) {
      assert RepresentsRow(v.list[i], columns, rows[i]);
      forall k | 0 <= k < |v.list[i].entries| ensures Printable(v.list[i].entries[k].value) {
        var e := v.list[i].entries[k];
        assert e in v.list[i].entries;
        var j :| 0 <= j < |columns| && e.key == StrKey(columns[j]) && Shows(Some(e.value), rows[i][j]);
      }
    }
  }

  // ----------------------------------------------------------- from MySQL's text

  datatype ColumnType = IntColumn | BoolColumn | TextColumn

  /** A selected column, what its text is taken for, and whether the server asserts that it
      holds no NULL. */
  datatype Column = Column(name: string, kind: ColumnType, denyNull: bool)

  function NamesOf(columns: seq<Column>): (r: seq<string>)
    ensures |r| == |columns| && forall j :: 0 <= j < |columns| ==> r[j] == columns[j].name
  {
    seq(|columns|, j requires 0 <= j < |columns| => columns[j].name)
  }

  /** std::from_chars into 64 signed bits, all of the text consumed. */
  function FromChars(text: string): Option<int> {
    var digits := if text != "" && text[0] == '-' then text[1..] else text;
    if digits == "" || DigitsLength(digits) != |digits| then None else
      var v: int := Digits(digits);
      var n := if |digits| < |text| then -v else v;
      if INT64_MIN <= n <= INT64_MAX then Some(n) else None
  }

  lemma {:induction false} AllDigits(s: string)
    requires forall i :: 0 <= i < |s| ==> IsDigit(s[i])
    ensures DigitsLength(s) == |s|
  {
    if s != "" {
      AllDigits(s[1..]);
    }
  }

  function In64Bits(n: int): Option<int> { if INT64_MIN <= n <= INT64_MAX then Some(n) else None }

  lemma FromDigits(digits: string)
    requires digits != "" && forall i :: 0 <= i < |digits| ==> IsDigit(digits[i])
    ensures FromChars(digits) == In64Bits(Digits(digits)) && FromChars(['-'] + digits) == In64Bits(0 - Digits(digits))
  {
    AllDigits(digits);
    assert IsDigit(digits[0]) && (['-'] + digits)[1..] == digits;
  }

  /** A number's decimal text is read as that number, exactly if 64 bits hold it. */
  lemma FromCharsExactly(n: int)
    ensures FromChars(Scalar(ENum(n))) == if INT64_MIN <= n <= INT64_MAX then Some(n) else None
  {
    FromDigits(Decimal(if n < 0 then -n else n));
    DigitsOfDecimal(if n < 0 then -n else n);
    assert "-" == ['-'];
  }

  /** What a text stands for under a column; a number that cannot be read stops the server. */
  function CellOf(kind: ColumnType, text: Option<string>): Option<Cell> {
    match text
    case None => Some(Null)
    case Some(s) =>
      match kind
      case TextColumn => Some(TextCell(s))
      case IntColumn => (match FromChars(s) case None => None case Some(n) => Some(IntCell(n)))
      case BoolColumn => (match FromChars(s) case None => None case Some(n) => Some(BoolCell(n != 0)))
  }

  function CellsRead(columns: seq<Column>, row: seq<Option<string>>): (r: seq<Cell>)
    requires |row| == |columns|
    ensures |r| == |row|
    ensures forall j :: 0 <= j < |row| ==>
      var c := CellOf(columns[j].kind, row[j]); r[j] == if c.Some? then c.value else Null
  {
    seq(|row|, j requires 0 <= j < |row| =>
      var c := CellOf(columns[j].kind, row[j]); if c.Some? then c.value else Null)
  }

  function RowsRead(columns: seq<Column>, rows: seq<seq<Option<string>>>): (r: seq<seq<Cell>>)
    requires forall i :: 0 <= i < |rows| ==> |rows[i]| == |columns|
    ensures |r| == |rows| && forall i :: 0 <= i < |rows| ==> r[i] == CellsRead(columns, rows[i])
  {
    seq(|rows|, i requires 0 <= i < |rows| => CellsRead(columns, rows[i]))
  }

  /** NULL under a column that denies it, or a text that is no number of 64 bits under one
      of numbers. */
  predicate Stops(columns: seq<Column>, row: seq<Option<string>>, j: nat)
    requires j < |columns| && |row| == |columns|
  {
    if row[j].None? then columns[j].denyNull
    else !columns[j].kind.TextColumn? && FromChars(row[j].value).None?
  }

  /** serialize_query_result: one table per row with SetRaw per cell, then printed. A NULL
      is left out under a column that allows it; where an assertion fails there is no text. */
  method SerializeQueryResult(columns: seq<Column>, rows: seq<seq<Option<string>>>, tableName: string)
    returns (text: Option<string>)
    requires DistinctColumns(NamesOf(columns)) && forall i :: 0 <= i < |rows| ==> |rows[i]| == |columns|
    ensures text.None? <==> exists i :: 0 <= i < |rows| && Halts(columns, rows[i])
    ensures text.Some? ==>
      exists tbl :: Represents(tbl, NamesOf(columns), RowsRead(columns, rows))
                    && text.value == Render(Tree(tbl), tableName, 0)
  {
    var list := RowTables(columns, rows);
    if list.None? {
      return None;
    }
    var tbl := Table([], list.value);
    assert Represents(tbl, NamesOf(columns), RowsRead(columns, rows));
    ResultIsPrintable(tbl, NamesOf(columns), RowsRead(columns, rows));
    var printed := LuaConfSerialize(tbl, tableName, 0);
    text := Some(printed);
  }

  ghost predicate Halts(columns: seq<Column>, row: seq<Option<string>>)
    requires |row| == |columns|
  {
    exists j :: 0 <= j < |columns| && Stops(columns, row, j)
  }

  /** One table for each row. */
  ghost predicate Tables(list: seq<Value>, columns: seq<Column>, rows: seq<seq<Option<string>>>)
    requires forall i :: 0 <= i < |rows| ==> |rows[i]| == |columns|
  {
    |list| == |rows| && forall i :: 0 <= i < |rows| ==>
      RepresentsRow(list[i], NamesOf(columns), CellsRead(columns, rows[i]))
  }

  lemma {:induction false} OneMoreTable(list: seq<Value>, columns: seq<Column>, rows: seq<seq<Option<string>>>,
      v: Value, row: seq<Option<string>>)
    requires (forall i :: 0 <= i < |rows| ==> |rows[i]| == |columns|) && |row| == |columns|
    requires Tables(list, columns, rows) && RepresentsRow(v, NamesOf(columns), CellsRead(columns, row))
    ensures Tables(list + [v], columns, rows + [row])
  {
  }

  /** The loop over the rows. */
  method RowTables(columns: seq<Column>, rows: seq<seq<Option<string>>>) returns (tables: Option<seq<Value>>)
    requires DistinctColumns(NamesOf(columns)) && forall i :: 0 <= i < |rows| ==> |rows[i]| == |columns|
    ensures tables.None? <==> exists i :: 0 <= i < |rows| && Halts(columns, rows[i])
    ensures tables.Some? ==> Tables(tables.value, columns, rows)
  {
    var list: seq<Value> := [];
    for i := 0 to |rows|
      invariant Tables(list, columns, rows[..i])
      invariant forall k :: 0 <= k < i ==> !Halts(columns, rows[k])
    {
      var entries := RowEntries(columns, rows[i]);
      if entries.None? {
        return None;
      }
      OneMoreTable(list, columns, rows[..i], Table(entries.value, []), rows[i]);
      assert rows[..i + 1] == rows[..i] + [rows[i]];
      list := list + [Table(entries.value, [])];
    }
    assert rows[..|rows|] == rows;
    tables := Some(list);
  }

  /** The switch on the column's type. */
  method ReadCell(kind: ColumnType, text: string) returns (v: Option<Value>)
    ensures v.None? <==> !kind.TextColumn? && FromChars(text).None?
    ensures v.Some? ==> CellOf(kind, Some(text)).Some? && Shows(v, CellOf(kind, Some(text)).value)
  {
    if kind.TextColumn? {
      return Some(Str(text));
    }
    var num := FromChars(text);
    if num.None? {
      return None;
    }
    v := Some(if kind.IntColumn? then Int(num.value) else Bool(num.value != 0));
  }

  /** One cell of the row: left out, set, or the end of the request. */
  method AddCell(entries: seq<Entry>, columns: seq<Column>, row: seq<Option<string>>, j: nat)
    returns (fields: Option<seq<Entry>>)
    requires DistinctColumns(NamesOf(columns)) && |row| == |columns| && j < |columns|
    requires RowPrefix(entries, NamesOf(columns), CellsRead(columns, row), j)
    ensures fields.None? <==> Stops(columns, row, j)
    ensures fields.Some? ==> RowPrefix(fields.value, NamesOf(columns), CellsRead(columns, row), j + 1)
  {
    ghost var names, cells := NamesOf(columns), CellsRead(columns, row);
    if row[j].None? {
      NextCell(entries, names, cells, j, Nil);
      return if columns[j].denyNull then None else Some(entries);
    }
    var value := ReadCell(columns[j].kind, row[j].value);
    if value.None? {
      return None;
    }
    NextCell(entries, names, cells, j, value.value);
    var updated := SetRaw(entries, columns[j].name, value.value);
    fields := Some(updated);
  }

  /** The loop over the cells of one row. */
  method RowEntries(columns: seq<Column>, row: seq<Option<string>>) returns (fields: Option<seq<Entry>>)
    requires DistinctColumns(NamesOf(columns)) && |row| == |columns|
    ensures fields.None? <==> Halts(columns, row)
    ensures fields.Some? ==> RepresentsRow(Table(fields.value, []), NamesOf(columns), CellsRead(columns, row))
  {
    fields := Some([]);
    for j := 0 to |columns|
      invariant fields.Some? && RowPrefix(fields.value, NamesOf(columns), CellsRead(columns, row), j)
      invariant forall k :: 0 <= k < j ==> !Stops(columns, row, k)
    {
      fields := AddCell(fields.value, columns, row, j);
      if fields.None? {
        return;
      }
    }
    assert NamesOf(columns)[..|columns|] == NamesOf(columns);
    assert CellsRead(columns, row)[..|columns|] == CellsRead(columns, row);
  }

  method SetRaw(entries: seq<Entry>, name: string, v: Value) returns (updated: seq<Entry>)
    requires v != Nil
    ensures updated == Assign(entries, name, v)
    ensures FieldOf(entries, name).None? ==> updated == entries + [Entry(StrKey(name), v)]
  {
    FieldOfAbsent(entries, name);
    if forall e :: e in entries ==> e.key != StrKey(name) {
      RemoveAbsent(entries, name);
    }
    updated := Assign(entries, name, v);
  }

  // ------------------------------------------------- flat tables survive whole

  predicate GoodScalar(v: Value) {
    match v
    case Bool(_) => true
    case Int(n) => INT64_MIN < n <= INT64_MAX
    case Str(s) => GoodString(s)
    case _ => false
  }

  ghost predicate PlainRow(v: Value) {
    && v.Table? && v.list == []
    && (forall i, j :: 0 <= i < j < |v.entries| ==> v.entries[i].key != v.entries[j].key)
    && PlainEntries(v.entries)
  }

  ghost predicate PlainEntries(entries: seq<Entry>) {
    forall i :: 0 <= i < |entries| ==>
      entries[i].key.StrKey? && IsIdentifier(entries[i].key.name) && GoodScalar(entries[i].value)
  }

  ghost predicate PlainTable(v: Value) {
    v.Table? && v.entries == [] && forall i :: 0 <= i < |v.list| ==> PlainRow(v.list[i])
  }

  lemma PlainFieldReads(e: Entry)
    requires e.key.StrKey? && IsIdentifier(e.key.name) && GoodScalar(e.value)
    ensures var f := Named(e.key.name, Tree(e.value));
      NamedField(e) == [f] && FieldWellFormed(f) && !FieldHolds(f, '\r') && !FieldHolds(f, NUL)
    ensures NormalEntry(e) == [e]
  {
    NameHasNoControl(e.key.name);
    match e.value
    case Bool(_) =>
    case Int(_) =>
    case Str(_) =>
  }

  lemma {:induction false} PlainEntriesRead(entries: seq<Entry>)
    requires PlainEntries(entries)
    ensures NormalEntries(entries) == entries && AllWellFormed(NamedFields(entries))
    ensures !FieldsHold(NamedFields(entries), '\r') && !FieldsHold(NamedFields(entries), NUL)
  {
    if entries != [] {
      PlainEntriesRead(entries[1..]);
      PlainFieldReads(entries[0]);
      assert NamedFields(entries) == NamedField(entries[0]) + NamedFields(entries[1..]);
      assert NamedFields(entries)[1..] == NamedFields(entries[1..]);
      assert NormalEntries(entries) == NormalEntry(entries[0]) + NormalEntries(entries[1..]);
      assert entries == [entries[0]] + entries[1..];
    }
  }

  lemma PlainRowReads(v: Value)
    requires PlainRow(v)
    ensures Valid(v) && Printable(v) && Faithful(v) && WellFormed(Tree(v)) && Normal(v) == v
    ensures !Holds(Tree(v), '\r') && !Holds(Tree(v), NUL)
  {
    PlainEntriesRead(v.entries);
    assert NamedFields(v.entries) + PosFields(v.list) == NamedFields(v.entries);
    assert NormalList(v.list) == v.list;
  }

  lemma {:induction false} PlainRowsRead(list: seq<Value>)
    requires forall i :: 0 <= i < |list| ==> PlainRow(list[i])
    ensures NormalList(list) == list && AllWellFormed(PosFields(list))
    ensures !FieldsHold(PosFields(list), '\r') && !FieldsHold(PosFields(list), NUL)
  {
    if list != [] {
      PlainRowReads(list[0]);
      PlainRowsRead(list[1..]);
      assert PosFields(list) == PosField(list[0]) + PosFields(list[1..]);
      assert PosFields(list)[1..] == PosFields(list[1..]);
      assert list == [list[0]] + list[1..];
    }
  }

  lemma PlainTableReads(v: Value)
    requires PlainTable(v)
    ensures Valid(v) && Printable(v) && Faithful(v) && WellFormed(Tree(v)) && Normal(v) == v
    ensures !Holds(Tree(v), '\r') && !Holds(Tree(v), NUL)
  {
    PlainRowsRead(v.list);
    forall i | 0 <= i < |v.list| ensures Valid(v.list[i]) && Printable(v.list[i]) && Faithful(v.list[i]) {
      PlainRowReads(v.list[i]);
    }
    assert NamedFields(v.entries) + PosFields(v.list) == PosFields(v.list);
  }

  lemma ResultIsPlain(v: Value, columns: seq<string>, rows: seq<seq<Cell>>)
    requires GoodColumns(columns) && forall i :: 0 <= i < |rows| ==> GoodRow(columns, rows[i])
    requires Represents(v, columns, rows)
    ensures PlainTable(v)
  {
    forall i | 0 <= i < |v.list| ensures PlainRow(v.list[i]) {
      var row := v.list[i];
      assert RepresentsRow(row, columns, rows[i]) && GoodRow(columns, rows[i]);
      forall k | 0 <= k < |row.entries|
        ensures row.entries[k].key.StrKey? && IsIdentifier(row.entries[k].key.name) && GoodScalar(row.entries[k].value)
      {
        assert row.entries[k] in row.entries;
      }
    }
  }

  // ------------------------------------------------------------ the reply text

  /** A string that can stand between single quotes as it is. */
  predicate Plain(s: string) { OneLine(s) && '\'' !in s && '\\' !in s }

  lemma {:induction false} PlainBody(s: string, rest: string)
    requires Plain(s)
    ensures LexString(s + ['\''] + rest, '\'') == Some((s, |s| + 1))
  {
    var text := s + ['\''] + rest;
    if s != "" {
      PlainBody(s[1..], rest);
      assert text[1..] == s[1..] + ['\''] + rest;
      assert s == [s[0]] + s[1..];
    }
  }

  /** name = 'text', as the response line and the requests write it. */
  function QuotedAssignment(name: string, s: string): string { name + (" = " + (['\''] + (s + ['\'']))) }

  lemma LexQuotedAssignment(name: string, s: string, rest: string)
    requires IsIdentifier(name) && Plain(s)
    ensures Lex(QuotedAssignment(name, s) + rest) == Prepend(NameToks(name) + [TStr(s)], Lex(rest))
  {
    PlainBody(s, rest);
    var value := ['\''] + (s + ['\''] + rest);
    LexQuotedBody(s, s, '\'', rest);
    assert QuotedAssignment(name, s) + rest == (name + " = ") + value;
    LexLabel(name, ' ', value);
    PrependTwice(NameToks(name), [TStr(s)], Lex(rest));
  }

  /** make_response_str(message). */
  function ResponseLine(message: string): string { QuotedAssignment("response", message) + "\n" }

  function ReplyText(v: Value, name: string): string { ResponseLine("success") + Render(Tree(v), name, 0) }

  lemma ResponseIsIdentifier()
    ensures IsIdentifier("response")
  {
    NotReserved("response");
  }

  function ReplyToks(v: Value, name: string): seq<Token> {
    (NameToks("response") + [TStr("success")]) + (NameToks(name) + Toks(Tree(v)))
  }

  lemma LexReply(v: Value, name: string)
    requires WellFormed(Tree(v)) && IsIdentifier(name)
    ensures Lex(ReplyText(v, name)) == Some(ReplyToks(v, name))
  {
    var table, line := Render(Tree(v), name, 0), QuotedAssignment("response", "success");
    var ts := NameToks(name) + Toks(Tree(v));
    Assoc(line, "\n", table);
    ResponseIsIdentifier();
    LexQuotedAssignment("response", "success", "\n" + table);
    LexSpace('\n', table);
    assert table + "" == table && ts + [] == ts;
    LexRender(Tree(v), name, 0, "");
    assert Lex(table) == Some(ts);
  }

  lemma ParseReply(v: Value, name: string)
    requires WellFormed(Tree(v)) && IsIdentifier(name)
    ensures ParseChunk(ReplyToks(v, name)) == Some([Assignment("response", EStr("success")), Assignment(name, Tree(v))])
  {
    var ts := NameToks(name) + Toks(Tree(v));
    assert ts + [] == ts;
    GoodNames(Tree(v));
    ParseAssignment(name, Tree(v), []);
    ResponseIsIdentifier();
    ParseAssignment("response", EStr("success"), ts);
    assert [Assignment(name, Tree(v))] + [] == [Assignment(name, Tree(v))];
    assert [Assignment("response", EStr("success"))] + [Assignment(name, Tree(v))]
        == [Assignment("response", EStr("success")), Assignment(name, Tree(v))];
  }

  lemma ReadReply(v: Value, name: string)
    requires WellFormed(Tree(v)) && IsIdentifier(name)
    ensures Read(ReplyText(v, name)) == Some([Assignment("response", EStr("success")), Assignment(name, Tree(v))])
  {
    LexReply(v, name);
    ParseReply(v, name);
  }

  lemma NotReserved(name: string)
    requires |name| >= 7 && name != "function"
    ensures name !in RESERVED
  {
    forall i | 0 <= i < |RESERVED| ensures RESERVED[i] != name {
      assert |RESERVED[i]| < 7 || RESERVED[i] == "function";
    }
  }

  // ------------------------------------------------------------ reading it back

  /** A global after running the chunk: the last assignment to it wins. */
  ghost function Global(chunk: seq<Assignment>, name: string, len: Length): Value
    requires Lawful(len)
  {
    if chunk == [] then Nil
    else if chunk[|chunk| - 1].name == name then Eval(chunk[|chunk| - 1].value, len)
    else Global(chunk[..|chunk| - 1], name, len)
  }

  /** The named global of a reply that says "success". */
  ghost function ReplyTable(text: string, name: string, len: Length): Option<Value>
    requires Lawful(len)
  {
    match Read(UntilNul(text))
    case None => None
    case Some(chunk) =>
      if Global(chunk, "response", len) == Str("success") then Some(Global(chunk, name, len)) else None
  }

  /** Running the two assignments of a reply. */
  lemma RunReply(e: Exp, name: string, len: Length)
    requires Lawful(len) && name != "response"
    ensures var chunk := [Assignment("response", EStr("success")), Assignment(name, e)];
      Global(chunk, "response", len) == Str("success") && Global(chunk, name, len) == Eval(e, len)
  {
    var a, b := Assignment("response", EStr("success")), Assignment(name, e);
    assert [a, b][..1] == [a];
    assert Global([a], "response", len) == Str("success");
  }

  /** The client reads from the reply the very table that was printed, rows and all, for
      any order the server's tables iterate in. */
  lemma ReplyCarriesTable(v: Value, name: string, len: Length)
    requires Lawful(len) && PlainTable(v) && IsIdentifier(name) && name != "response"
    ensures '\r' !in ReplyText(v, name)
    ensures ReplyTable(ReplyText(v, name), name, len) == Some(v)
  {
    PlainTableReads(v);
    ReadReply(v, name);
    ReadsNormal(v, len);
    ReplyHasNoControl(v, name, '\r');
    ReplyHasNoControl(v, name, NUL);
    NoNulWhole(ReplyText(v, name));
    RunReply(Tree(v), name, len);
  }

  lemma ReplyHasNoControl(v: Value, name: string, c: char)
    requires IsIdentifier(name) && Foreign(c) && !Holds(Tree(v), c)
    ensures c !in ReplyText(v, name)
  {
    NameHasNoControl(name);
    ForeignInRender(Tree(v), name, 0, c);
    ResponseHasNoControl(c);
  }

  // -------------------------------------------------- replies that cannot be read

  lemma CutReply(v: Value, name: string, r: nat)
    requires NamesGood(Tree(v)) && IsIdentifier(name) && r < |ReplyText(v, name)| && Foreign(ReplyText(v, name)[r])
    ensures Lex(ReplyText(v, name)[..r]) == None
  {
    var table, line := Render(Tree(v), name, 0), ResponseLine("success");
    ResponseHasNoControl(ReplyText(v, name)[r]);
    PastFirst(line, table, r);
    CutRender(Tree(v), name, 0, r - |line|);
    LexAfterResponse(table[..r - |line|]);
  }

  lemma ResponseHasNoControl(c: char)
    requires Foreign(c)
    ensures c !in ResponseLine("success")
  {
    assert c !in "response" && c !in "success";
  }

  lemma LexAfterResponse(table: string)
    ensures Lex(ResponseLine("success") + table) ==
      Prepend(NameToks("response") + [TStr("success")], Lex(table))
  {
    var line := QuotedAssignment("response", "success");
    Assoc(line, "\n", table);
    ResponseIsIdentifier();
    LexQuotedAssignment("response", "success", "\n" + table);
    LexSpace('\n', table);
  }

  /** As much of a reply as precedes a CR, or all of it: read only if it is all, every
      string stays on one line, and none holds NUL. */
  lemma PartOfReply(v: Value, name: string, r: nat)
    requires NamesGood(Tree(v)) && IsIdentifier(name) && r <= |ReplyText(v, name)|
    requires r == |ReplyText(v, name)| || ReplyText(v, name)[r] == '\r'
    requires !WellFormed(Tree(v)) || Holds(Tree(v), NUL)
    ensures Read(UntilNul(ReplyText(v, name)[..r])) == None
  {
    var text := ReplyText(v, name);
    var part := text[..r];
    if NUL in part {
      var q := FirstNul(part);
      assert part[..q] == text[..q] && text[q] == NUL;
      CutReply(v, name, q);
    } else {
      NoNulWhole(part);
      if r < |text| {
        CutReply(v, name, r);
      } else {
        assert part == text;
        WholeReplyUnreadable(v, name);
      }
    }
  }

  lemma WholeReplyUnreadable(v: Value, name: string)
    requires NamesGood(Tree(v)) && IsIdentifier(name) && NUL !in ReplyText(v, name)
    requires !WellFormed(Tree(v)) || Holds(Tree(v), NUL)
    ensures Lex(ReplyText(v, name)) == None
  {
    var table := Render(Tree(v), name, 0);
    assert forall i :: 0 <= i < |table| ==> table[i] == ReplyText(v, name)[|ResponseLine("success")| + i];
    ForeignInRender(Tree(v), name, 0, NUL);
    assert table + "" == table;
    UnreadableRender(Tree(v), name, 0, "");
    LexAfterResponse(table);
  }

  // ------------------------------------------------------------ the whole way

  /** How many bytes had arrived before the block that completed the message. */
  function BytesBeforeCompletion(buffer: string, blocks: seq<string>, delim: string): nat
    decreases |blocks|
  {
    if blocks == [] || IndexFrom(buffer + blocks[0], delim, 0) != -1 then |buffer|
    else BytesBeforeCompletion(buffer + blocks[0], blocks[1..], delim)
  }

  lemma CrlfNeedsCr(s: string, p: int)
    requires OccursAt(s, CRLF, p)
    ensures s[p] == '\r'
  {
    assert s[p..p + 2][0] == CRLF[0];
  }

  lemma FirstCrlf(text: string)
    requires '\r' !in text
    ensures IndexFrom(text + CRLF, CRLF, 0) == |text|
  {
    var s := text + CRLF;
    assert s[|text|..|text| + 2] == CRLF;
    assert OccursAt(s, CRLF, |text|);
    forall p | 0 <= p < |text| ensures !OccursAt(s, CRLF, p) {
      assert s[p] == text[p];
      if OccursAt(s, CRLF, p) { CrlfNeedsCr(s, p); }
    }
    IndexFromEarlier(s, CRLF, 0, |text|);
  }

  lemma {:induction false} StreamOfOneMessage(buffer: string, blocks: seq<string>, text: string)
    requires '\r' !in text && buffer + Concat(blocks) == text + CRLF && IndexFrom(buffer, CRLF, 0) == -1
    requires forall b :: b in blocks ==> b != ""
    ensures var got := Delivered(buffer, blocks, CRLF, Written(CRLF));
      if BytesBeforeCompletion(buffer, blocks, CRLF) != 2 then got.Some? && got.value.0 == text else got.None?
    decreases |blocks|
  {
    FirstCrlf(text);
    assert buffer + "" == buffer;
    if blocks == [] {
      assert false;
    } else {
      var all := buffer + blocks[0];
      assert all + Concat(blocks[1..]) == text + CRLF;
      var p := IndexFrom(all, CRLF, 0);
      if p == -1 {
        NothingToFind(all, CRLF, Written(CRLF)(|buffer|));
        assert forall b :: b in blocks[1..] ==> b in blocks;
        StreamOfOneMessage(all, blocks[1..], text);
      } else {
        CompletingStream(buffer, blocks, text, p);
      }
    }
  }

  lemma NoBytesNoBlocks(blocks: seq<string>)
    requires forall b :: b in blocks ==> b != ""
    ensures Concat(blocks) == "" <==> blocks == []
  {
    if blocks != [] {
      assert blocks[0] in blocks;
    }
  }

  lemma CompletingStream(buffer: string, blocks: seq<string>, text: string, p: nat)
    requires '\r' !in text && blocks != [] && buffer + blocks[0] + Concat(blocks[1..]) == text + CRLF
    requires IndexFrom(buffer, CRLF, 0) == -1 && IndexFrom(buffer + blocks[0], CRLF, 0) == p
    requires forall b :: b in blocks ==> b != ""
    ensures var got := Delivered(buffer, blocks, CRLF, Written(CRLF));
      if |buffer| != 2 then got.Some? && got.value.0 == text else got.None?
  {
    var all := buffer + blocks[0];
    FirstCrlf(text);
    PrefixKeepsFirst(all, Concat(blocks[1..]), CRLF, p);
    assert OccursAt(all, CRLF, p);
    assert |all| == |text| + 2;
    assert forall b :: b in blocks[1..] ==> b in blocks;
    NoBytesNoBlocks(blocks[1..]);
    assert all == text + CRLF && all[..p] == text;
    WindowReachesCrlf(|buffer|, |all|, p);
    CompletingBlock(buffer, blocks, CRLF, p);
    if |buffer| == 2 {
      StartsPast(buffer, blocks[0], p);
    }
  }

  /** After two bytes the search starts on the last byte and cannot find two. */
  lemma StartsPast(buffer: string, block: string, p: nat)
    requires |buffer| == 2
    ensures Receive(Reader(buffer, true), block, CRLF, Written(CRLF)).1.None?
  {
    var all := buffer + block;
    assert Written(CRLF)(2) == -1;
    assert IndexOf(all, CRLF, -1) == IndexFrom(all, CRLF, |all| - 1);
  }

  lemma IncompleteStream(blocks: seq<string>, text: string, start: nat -> int)
    requires '\r' !in text && Concat(blocks) < text + CRLF
    ensures Delivered("", blocks, CRLF, start).None?
  {
    var stream := Concat(blocks);
    assert "" + stream == stream && stream == (text + CRLF)[..|stream|];
    forall p ensures !OccursAt(stream, CRLF, p) {
      if OccursAt(stream, CRLF, p) { CrlfNeedsCr(stream, p); }
    }
    DeliveredIsCut("", blocks, CRLF, start);
  }

  /** What the client ends up with from the blocks of a reply: the named table, or
      nothing because no message was delivered or none could be read. */
  ghost function Received(blocks: seq<string>, name: string, len: Length): Option<Value>
    requires Lawful(len)
  {
    match Delivered("", blocks, CRLF, Written(CRLF))
    case None => None
    case Some((message, _)) => ReplyTable(message, name, len)
  }

  lemma NothingToRead(v: Value, name: string, blocks: seq<string>, len: Length)
    requires Lawful(len) && NamesGood(Tree(v)) && IsIdentifier(name) && Concat(blocks) <= ReplyText(v, name) + CRLF
    requires !WellFormed(Tree(v)) || Holds(Tree(v), NUL)
    ensures Received(blocks, name, len) == None
  {
    var d := Delivered("", blocks, CRLF, Written(CRLF));
    if d.Some? {
      DeliveredOfReply(ReplyText(v, name), blocks, d.value.0);
      PartOfReply(v, name, |d.value.0|);
    }
  }

  /** What is delivered of a text and its end marker is a part of the text that a CR follows,
      or all of it. */
  lemma DeliveredOfReply(text: string, blocks: seq<string>, message: string)
    requires Concat(blocks) <= text + CRLF
    requires var d := Delivered("", blocks, CRLF, Written(CRLF)); d.Some? && d.value.0 == message
    ensures |message| <= |text| && message == text[..|message|]
    ensures |message| < |text| ==> text[|message|] == '\r'
  {
    var stream, r := Concat(blocks), |message|;
    DeliveredIsCut("", blocks, CRLF, Written(CRLF));
    assert "" + stream == stream;
    CrlfNeedsCr(stream, r);
    assert stream == (text + CRLF)[..|stream|];
  }

  /** A printed reply, sent in any non-empty blocks and perhaps cut off, reaches the client
      as the evaluated table exactly if all of it came, every string in it stays on one
      line and holds no NUL, and not two bytes came before the completing block; in every
      other case the client gets nothing. */
  lemma ReplyOutcome(v: Value, name: string, blocks: seq<string>, len: Length)
    requires Lawful(len) && NamesGood(Tree(v)) && IsIdentifier(name) && name != "response"
    requires Concat(blocks) <= ReplyText(v, name) + CRLF && forall b :: b in blocks ==> b != ""
    ensures Received(blocks, name, len) ==
      if WellFormed(Tree(v)) && !Holds(Tree(v), NUL) && Concat(blocks) == ReplyText(v, name) + CRLF
         && BytesBeforeCompletion("", blocks, CRLF) != 2
      then Some(Eval(Tree(v), len)) else None
  {
    var text := ReplyText(v, name);
    if WellFormed(Tree(v)) && !Holds(Tree(v), NUL) {
      WellFormedNoCr(Tree(v));
      ReplyHasNoControl(v, name, '\r');
      ReplyHasNoControl(v, name, NUL);
      if Concat(blocks) == text + CRLF {
        assert "" + Concat(blocks) == text + CRLF;
        StreamOfOneMessage("", blocks, text);
        NoNulWhole(text);
        ReadReply(v, name);
        RunReply(Tree(v), name, len);
      } else {
        IncompleteStream(blocks, text, Written(CRLF));
      }
    } else {
      NothingToRead(v, name, blocks, len);
    }
  }

  // ------------------------------------------------- replies that are one line

  /** The response a client reads from the blocks of a reply; nil if there is none. */
  ghost function ResponseIn(blocks: seq<string>, len: Length): Value
    requires Lawful(len)
  {
    match Delivered("", blocks, CRLF, Written(CRLF))
    case None => Nil
    case Some((message, _)) =>
      match Read(UntilNul(message)) case None => Nil case Some(chunk) => Global(chunk, "response", len)
  }

  /** A response line on its way, perhaps cut off. */
  ghost predicate Replies(message: string, blocks: seq<string>) {
    Plain(message) && NUL !in message
    && Concat(blocks) <= ResponseLine(message) + CRLF && forall b :: b in blocks ==> b != ""
  }

  /** All of the line came, and not two bytes before the block that completed it. */
  predicate ArrivesWhole(message: string, blocks: seq<string>) {
    Concat(blocks) == ResponseLine(message) + CRLF && BytesBeforeCompletion("", blocks, CRLF) != 2
  }

  lemma LexResponseLine(message: string)
    requires Plain(message)
    ensures Lex(ResponseLine(message)) == Some(NameToks("response") + [TStr(message)])
  {
    var ts := NameToks("response") + [TStr(message)];
    ResponseIsIdentifier();
    LexQuotedAssignment("response", message, "\n");
    LexSpace('\n', "");
    assert ['\n'] + "" == "\n" && ts + [] == ts;
  }

  lemma ReadResponseLine(message: string)
    requires Plain(message)
    ensures Read(ResponseLine(message)) == Some([Assignment("response", EStr(message))])
  {
    LexResponseLine(message);
    ResponseIsIdentifier();
    var ts := NameToks("response") + [TStr(message)];
    ParseAssignment("response", EStr(message), []);
    assert Toks(EStr(message)) == [TStr(message)] && ts + [] == ts;
    assert [Assignment("response", EStr(message))] + [] == [Assignment("response", EStr(message))];
  }

  lemma ResponseLineIsClean(message: string)
    requires Plain(message) && NUL !in message
    ensures '\r' !in ResponseLine(message) && NUL !in ResponseLine(message)
  {
    assert '\r' !in "response" && NUL !in "response";
  }

  lemma LineDelivered(message: string, blocks: seq<string>)
    requires Replies(message, blocks)
    ensures var d := Delivered("", blocks, CRLF, Written(CRLF));
      if ArrivesWhole(message, blocks) then d.Some? && d.value.0 == ResponseLine(message) else d.None?
  {
    var text := ResponseLine(message);
    ResponseLineIsClean(message);
    if Concat(blocks) == text + CRLF {
      assert "" + Concat(blocks) == text + CRLF;
      StreamOfOneMessage("", blocks, text);
    } else {
      IncompleteStream(blocks, text, Written(CRLF));
    }
  }

  /** The client reads the response exactly if the line was complete, and else nothing. */
  lemma ResponseOutcome(message: string, blocks: seq<string>, len: Length)
    requires Lawful(len) && Replies(message, blocks)
    ensures ResponseIn(blocks, len) == if ArrivesWhole(message, blocks) then Str(message) else Nil
  {
    LineDelivered(message, blocks);
    ResponseLineIsClean(message);
    NoNulWhole(ResponseLine(message));
    ReadResponseLine(message);
    OneGlobal(message, len);
  }

  lemma OneGlobal(message: string, len: Length)
    requires Lawful(len)
    ensures Global([Assignment("response", EStr(message))], "response", len) == Str(message)
  {
  }

  /** A reply that says anything but "success" brings no table. */
  lemma RefusalBringsNothing(message: string, blocks: seq<string>, name: string, len: Length)
    requires Lawful(len) && Replies(message, blocks) && message != "success"
    ensures Received(blocks, name, len) == None
  {
    LineDelivered(message, blocks);
    ResponseLineIsClean(message);
    NoNulWhole(ResponseLine(message));
    ReadResponseLine(message);
    OneGlobal(message, len);
  }

  // ------------------------------------------------- which results come through

  predicate GoodTextCell(c: Cell) { c.TextCell? ==> GoodString(c.s) }

  predicate ScalarEntry(e: Entry) {
    e.key.StrKey? && IsIdentifier(e.key.name) && (e.value.Bool? || e.value.Int? || e.value.Str?)
  }

  predicate GoodStringIn(e: Entry) { e.value.Str? ==> GoodString(e.value.s) }

  lemma EntryReadable(e: Entry)
    requires ScalarEntry(e)
    ensures var f := Named(e.key.name, Tree(e.value));
      && NamedField(e) == [f] && FieldNamesGood(f)
      && (FieldWellFormed(f) && !FieldHolds(f, NUL) <==> GoodStringIn(e))
  {
    NameHasNoControl(e.key.name);
    match e.value
    case Bool(_) =>
    case Int(_) =>
    case Str(_) =>
  }

  /** For a table of scalars, readable means that every string in it is good. */
  lemma {:induction false} EntriesReadable(entries: seq<Entry>)
    requires forall i :: 0 <= i < |entries| ==> ScalarEntry(entries[i])
    ensures AllNamesGood(NamedFields(entries))
    ensures AllWellFormed(NamedFields(entries)) && !FieldsHold(NamedFields(entries), NUL) <==>
      forall i :: 0 <= i < |entries| ==> GoodStringIn(entries[i])
  {
    if entries != [] {
      var f := Named(entries[0].key.name, Tree(entries[0].value));
      assert NamedFields(entries) == [f] + NamedFields(entries[1..]);
      assert NamedFields(entries)[1..] == NamedFields(entries[1..]);
      EntryReadable(entries[0]);
      EntriesReadable(entries[1..]);
      assert (forall i :: 0 <= i < |entries| ==> GoodStringIn(entries[i])) <==>
        GoodStringIn(entries[0]) && forall i :: 0 <= i < |entries[1..]| ==> GoodStringIn(entries[1..][i])
      by {
        assert forall i :: 1 <= i < |entries| ==> entries[i] == entries[1..][i - 1];
        assert forall i :: 0 <= i < |entries[1..]| ==> entries[1..][i] == entries[i + 1];
      }
    }
  }

  lemma {:induction false} RowReadable(v: Value, columns: seq<string>, row: seq<Cell>)
    requires GoodColumns(columns) && RepresentsRow(v, columns, row)
    ensures NamesGood(Tree(v))
    ensures WellFormed(Tree(v)) && !Holds(Tree(v), NUL) <==> GoodTexts(row)
  {
    forall i | 0 <= i < |v.entries| ensures ScalarEntry(v.entries[i]) {
      assert v.entries[i] in v.entries;
    }
    EntriesReadable(v.entries);
    assert NamedFields(v.entries) + PosFields(v.list) == NamedFields(v.entries);
    StringsOfRow(v, columns, row);
  }

  /** The strings among a row's fields are its text cells. */
  lemma StringsOfRow(v: Value, columns: seq<string>, row: seq<Cell>)
    requires RepresentsRow(v, columns, row)
    ensures (forall i :: 0 <= i < |v.entries| ==> GoodStringIn(v.entries[i])) <==> GoodTexts(row)
  {
    if forall i :: 0 <= i < |v.entries| ==> GoodStringIn(v.entries[i]) {
      forall j | 0 <= j < |row| ensures GoodTextCell(row[j]) {
        assert Shows(FieldOf(v.entries, columns[j]), row[j]);
        if row[j].TextCell? { FieldIsEntry(v.entries, columns[j]); }
      }
    }
    if GoodTexts(row) {
      forall i | 0 <= i < |v.entries| ensures GoodStringIn(v.entries[i]) {
        var e := v.entries[i];
        assert e in v.entries;
        var j :| 0 <= j < |columns| && e.key == StrKey(columns[j]) && Shows(Some(e.value), row[j]);
        assert GoodTextCell(row[j]);
      }
    }
  }

  lemma {:induction false} FieldIsEntry(entries: seq<Entry>, name: string)
    requires FieldOf(entries, name).Some?
    ensures exists i :: 0 <= i < |entries| && entries[i] == Entry(StrKey(name), FieldOf(entries, name).value)
  {
    if entries[0].key == StrKey(name) {
      assert entries[0] == Entry(StrKey(name), FieldOf(entries, name).value);
    } else {
      FieldIsEntry(entries[1..], name);
      var i :| 0 <= i < |entries[1..]| && entries[1..][i] == Entry(StrKey(name), FieldOf(entries[1..], name).value);
      assert entries[i + 1] == entries[1..][i];
    }
  }

  predicate GoodTexts(row: seq<Cell>) { forall j :: 0 <= j < |row| ==> GoodTextCell(row[j]) }

  lemma {:induction false} RowsReadable(list: seq<Value>, columns: seq<string>, rows: seq<seq<Cell>>)
    requires GoodColumns(columns) && |list| == |rows|
    requires forall i :: 0 <= i < |list| ==> RepresentsRow(list[i], columns, rows[i])
    ensures AllNamesGood(PosFields(list))
    ensures AllWellFormed(PosFields(list)) && !FieldsHold(PosFields(list), NUL) <==>
      forall i :: 0 <= i < |rows| ==> GoodTexts(rows[i])
  {
    if list != [] {
      RowReadable(list[0], columns, rows[0]);
      RowsReadable(list[1..], columns, rows[1..]);
      FirstFieldReadable(list);
      assert (forall i :: 0 <= i < |rows| ==> GoodTexts(rows[i])) <==>
        GoodTexts(rows[0]) && forall i :: 0 <= i < |rows[1..]| ==> GoodTexts(rows[1..][i])
      by {
        assert forall i :: 1 <= i < |rows| ==> rows[i] == rows[1..][i - 1];
        assert forall i :: 0 <= i < |rows[1..]| ==> rows[1..][i] == rows[i + 1];
      }
    }
  }

  lemma FirstFieldReadable(list: seq<Value>)
    requires list != [] && list[0].Table?
    ensures AllNamesGood(PosFields(list)) <==> NamesGood(Tree(list[0])) && AllNamesGood(PosFields(list[1..]))
    ensures AllWellFormed(PosFields(list)) <==> WellFormed(Tree(list[0])) && AllWellFormed(PosFields(list[1..]))
    ensures FieldsHold(PosFields(list), NUL) <==> Holds(Tree(list[0]), NUL) || FieldsHold(PosFields(list[1..]), NUL)
  {
    var f := Pos(Tree(list[0]));
    assert PosFields(list) == [f] + PosFields(list[1..]);
    assert PosFields(list)[0] == f && PosFields(list)[1..] == PosFields(list[1..]);
  }

  /** A result's text can be read exactly when every string in it is good. */
  lemma ResultReadable(v: Value, columns: seq<string>, rows: seq<seq<Cell>>)
    requires GoodColumns(columns) && Represents(v, columns, rows)
    ensures NamesGood(Tree(v))
    ensures WellFormed(Tree(v)) && !Holds(Tree(v), NUL) <==>
      forall i :: 0 <= i < |rows| ==> GoodTexts(rows[i])
  {
    RowsReadable(v.list, columns, rows);
    assert NamedFields(v.entries) + PosFields(v.list) == PosFields(v.list);
  }

  /** What was read back holds only integers a numeral can write. */
  lemma ReadRowsAreGood(v: Value, columns: seq<string>, rows: seq<seq<Cell>>)
    requires Writable(v) && Represents(v, columns, rows)
    requires forall i :: 0 <= i < |rows| ==> GoodTexts(rows[i])
    ensures forall i :: 0 <= i < |rows| ==> GoodRow(columns, rows[i])
  {
    forall i | 0 <= i < |rows| ensures GoodRow(columns, rows[i]) {
      var entries := v.list[i].entries;
      assert RepresentsRow(v.list[i], columns, rows[i]) && Writable(v.list[i]);
      forall j | 0 <= j < |columns| ensures GoodCell(rows[i][j]) {
        assert GoodTexts(rows[i]) && GoodTextCell(rows[i][j]);
        assert Shows(FieldOf(entries, columns[j]), rows[i][j]);
        if rows[i][j].IntCell? {
          FieldIsEntry(entries, columns[j]);
          var k :| 0 <= k < |entries| && entries[k] == Entry(StrKey(columns[j]), Int(rows[i][j].n));
          assert EntryWritable(entries[k]) && Writable(Int(rows[i][j].n));
        }
      }
    }
  }

  /** The client's table holds the queried rows, in order. */
  ghost predicate Arrives(columns: seq<string>, rows: seq<seq<Cell>>, name: string, blocks: seq<string>, len: Length)
    requires Lawful(len)
  {
    var table := Received(blocks, name, len);
    table.Some? && Represents(table.value, columns, rows)
  }

  /** End to end: a query result printed, framed and received in any non-empty blocks
      reaches the client, as exactly the original rows in order, if and only if all of it
      came, no string in it holds a line break or NUL, no integer is the least one, and
      the number of bytes that came before the completing block is not two. */
  lemma EndToEnd(v: Value, columns: seq<string>, rows: seq<seq<Cell>>, name: string, blocks: seq<string>, len: Length)
    requires Lawful(len) && GoodColumns(columns) && Represents(v, columns, rows)
    requires IsIdentifier(name) && name != "response"
    requires Concat(blocks) <= ReplyText(v, name) + CRLF && forall b :: b in blocks ==> b != ""
    ensures Arrives(columns, rows, name, blocks, len) <==>
      && Concat(blocks) == ReplyText(v, name) + CRLF && BytesBeforeCompletion("", blocks, CRLF) != 2
      && forall i :: 0 <= i < |rows| ==> GoodRow(columns, rows[i])
  {
    ResultReadable(v, columns, rows);
    ReplyOutcome(v, name, blocks, len);
    if forall i :: 0 <= i < |rows| ==> GoodRow(columns, rows[i]) {
      GoodRowsGoodTexts(columns, rows);
      ResultIsPlain(v, columns, rows);
      PlainTableReads(v);
      ReadsNormal(v, len);
    }
    if Arrives(columns, rows, name, blocks, len) {
      EvalWritable(Tree(v), len);
      ReadRowsAreGood(Eval(Tree(v), len), columns, rows);
    }
  }

  /** The field the client should find for what MySQL sends under a column: none for NULL,
      the string itself, and for a number's decimal text the number, or whether it is not 0. */
  ghost predicate FieldOfText(field: Option<Value>, kind: ColumnType, text: Option<string>) {
    match text
    case None => field == None
    case Some(s) =>
      match kind
      case TextColumn => field == Some(Str(s))
      case IntColumn => forall n :: s == Scalar(ENum(n)) ==> field == Some(Int(n))
      case BoolColumn => forall n :: s == Scalar(ENum(n)) ==> field == Some(Bool(n != 0))
  }

  lemma ShownOfText(field: Option<Value>, kind: ColumnType, text: Option<string>)
    requires CellOf(kind, text).Some? && Shows(field, CellOf(kind, text).value)
    ensures FieldOfText(field, kind, text)
  {
    if text.Some? {
      forall n | text.value == Scalar(ENum(n)) ensures FromChars(text.value) == Some(n) || kind.TextColumn? {
        FromCharsExactly(n);
      }
    }
  }

  /** So of a result that reaches the client, every field is what MySQL sent under its column. */
  lemma {:induction false} FieldsArrive(columns: seq<Column>, rows: seq<seq<Option<string>>>, name: string,
      blocks: seq<string>, len: Length, i: nat, j: nat)
    requires Lawful(len) && (forall k :: 0 <= k < |rows| ==> |rows[k]| == |columns|)
    requires Arrives(NamesOf(columns), RowsRead(columns, rows), name, blocks, len)
    requires i < |rows| && j < |columns| && !Stops(columns, rows[i], j)
    ensures var table := Received(blocks, name, len);
      && table.Some? && table.value.Table? && |table.value.list| == |rows| && table.value.list[i].Table?
      && FieldOfText(FieldOf(table.value.list[i].entries, columns[j].name), columns[j].kind, rows[i][j])
  {
    var row := Received(blocks, name, len).value.list[i];
    assert RepresentsRow(row, NamesOf(columns), CellsRead(columns, rows[i]));
    assert NamesOf(columns)[j] == columns[j].name;
    ShownOfText(FieldOf(row.entries, columns[j].name), columns[j].kind, rows[i][j]);
  }

  lemma GoodRowsGoodTexts(columns: seq<string>, rows: seq<seq<Cell>>)
    requires forall i :: 0 <= i < |rows| ==> GoodRow(columns, rows[i])
    ensures forall i :: 0 <= i < |rows| ==> GoodTexts(rows[i])
  {
    forall i | 0 <= i < |rows| ensures GoodTexts(rows[i]) {
      assert GoodRow(columns, rows[i]);
      assert forall j :: 0 <= j < |rows[i]| ==> GoodCell(rows[i][j]);
    }
  }
}
