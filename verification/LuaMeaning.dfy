/** What a reader gets from a printed value: running the constructor expression, and
    the normal form of a table that survives the trip. */
module LuaMeaning {
  import opened Prelude
  import opened LuaSyntax
  import opened LuaPrinter

  const INT64_MIN: int := -0x8000_0000_0000_0000
  const INT64_MAX: int := 0x7fff_ffff_ffff_ffff

  // ------------------------------------------------------------ evaluation

  /** A numeral too large for an integer denotes a float, and so does its negation. */
  function Number(n: int): Value {
    if INT64_MIN < n <= INT64_MAX then Int(n) else Num(n)
  }

  /** The length operator may return any border of a list with holes. */
  type Length = seq<Value> -> nat

  ghost predicate IsBorder(list: seq<Value>, n: nat) {
    n <= |list| && (n > 0 ==> list[n - 1] != Nil) && (n < |list| ==> list[n] == Nil)
  }

  ghost predicate Lawful(len: Length) {
    forall list: seq<Value> :: IsBorder(list, len(list))
  }

  function FieldOf(entries: seq<Entry>, name: string): Option<Value> {
    if entries == [] then None
    else if entries[0].key == StrKey(name) then Some(entries[0].value)
    else FieldOf(entries[1..], name)
  }

  function Remove(entries: seq<Entry>, name: string): seq<Entry> {
    if entries == [] then []
    else if entries[0].key == StrKey(name) then entries[1..]
    else [entries[0]] + Remove(entries[1..], name)
  }

  function Assign(entries: seq<Entry>, name: string, v: Value): seq<Entry> {
    if v == Nil then Remove(entries, name) else Remove(entries, name) + [Entry(StrKey(name), v)]
  }

  /** Positions past the border, as pairs like any other. */
  function Leftover(list: seq<Value>, n: nat): seq<Entry>
    requires n <= |list|
    decreases |list| - n
  {
    if n == |list| then []
    else (if list[n] == Nil then [] else [Entry(OtherKey(n + 1), list[n])]) + Leftover(list, n + 1)
  }

  ghost function Eval(e: Exp, len: Length): Value
    requires Lawful(len)
    decreases e, 1
  {
    match e
    case ENil => Nil
    case EBool(b) => Bool(b)
    case ENum(n) => Number(n)
    case EStr(s) => Str(s)
    case ETable(fields) =>
      var list := EvalPos(fields, len);
      assert IsBorder(list, len(list));
      Table(EvalNamed([], fields, len) + Leftover(list, len(list)), list[..len(list)])
  }

  ghost function FieldValue(f: Field, len: Length): Value
    requires Lawful(len)
    decreases f, 2
  {
    Eval(f.value, len)
  }

  /** Named fields are assigned in order, a later one overriding an earlier. */
  ghost function EvalNamed(entries: seq<Entry>, fields: seq<Field>, len: Length): seq<Entry>
    requires Lawful(len)
    decreases fields, 0
  {
    if fields == [] then entries
    else if fields[0].Named? then
      EvalNamed(Assign(entries, fields[0].name, FieldValue(fields[0], len)), fields[1..], len)
    else EvalNamed(entries, fields[1..], len)
  }

  ghost function EvalPos(fields: seq<Field>, len: Length): seq<Value>
    requires Lawful(len)
    decreases fields, 0
  {
    if fields == [] then []
    else if fields[0].Pos? then [FieldValue(fields[0], len)] + EvalPos(fields[1..], len)
    else EvalPos(fields[1..], len)
  }

  // ----------------------------------------------------------- normal form

  /** String-keyed fields and positions, functions dropped and positions compacted. */
  function Normal(v: Value): Value
    decreases v, 1
  {
    match v
    case Table(entries, list) => Table(NormalEntries(entries), NormalList(list))
    case _ => v
  }

  function NormalEntry(e: Entry): seq<Entry>
    decreases e, 2
  {
    if KeptEntry(e) then [Entry(e.key, Normal(e.value))] else []
  }

  function NormalEntries(entries: seq<Entry>): seq<Entry>
    decreases entries, 0
  {
    if entries == [] then [] else NormalEntry(entries[0]) + NormalEntries(entries[1..])
  }

  function NormalItem(v: Value): seq<Value>
    decreases v, 2
  {
    if v.Func? then [] else [Normal(v)]
  }

  function NormalList(list: seq<Value>): seq<Value>
    decreases list, 0
  {
    if list == [] then [] else NormalItem(list[0]) + NormalList(list[1..])
  }

  /** A Lua table holds no nil under a key, and each key once. */
  ghost predicate Valid(v: Value)
    decreases v
  {
    match v
    case Table(entries, list) =>
      && (forall i, j :: 0 <= i < j < |entries| ==> entries[i].key != entries[j].key)
      && (forall i :: 0 <= i < |entries| ==> entries[i].value != Nil && Valid(entries[i].value))
      && (forall i :: 0 <= i < |list| ==> Valid(list[i]))
    case _ => true
  }

  /** What the printer keeps has no hole among its positions and no integer that a
      numeral cannot write. */
  ghost predicate Faithful(v: Value)
    decreases v
  {
    match v
    case Int(n) => INT64_MIN < n <= INT64_MAX
    case Table(entries, list) =>
      && (forall i :: 0 <= i < |entries| && KeptEntry(entries[i]) ==> Faithful(entries[i].value))
      && (forall i :: 0 <= i < |list| ==> list[i] != Nil)
      && (forall i :: 0 <= i < |list| && !list[i].Func? ==> Faithful(list[i]))
    case _ => true
  }

  // --------------------------------------------- evaluation of printed fields

  ghost function EntryRead(e: Entry, len: Length): seq<Entry>
    requires Lawful(len)
  {
    if KeptEntry(e) then [Entry(e.key, Eval(Tree(e.value), len))] else []
  }

  /** What evaluating the printed pairs gives, one by one. */
  ghost function EntriesRead(entries: seq<Entry>, len: Length): seq<Entry>
    requires Lawful(len)
  {
    if entries == [] then [] else EntryRead(entries[0], len) + EntriesRead(entries[1..], len)
  }

  ghost function ItemRead(v: Value, len: Length): seq<Value>
    requires Lawful(len)
  {
    if v.Func? then [] else [Eval(Tree(v), len)]
  }

  ghost function ListRead(list: seq<Value>, len: Length): seq<Value>
    requires Lawful(len)
  {
    if list == [] then [] else ItemRead(list[0], len) + ListRead(list[1..], len)
  }

  lemma {:induction false} RemoveAbsent(entries: seq<Entry>, name: string)
    requires forall e :: e in entries ==> e.key != StrKey(name)
    ensures Remove(entries, name) == entries
  {
    if entries != [] {
      RemoveAbsent(entries[1..], name);
    }
  }

  lemma {:induction false} EvalNamedSkipsPositions(acc: seq<Entry>, list: seq<Value>, len: Length)
    requires Lawful(len)
    ensures EvalNamed(acc, PosFields(list), len) == acc
  {
    if list != [] {
      EvalNamedSkipsPositions(acc, list[1..], len);
      if list[0].Func? {
        assert PosFields(list) == PosFields(list[1..]);
      } else {
        assert PosFields(list)[1..] == PosFields(list[1..]);
      }
    }
  }

  lemma EvalNamedStep(acc: seq<Entry>, e: Entry, rest: seq<Field>, len: Length)
    requires Lawful(len) && KeptEntry(e) && e.value != Nil
    requires forall a :: a in acc ==> a.key != e.key
    ensures EvalNamed(acc, NamedField(e) + rest, len) == EvalNamed(acc + EntryRead(e, len), rest, len)
  {
    var fields := NamedField(e) + rest;
    var v := Eval(Tree(e.value), len);
    assert fields[0] == Named(e.key.name, Tree(e.value)) && fields[1..] == rest;
    RemoveAbsent(acc, e.key.name);
    assert v != Nil;
  }

  lemma {:induction false} EvalNamedReads(acc: seq<Entry>, entries: seq<Entry>, list: seq<Value>, len: Length)
    requires Lawful(len)
    requires forall i, j :: 0 <= i < j < |entries| ==> entries[i].key != entries[j].key
    requires forall a, i :: a in acc && 0 <= i < |entries| ==> a.key != entries[i].key
    requires forall i :: 0 <= i < |entries| ==> entries[i].value != Nil
    ensures EvalNamed(acc, NamedFields(entries) + PosFields(list), len) == acc + EntriesRead(entries, len)
    decreases |entries|
  {
    var fields := NamedFields(entries) + PosFields(list);
    if entries == [] {
      assert fields == PosFields(list);
      EvalNamedSkipsPositions(acc, list, len);
      assert acc + EntriesRead(entries, len) == acc;
    } else {
      var rest := NamedFields(entries[1..]) + PosFields(list);
      assert fields == NamedField(entries[0]) + rest;
      if KeptEntry(entries[0]) {
        EvalNamedStep(acc, entries[0], rest, len);
      } else {
        assert fields == rest && acc + EntryRead(entries[0], len) == acc;
      }
      EvalNamedReads(acc + EntryRead(entries[0], len), entries[1..], list, len);
      Assoc(acc, EntryRead(entries[0], len), EntriesRead(entries[1..], len));
    }
  }

  lemma {:induction false} EvalPosReads(entries: seq<Entry>, list: seq<Value>, len: Length)
    requires Lawful(len)
    ensures EvalPos(NamedFields(entries) + PosFields(list), len) == ListRead(list, len)
    decreases |entries|, |list|
  {
    var fields := NamedFields(entries) + PosFields(list);
    if entries != [] {
      var rest := NamedFields(entries[1..]) + PosFields(list);
      EvalPosReads(entries[1..], list, len);
      assert fields == NamedField(entries[0]) + rest;
      if KeptEntry(entries[0]) {
        assert fields[0].Named? && fields[1..] == rest;
      } else {
        assert fields == rest;
      }
    } else if list != [] {
      var rest := NamedFields(entries) + PosFields(list[1..]);
      EvalPosReads(entries, list[1..], len);
      assert fields == PosField(list[0]) + rest;
      if list[0].Func? {
        assert fields == rest;
      } else {
        assert fields[0] == Pos(Tree(list[0])) && fields[1..] == rest;
      }
    }
  }

  /** Reading a printed table: its pairs and its list read one by one, and whatever
      of the list lies past the border the reader's # settles on. */
  lemma EvalTable(entries: seq<Entry>, list: seq<Value>, len: Length)
    requires Lawful(len) && Valid(Table(entries, list))
    ensures var l := ListRead(list, len);
      && IsBorder(l, len(l))
      && Eval(Tree(Table(entries, list)), len) == Table(EntriesRead(entries, len) + Leftover(l, len(l)), l[..len(l)])
  {
    EvalNamedReads([], entries, list, len);
    EvalPosReads(entries, list, len);
    var l := ListRead(list, len);
    assert IsBorder(l, len(l));
    assert [] + EntriesRead(entries, len) == EntriesRead(entries, len);
  }

  lemma {:induction false} NoHoleNoLeftover(list: seq<Value>, n: nat)
    requires IsBorder(list, n) && Nil !in list
    ensures n == |list| && Leftover(list, n) == []
  {
  }

  /** Without holes the border is the whole list and nothing is left over. */
  lemma EvalWholeTable(entries: seq<Entry>, list: seq<Value>, len: Length)
    requires Lawful(len) && Valid(Table(entries, list)) && Nil !in ListRead(list, len)
    ensures Eval(Tree(Table(entries, list)), len) == Table(EntriesRead(entries, len), ListRead(list, len))
  {
    var l := ListRead(list, len);
    EvalTable(entries, list, len);
    NoHoleNoLeftover(l, len(l));
    assert l[..|l|] == l && EntriesRead(entries, len) + [] == EntriesRead(entries, len);
  }

  // ------------------------------------------------------ the normal form read

  lemma {:induction false} ReadsNormal(v: Value, len: Length)
    requires Lawful(len) && Valid(v) && Printable(v) && !v.Func? && Faithful(v)
    ensures Eval(Tree(v), len) == Normal(v)
    decreases v, 1
  {
    if v.Table? {
      EntriesReadNormal(v, v.entries, len);
      ListReadNormal(v, v.list, len);
      EvalWholeTable(v.entries, v.list, len);
    }
  }

  lemma {:induction false} EntriesReadNormal(v: Value, entries: seq<Entry>, len: Length)
    requires Lawful(len)
    requires forall i :: 0 <= i < |entries| ==> entries[i].value < v
    requires forall i :: 0 <= i < |entries| ==> Valid(entries[i].value) && Printable(entries[i].value)
    requires forall i :: 0 <= i < |entries| && KeptEntry(entries[i]) ==> Faithful(entries[i].value)
    ensures EntriesRead(entries, len) == NormalEntries(entries)
    decreases v, 0, |entries|
  {
    if entries != [] {
      if KeptEntry(entries[0]) {
        ReadsNormal(entries[0].value, len);
      }
      EntriesReadNormal(v, entries[1..], len);
    }
  }

  lemma {:induction false} ListReadNormal(v: Value, list: seq<Value>, len: Length)
    requires Lawful(len)
    requires forall i :: 0 <= i < |list| ==> list[i] < v
    requires forall i :: 0 <= i < |list| ==> Valid(list[i]) && Printable(list[i]) && list[i] != Nil
    requires forall i :: 0 <= i < |list| && !list[i].Func? ==> Faithful(list[i])
    ensures ListRead(list, len) == NormalList(list) && Nil !in NormalList(list)
    decreases v, 0, |list|
  {
    if list != [] {
      if !list[0].Func? {
        ReadsNormal(list[0], len);
      }
      ListReadNormal(v, list[1..], len);
    }
  }

  // ---------------------------------------------------------- the converse

  /** A lawful length that stops at the first hole. */
  function FirstHole(list: seq<Value>): nat {
    if list == [] || list[0] == Nil then 0 else 1 + FirstHole(list[1..])
  }

  lemma {:induction false} FirstHoleIsBorder(list: seq<Value>)
    ensures IsBorder(list, FirstHole(list))
    ensures FirstHole(list) == |list| ==> Nil !in list
  {
    if list != [] && list[0] != Nil {
      FirstHoleIsBorder(list[1..]);
    }
  }

  lemma FirstHoleLawful()
    ensures Lawful(FirstHole)
  {
    forall list: seq<Value> ensures IsBorder(list, FirstHole(list)) {
      FirstHoleIsBorder(list);
    }
  }

  /** If the first-hole reader gets the normal form, the value was faithful. */
  lemma {:induction false} NormalReadFaithful(v: Value)
    requires Lawful(FirstHole) && Valid(v) && Printable(v) && !v.Func?
    requires Eval(Tree(v), FirstHole) == Normal(v)
    ensures Faithful(v)
    decreases v, 1
  {
    if v.Table? {
      EvalTable(v.entries, v.list, FirstHole);
      var l := ListRead(v.list, FirstHole);
      FirstHoleIsBorder(l);
      SameLengths(v.entries, v.list, FirstHole);
      assert l[..|l|] == l;
      assert EntriesRead(v.entries, FirstHole) + [] == EntriesRead(v.entries, FirstHole);
      EntriesFaithful(v, v.entries);
      ListFaithful(v, v.list);
    }
  }

  lemma {:induction false} SameLengths(entries: seq<Entry>, list: seq<Value>, len: Length)
    requires Lawful(len)
    ensures |EntriesRead(entries, len)| == |NormalEntries(entries)|
    ensures |ListRead(list, len)| == |NormalList(list)|
    decreases |entries|, |list|
  {
    if entries != [] {
      SameLengths(entries[1..], list, len);
    } else if list != [] {
      SameLengths(entries, list[1..], len);
    }
  }

  lemma {:induction false} EntriesFaithful(v: Value, entries: seq<Entry>)
    requires Lawful(FirstHole) && EntriesRead(entries, FirstHole) == NormalEntries(entries)
    requires forall i :: 0 <= i < |entries| ==> entries[i].value < v
    requires forall i :: 0 <= i < |entries| ==> Valid(entries[i].value) && Printable(entries[i].value)
    ensures forall i :: 0 <= i < |entries| && KeptEntry(entries[i]) ==> Faithful(entries[i].value)
    decreases v, 0, |entries|
  {
    if entries != [] {
      var a, b := EntriesRead(entries, FirstHole), NormalEntries(entries);
      if KeptEntry(entries[0]) {
        assert a[0] == b[0];
        NormalReadFaithful(entries[0].value);
        assert EntriesRead(entries[1..], FirstHole) == a[1..] && NormalEntries(entries[1..]) == b[1..];
      } else {
        assert EntriesRead(entries[1..], FirstHole) == a && NormalEntries(entries[1..]) == b;
      }
      EntriesFaithful(v, entries[1..]);
      forall i | 0 <= i < |entries| && KeptEntry(entries[i]) ensures Faithful(entries[i].value) {
        if i > 0 { assert entries[i] == entries[1..][i - 1]; }
      }
    }
  }

  lemma {:induction false} ListFaithful(v: Value, list: seq<Value>)
    requires Lawful(FirstHole) && ListRead(list, FirstHole) == NormalList(list) && Nil !in NormalList(list)
    requires forall i :: 0 <= i < |list| ==> list[i] < v
    requires forall i :: 0 <= i < |list| ==> Valid(list[i]) && Printable(list[i])
    ensures forall i :: 0 <= i < |list| ==> list[i] != Nil
    ensures forall i :: 0 <= i < |list| && !list[i].Func? ==> Faithful(list[i])
    decreases v, 0, |list|
  {
    if list != [] {
      var a, b := ListRead(list, FirstHole), NormalList(list);
      if !list[0].Func? {
        assert a[0] == b[0] && b[0] in b;
        NormalReadFaithful(list[0]);
        assert ListRead(list[1..], FirstHole) == a[1..] && NormalList(list[1..]) == b[1..];
      } else {
        assert ListRead(list[1..], FirstHole) == a && NormalList(list[1..]) == b;
      }
      ListFaithful(v, list[1..]);
      forall i | 0 <= i < |list| ensures list[i] != Nil && (!list[i].Func? ==> Faithful(list[i])) {
        if i > 0 { assert list[i] == list[1..][i - 1]; }
      }
    }
  }

  /** Evaluating the printed form gives the normal form under every length operator
      exactly when the value has no kept hole and no unwritable integer. */
  lemma ReadsNormalExactly(v: Value)
    requires Valid(v) && Printable(v) && !v.Func?
    ensures (forall len: Length :: Lawful(len) ==> Eval(Tree(v), len) == Normal(v)) <==> Faithful(v)
  {
    if Faithful(v) {
      forall len: Length | Lawful(len) ensures Eval(Tree(v), len) == Normal(v) {
        ReadsNormal(v, len);
      }
    }
    if forall len: Length :: Lawful(len) ==> Eval(Tree(v), len) == Normal(v) {
      FirstHoleLawful();
      NormalReadFaithful(v);
    }
  }

  // ------------------------------------------------------- normalising twice

  /** Normalising twice changes nothing, and the normal form prints the same. */
  lemma {:induction false} NormalTwice(v: Value)
    ensures Normal(Normal(v)) == Normal(v)
    ensures Tree(Normal(v)) == Tree(v)
    decreases v, 1
  {
    if v.Table? {
      NormalEntriesTwice(v, v.entries);
      NormalListTwice(v, v.list);
    }
  }

  lemma {:induction false} NormalEntriesTwice(v: Value, entries: seq<Entry>)
    requires forall i :: 0 <= i < |entries| ==> entries[i].value < v
    ensures NormalEntries(NormalEntries(entries)) == NormalEntries(entries)
    ensures NamedFields(NormalEntries(entries)) == NamedFields(entries)
    decreases v, 0, |entries|
  {
    if entries != [] {
      NormalEntriesTwice(v, entries[1..]);
      assert NormalEntries(entries) == NormalEntry(entries[0]) + NormalEntries(entries[1..]);
      if KeptEntry(entries[0]) {
        NormalTwice(entries[0].value);
        assert NormalEntries(entries)[1..] == NormalEntries(entries[1..]);
      } else {
        assert NormalEntries(entries) == NormalEntries(entries[1..]);
        assert NamedFields(entries) == NamedFields(entries[1..]);
      }
    }
  }

  lemma {:induction false} NormalListTwice(v: Value, list: seq<Value>)
    requires forall i :: 0 <= i < |list| ==> list[i] < v
    ensures NormalList(NormalList(list)) == NormalList(list)
    ensures PosFields(NormalList(list)) == PosFields(list)
    decreases v, 0, |list|
  {
    if list != [] {
      NormalListTwice(v, list[1..]);
      if list[0].Func? {
        assert NormalList(list) == NormalList(list[1..]);
        assert PosFields(list) == PosFields(list[1..]);
      } else {
        NormalTwice(list[0]);
        assert NormalList(list)[1..] == NormalList(list[1..]);
      }
    }
  }

  // ----------------------------------------------- the normal form, field by field

  lemma {:induction false} NormalFields(entries: seq<Entry>, name: string)
    requires forall i, j :: 0 <= i < j < |entries| ==> entries[i].key != entries[j].key
    ensures FieldOf(NormalEntries(entries), name) ==
      match FieldOf(entries, name) case None => None case Some(x) => if x.Func? then None else Some(Normal(x))
    ensures forall e :: e in NormalEntries(entries) ==> e.key.StrKey?
  {
    if entries != [] {
      var e, rest := entries[0], entries[1..];
      NormalFields(rest, name);
      assert NormalEntries(entries) == NormalEntry(e) + NormalEntries(rest);
      if KeptEntry(e) {
        assert NormalEntries(entries)[0] == Entry(e.key, Normal(e.value));
        assert NormalEntries(entries)[1..] == NormalEntries(rest);
      } else {
        assert NormalEntries(entries) == NormalEntries(rest);
        if e.key == StrKey(name) { NoField(rest, name); }
      }
    }
  }

  lemma {:induction false} NoField(entries: seq<Entry>, name: string)
    requires forall e :: e in entries ==> e.key != StrKey(name)
    ensures FieldOf(entries, name) == None
  {
    if entries != [] {
      NoField(entries[1..], name);
    }
  }

  predicate NoFunction(v: Value) { !v.Func? }

  lemma {:induction false} NormalItems(list: seq<Value>)
    ensures var kept := Filter(list, NoFunction);
      |NormalList(list)| == |kept| && forall i :: 0 <= i < |kept| ==> NormalList(list)[i] == Normal(kept[i])
  {
    if list != [] {
      NormalItems(list[1..]);
      assert NormalList(list) == NormalItem(list[0]) + NormalList(list[1..]);
    }
  }

  /** What the normal form of a table holds: under every name the normal form of what was
      there, functions left out; nothing under other keys; the positions in order, functions
      left out. Everything else is its own normal form. */
  lemma NormalKeeps(v: Value, name: string)
    requires Valid(v)
    ensures !v.Table? ==> Normal(v) == v
    ensures v.Table? ==> Normal(v).Table?
    ensures v.Table? ==>
      FieldOf(Normal(v).entries, name) ==
        match FieldOf(v.entries, name) case None => None case Some(x) => if x.Func? then None else Some(Normal(x))
    ensures v.Table? ==> forall e :: e in Normal(v).entries ==> e.key.StrKey?
    ensures v.Table? ==>
      var kept := Filter(v.list, NoFunction);
      |Normal(v).list| == |kept| && forall i :: 0 <= i < |kept| ==> Normal(v).list[i] == Normal(kept[i])
  {
    if v.Table? {
      NormalFields(v.entries, name);
      NormalItems(v.list);
    }
  }
}
