/** The database as the server changes it: table fields reassigned in place by
    procedures and transactions, each proved against its function in Schema. */
module PcDb {
  import opened Prelude
  import opened Schema
  import opened Integrity
  import opened Procedures

  datatype Group = Group(distributor: int, item: int, count: int)

  function GroupDistributor(g: Group): int { g.distributor }

  type Row = (LineRow, ItemRow)

  /** One group per distributor that occurs, its SUM, and the id of one of its rows. */
  ghost predicate IsGrouping(groups: seq<Group>, rows: seq<Row>) {
    && Distinct(groups, GroupDistributor)
    && (forall r :: r in rows ==> HasKey(groups, GroupDistributor, r.1.distributorId))
    && (forall g :: g in groups ==> IsGroup(g, rows))
  }

  ghost predicate IsGroup(g: Group, rows: seq<Row>) {
    && g.count == Sum(Filter(rows, RowOfDistributor(g.distributor)), RowCount)
    && exists r :: r in rows && r.1.distributorId == g.distributor && r.1.id == g.item
  }

  lemma SumOneMore(rows: seq<Row>, r: Row, d: int)
    ensures Sum(Filter(rows + [r], RowOfDistributor(d)), RowCount)
         == Sum(Filter(rows, RowOfDistributor(d)), RowCount) + if r.1.distributorId == d then r.0.count else 0
  {
    FilterAppend(rows, [r], RowOfDistributor(d));
    SumAppend(Filter(rows, RowOfDistributor(d)), Filter([r], RowOfDistributor(d)), RowCount);
  }

  lemma GroupGrows(groups: seq<Group>, rows: seq<Row>, r: Row, k: nat, item: int)
    requires IsGrouping(groups, rows) && k < |groups| && groups[k].distributor == r.1.distributorId
    requires item == groups[k].item || item == r.1.id
    ensures IsGrouping(groups[k := Group(r.1.distributorId, item, groups[k].count + r.0.count)], rows + [r])
  {
    var groups' := groups[k := Group(r.1.distributorId, item, groups[k].count + r.0.count)];
    DistinctSameKeys(groups, groups', GroupDistributor);
    forall j | 0 <= j < |groups'| ensures IsGroup(groups'[j], rows + [r]) {
      assert groups[j] in groups;
      SumOneMore(rows, r, groups[j].distributor);
      var s :| s in rows && s.1.distributorId == groups[j].distributor && s.1.id == groups[j].item;
      assert s in rows + [r] && r in rows + [r];
    }
    assert groups'[k] in groups';
  }

  lemma GroupStarts(groups: seq<Group>, rows: seq<Row>, r: Row)
    requires IsGrouping(groups, rows) && !HasKey(groups, GroupDistributor, r.1.distributorId)
    ensures IsGrouping(groups + [Group(r.1.distributorId, r.1.id, r.0.count)], rows + [r])
  {
    var g := Group(r.1.distributorId, r.1.id, r.0.count);
    DistinctAppend(groups, GroupDistributor, g);
    KeyStays(groups, groups + [g], GroupDistributor);
    assert g in groups + [g] && r in rows + [r];
    SumOneMore(rows, r, g.distributor);
    FilterNone(rows, RowOfDistributor(g.distributor));
    forall h | h in groups ensures IsGroup(h, rows + [r]) {
      SumOneMore(rows, r, h.distributor);
      var s :| s in rows && s.1.distributorId == h.distributor && s.1.id == h.item;
      assert s in rows + [r];
    }
  }

  method FindGroup(groups: seq<Group>, distributor: int) returns (k: nat)
    ensures k <= |groups| && (k < |groups| ==> groups[k].distributor == distributor)
    ensures k == |groups| ==> !HasKey(groups, GroupDistributor, distributor)
  {
    k := 0;
    while k < |groups| && groups[k].distributor != distributor
      invariant k <= |groups|
      invariant forall j :: 0 <= j < k ==> groups[j].distributor != distributor
    {
      k := k + 1;
    }
  }

  /** The representative id of a group may be replaced by that of any later row. */
  method GroupByDistributor(rows: seq<Row>) returns (groups: seq<Group>)
    ensures IsGrouping(groups, rows)
  {
    groups := [];
    for n := 0 to |rows|
      invariant IsGrouping(groups, rows[..n])
    {
      var r := rows[n];
      var k := FindGroup(groups, r.1.distributorId);
      assert rows[..n + 1] == rows[..n] + [r];
      if k < |groups| {
        var item := groups[k].item;
        if * {
          item := r.1.id;
        }
        GroupGrows(groups, rows[..n], r, k, item);
        groups := groups[k := Group(r.1.distributorId, item, groups[k].count + r.0.count)];
      } else {
        GroupStarts(groups, rows[..n], r);
        groups := groups + [Group(r.1.distributorId, r.1.id, r.0.count)];
      }
    }
    assert rows[..|rows|] == rows;
  }

  /** The representatives a grouping chose, by distributor. */
  ghost function PickOf(groups: seq<Group>): (pick: map<int, int>)
    requires Distinct(groups, GroupDistributor)
    ensures forall d :: d in pick <==> HasKey(groups, GroupDistributor, d)
    ensures forall g :: g in groups ==> g.distributor in pick && pick[g.distributor] == g.item
  {
    if groups == [] then map[] else
      DistinctTail(groups);
      var rest := PickOf(groups[1..]);
      assert forall g :: g in groups <==> g == groups[0] || g in groups[1..];
      rest[groups[0].distributor := groups[0].item]
  }

  lemma DistinctTail(groups: seq<Group>)
    requires groups != [] && Distinct(groups, GroupDistributor)
    ensures Distinct(groups[1..], GroupDistributor)
    ensures forall g :: g in groups[1..] ==> g.distributor != groups[0].distributor
  {
    forall i, j | 0 <= i < j < |groups[1..]|
      ensures GroupDistributor(groups[1..][i]) != GroupDistributor(groups[1..][j])
    {
      assert GroupDistributor(groups[i + 1]) != GroupDistributor(groups[j + 1]);
    }
    forall g | g in groups[1..] ensures g.distributor != groups[0].distributor {
      var i :| 0 <= i < |groups[1..]| && groups[1..][i] == g;
      assert GroupDistributor(groups[0]) != GroupDistributor(groups[i + 1]);
    }
  }

  lemma GroupingIsValidPick(t: Tables, id: int, groups: seq<Group>)
    requires IsGrouping(groups, OrderedRows(t, id))
    ensures ValidPick(t, id, PickOf(groups))
  {
    var pick := PickOf(groups);
    forall d | d in pick
      ensures exists r :: r in OrderedRows(t, id) && r.1.distributorId == d && r.1.id == pick[d]
    {
      var g :| g in groups && GroupDistributor(g) == d;
      assert IsGroup(g, OrderedRows(t, id));
    }
  }

  /** Joining Item with the groups on the chosen id touches an item exactly when it
      represents its own distributor. */
  lemma MatchedGroup(t: Tables, id: int, groups: seq<Group>, i: ItemRow, g: Group)
    requires Distinct(t.items, ItemId) && IsGrouping(groups, OrderedRows(t, id)) && i in t.items && g in groups
    ensures g.item == i.id ==> NewCount(t, id, PickOf(groups), i) == i.count - g.count
  {
    assert IsGroup(g, OrderedRows(t, id));
    var r :| r in OrderedRows(t, id) && r.1.distributorId == g.distributor && r.1.id == g.item;
    RowsOfOrder(t, id, r);
    if g.item == i.id {
      DistinctSame(t.items, ItemId, r.1, i);
    }
  }

  lemma UnmatchedItem(t: Tables, id: int, groups: seq<Group>, i: ItemRow)
    requires IsGrouping(groups, OrderedRows(t, id)) && forall g :: g in groups ==> g.item != i.id
    ensures NewCount(t, id, PickOf(groups), i) == i.count
  {
    if i.distributorId in PickOf(groups) {
      var g :| g in groups && GroupDistributor(g) == i.distributorId;
    }
  }

  /** `newCount` is what joining Item with the groups on the chosen id gives each row. */
  ghost predicate Charges(groups: seq<Group>, items: seq<ItemRow>, newCount: ItemRow -> int) {
    forall i :: i in items ==>
      && (forall g :: g in groups && g.item == i.id ==> newCount(i) == i.count - g.count)
      && ((forall g :: g in groups ==> g.item != i.id) ==> newCount(i) == i.count)
  }

  ghost function CountAfter(t: Tables, id: int, pick: map<int, int>): ItemRow -> int {
    (i: ItemRow) => NewCount(t, id, pick, i)
  }

  /** The derived table of CompleteOrder, with the representatives it settled on. */
  method GroupOrder(t: Tables, id: int) returns (groups: seq<Group>, ghost pick: map<int, int>)
    requires Distinct(t.items, ItemId)
    ensures ValidPick(t, id, pick) && Charges(groups, t.items, CountAfter(t, id, pick))
  {
    groups := GroupByDistributor(OrderedRows(t, id));
    pick := PickOf(groups);
    GroupingIsValidPick(t, id, groups);
    forall i | i in t.items
      ensures forall g :: g in groups && g.item == i.id ==> NewCount(t, id, pick, i) == i.count - g.count
      ensures (forall g :: g in groups ==> g.item != i.id) ==> NewCount(t, id, pick, i) == i.count
    {
      forall g | g in groups { MatchedGroup(t, id, groups, i, g); }
      if forall g :: g in groups ==> g.item != i.id { UnmatchedItem(t, id, groups, i); }
    }
  }

  /** The group UPDATE is one statement: it changes every row or, when one count
      would go below zero, none. */
  method ChargeItems(groups: seq<Group>, items: seq<ItemRow>, ghost newCount: ItemRow -> int)
    returns (updated: Option<seq<ItemRow>>)
    requires Charges(groups, items, newCount)
    ensures updated.None? <==> exists i :: i in items && newCount(i) < 0
    ensures updated.Some? ==> |updated.value| == |items|
    ensures updated.Some? ==>
      forall k :: 0 <= k < |items| ==> updated.value[k] == items[k].(count := newCount(items[k]))
  {
    var rows := [];
    for n := 0 to |items|
      invariant |rows| == n && forall k :: 0 <= k < n ==> rows[k] == items[k].(count := newCount(items[k]))
      invariant forall k :: 0 <= k < n ==> newCount(items[k]) >= 0
    {
      var count, k := items[n].count, 0;
      while k < |groups| && groups[k].item != items[n].id
        invariant k <= |groups| && forall j :: 0 <= j < k ==> groups[j].item != items[n].id
      {
        k := k + 1;
      }
      if k < |groups| {
        count := count - groups[k].count;
      }
      assert items[n] in items && count == newCount(items[n]);
      if count < 0 {
        return None;
      }
      rows := rows + [items[n].(count := count)];
    }
    return Some(rows);
  }

  method CompleteRows(orders: seq<OrderRow>, id: int, day: int) returns (updated: seq<OrderRow>)
    ensures updated == Map(orders, CompleteOn(id, day))
  {
    updated := [];
    for n := 0 to |orders|
      invariant |updated| == n && forall k :: 0 <= k < n ==> updated[k] == CompleteOn(id, day)(orders[k])
    {
      updated := updated + [if orders[n].id == id then orders[n].(completion := Some(day)) else orders[n]];
    }
  }

  /** The engine's cascade, order by order: an order of the customer takes its lines along. */
  method Cascade(orders: seq<OrderRow>, lines: seq<LineRow>, tel: int) returns (kept: seq<OrderRow>, left: seq<LineRow>)
    ensures kept == Filter(orders, NotOrderedBy(tel))
    ensures left == Filter(lines, NotLineOf(Filter(orders, OrderedBy(tel))))
  {
    kept, left := [], lines;
    ghost var gone := [];
    FilterAll(lines, NotLineOf(gone));
    for n := 0 to |orders|
      invariant kept == Filter(orders[..n], NotOrderedBy(tel))
      invariant gone == Filter(orders[..n], OrderedBy(tel))
      invariant left == Filter(lines, NotLineOf(gone))
    {
      assert orders[..n + 1] == orders[..n] + [orders[n]];
      FilterAppend(orders[..n], [orders[n]], NotOrderedBy(tel));
      FilterAppend(orders[..n], [orders[n]], OrderedBy(tel));
      if orders[n].customerTel == tel {
        DropLines(lines, gone, orders[n]);
        gone := gone + [orders[n]];
        left := Filter(left, NotLineOf([orders[n]]));
      } else {
        kept := kept + [orders[n]];
      }
    }
    assert orders[..|orders|] == orders;
  }

  lemma {:induction false} DropLines(lines: seq<LineRow>, gone: seq<OrderRow>, o: OrderRow)
    ensures Filter(Filter(lines, NotLineOf(gone)), NotLineOf([o])) == Filter(lines, NotLineOf(gone + [o]))
  {
    if lines != [] {
      DropLines(lines[1..], gone, o);
      var l := lines[0];
      assert NotLineOf(gone + [o])(l) <==> NotLineOf(gone)(l) && NotLineOf([o])(l) by {
        assert o in [o] && o in gone + [o];
        assert forall p :: p in gone ==> p in gone + [o];
      }
    }
  }

  /** The vector of item lines add_order builds; a missing number aborts the request. */
  method ReadLines(raw: seq<RawLine>) returns (wanted: Option<seq<Wanted>>)
    ensures wanted.Some? <==> Complete(raw)
    ensures wanted.Some? ==> wanted.value == NarrowAll(raw)
  {
    var vector := [];
    for n := 0 to |raw|
      invariant forall k :: 0 <= k < n ==> raw[k].itemId.Some? && raw[k].count.Some?
      invariant |vector| == n && forall k :: 0 <= k < n ==> vector[k] == Narrow(raw[k])
    {
      if raw[n].itemId.None? || raw[n].count.None? {
        return None;
      }
      vector := vector + [Narrow(raw[n])];
    }
    return Some(vector);
  }

  function ErrorOf(o: Outcome): Option<SqlError> {
    match o case Done(_) => None case Failed(e) => Some(e)
  }

  class Database {
    var ranks: seq<RankRow>
    var users: seq<UserRow>
    var customers: seq<CustomerRow>
    var orders: seq<OrderRow>
    var distributors: seq<DistributorRow>
    var types: seq<TypeRow>
    var items: seq<ItemRow>
    var lines: seq<LineRow>
    var nextOrder: int
    var nextItem: int
    var nextLine: int

    function T(): Tables
      reads this
    {
      Tables(ranks, users, customers, orders, distributors, types, items, lines, nextOrder, nextItem, nextLine)
    }

    constructor (t: Tables)
      ensures T() == t
    {
      ranks, users, customers, orders := t.ranks, t.users, t.customers, t.orders;
      distributors, types, items, lines := t.distributors, t.types, t.items, t.lines;
      nextOrder, nextItem, nextLine := t.nextOrder, t.nextItem, t.nextLine;
    }

    /** DELETE FROM Customer, and the cascade it sets off. */
    method DeleteCustomer(tel: int)
      modifies this
      ensures T() == Schema.DeleteCustomer(old(T()), tel)
      ensures forall c :: c in customers <==> c in old(customers) && c.telephone != tel
      ensures forall o :: o in orders <==> o in old(orders) && o.customerTel != tel
      ensures old(Consistent(T())) ==>
        Consistent(T()) && forall l :: l in lines <==> l in old(lines) && exists o :: o in orders && o.id == l.orderId
    {
      if Consistent(T()) {
        DeleteCustomerKeeps(T(), tel);
        LinesLeft(T(), tel);
      }
      customers := Filter(customers, TelephoneIsNot(tel));
      orders, lines := Cascade(orders, lines, tel);
    }

    /** UPDATE Item; the whole statement fails when one row leaves the column's range. */
    method AddItemCount(id: int, appended: int) returns (error: Option<SqlError>)
      modifies this
      ensures error == ErrorOf(Schema.AddItemCount(old(T()), id, appended))
      ensures T() == Answer(old(T()), Schema.AddItemCount(old(T()), id, appended)).0
      ensures error == if CanRestock(old(T()), id, appended) then None else Some(OutOfRange)
      ensures error.None? ==> |items| == |old(items)| && forall k :: 0 <= k < |items| ==>
        items[k] == if old(items)[k].id == id then old(items)[k].(count := old(items)[k].count + appended)
                    else old(items)[k]
    {
      if !FitsInt(id) || !FitsInt(appended) {
        return Some(OutOfRange);
      }
      var updated := [];
      for n := 0 to |items|
        invariant |updated| == n && forall k :: 0 <= k < n ==> updated[k] == Restock(id, appended)(items[k])
        invariant forall k :: 0 <= k < n ==> items[k].id == id ==> FitsUnsigned(items[k].count + appended)
      {
        if items[n].id == id && !FitsUnsigned(items[n].count + appended) {
          return Some(OutOfRange);
        }
        updated := updated + [Restock(id, appended)(items[n])];
      }
      assert updated == Map(items, Restock(id, appended));
      items := updated;
      error := None;
    }

    method AddOrder(now: int, tel: int, expire: int) returns (error: Option<SqlError>)
      modifies this
      ensures error == ErrorOf(Schema.AddOrder(old(T()), now, tel, expire))
      ensures T() == Answer(old(T()), Schema.AddOrder(old(T()), now, tel, expire)).0
    {
      if !exists c :: c in customers && c.telephone == tel {
        return Some(CustomerNotExists);
      }
      if nextOrder > INT_MAX {
        return Some(KeysExhausted);
      }
      orders := orders + [OrderRow(nextOrder, tel, DateOf(now), expire, None)];
      nextOrder := nextOrder + 1;
      error := None;
    }

    method AddOrderedItem(order: int, item: int, count: int) returns (error: Option<SqlError>)
      modifies this
      ensures error == ErrorOf(Schema.AddOrderedItem(old(T()), order, item, count))
      ensures T() == Answer(old(T()), Schema.AddOrderedItem(old(T()), order, item, count)).0
    {
      if !exists i :: i in items && i.id == item {
        return Some(ItemNotExists);
      }
      if nextLine > INT_MAX {
        return Some(KeysExhausted);
      }
      lines := lines + [LineRow(nextLine, item, order, count)];
      nextLine := nextLine + 1;
      error := None;
    }

    /** Undo the row changes since the transaction began. */
    method Restore(saved: Tables)
      modifies this
      ensures T() == Rollback(saved, old(T()))
    {
      ranks, users, customers, orders := saved.ranks, saved.users, saved.customers, saved.orders;
      distributors, types, items, lines := saved.distributors, saved.types, saved.items, saved.lines;
    }

    /** The insert loop of add_order. */
    method InsertAll(order: int, wanted: seq<Wanted>) returns (failed: Option<SqlError>)
      modifies this
      ensures (T(), failed) == InsertLines(old(T()), order, wanted)
    {
      var n := 0;
      while n < |wanted|
        invariant n <= |wanted|
        invariant InsertLines(T(), order, wanted[n..]) == InsertLines(old(T()), order, wanted)
      {
        assert wanted[n..][1..] == wanted[n + 1..];
        failed := AddOrderedItem(order, wanted[n].item, wanted[n].count);
        if failed.Some? {
          return;
        }
        n := n + 1;
      }
      failed := None;
    }

    /** The add_order handler: a transaction of one AddOrder and a loop of AddOrderedItem. */
    method HandleAddOrder(now: int, tel: Option<int>, expire: Option<int>, raw: seq<RawLine>) returns (reply: Reply)
      modifies this
      ensures (T(), reply) == PlaceOrder(old(T()), now, tel, expire, raw)
    {
      if tel.None? || expire.None? || now > expire.value || |raw| == 0 {
        return BadConfig;
      }
      var wanted := ReadLines(raw);
      if wanted.None? {
        return BadConfig;
      }
      var saved, order := T(), nextOrder;
      var failed := AddOrder(now, tel.value, DateOf(expire.value));
      if failed.Some? {
        Restore(saved);
        return Error(failed.value);
      }
      failed := InsertAll(order, wanted.value);
      if failed.Some? {
        Restore(saved);
        return Error(failed.value);
      }
      reply := Success;
    }

    /** The stored procedure: group, charge the representatives, set the date. */
    method CompleteOrder(now: int, id: int) returns (error: Option<SqlError>, ghost pick: map<int, int>)
      requires Distinct(T().items, ItemId)
      modifies this
      ensures ValidPick(old(T()), id, pick)
      ensures error == ErrorOf(Schema.CompleteOrder(old(T()), now, id, pick))
      ensures T() == Answer(old(T()), Schema.CompleteOrder(old(T()), now, id, pick)).0
    {
      ghost var t := T();
      var groups;
      groups, pick := GroupOrder(T(), id);
      if !FitsInt(id) {
        return Some(OutOfRange), pick;
      }
      if exists o :: o in orders && o.id == id && o.completion.Some? {
        return None, pick;
      }
      var updated := ChargeItems(groups, items, CountAfter(t, id, pick));
      if updated.None? {
        return Some(NotEnoughItems), pick;
      }
      assert updated.value == Map(items, ChargeItem(t, id, pick));
      items := updated.value;
      orders := CompleteRows(orders, id, DateOf(now));
      error := None;
    }

    /** The complete_order handler: rolled back on failure, committed otherwise. */
    method HandleCompleteOrder(now: int, id: int) returns (reply: Reply, ghost pick: map<int, int>)
      requires Distinct(T().items, ItemId)
      modifies this
      ensures Allowed(old(T()), CompleteOrderRequest(id, pick))
      ensures (T(), reply) == Handle(old(T()), now, CompleteOrderRequest(id, pick))
      ensures old(Consistent(T())) ==> Consistent(T())
    {
      ghost var t := T();
      var saved := T();
      var error;
      error, pick := CompleteOrder(now, id);
      if Consistent(t) {
        CompleteOrderKeeps(t, now, id, pick);
      }
      if error.Some? {
        Restore(saved);
        return Error(error.value), pick;
      }
      reply := Success;
    }
  }
}
