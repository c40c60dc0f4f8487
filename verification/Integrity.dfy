/** Every request keeps keys, foreign keys, column domains and non-empty orders;
    add_order is all-or-nothing. */
module Integrity {
  import opened Prelude
  import opened Schema

  // -------------------------------------------------------- single steps

  lemma CreateUserKeeps(t: Tables, u: UserRow)
    requires Consistent(t)
    ensures CreateUser(t, u).Done? ==> Consistent(CreateUser(t, u).tables)
  {
    if CreateUser(t, u).Done? {
      assert HasKey(t.ranks, RankId, u.rank);
      DistinctAppend(t.users, UserLogin, u);
    }
  }

  lemma UpdateUserKeeps(t: Tables, u: UserRow)
    requires Consistent(t)
    ensures UpdateUser(t, u).Done? ==> Consistent(UpdateUser(t, u).tables)
  {
    if UpdateUser(t, u).Done? {
      assert HasKey(t.ranks, RankId, u.rank);
      var users := Map(t.users, UserUpdate(u));
      DistinctSameKeys(t.users, users, UserLogin);
      forall v | v in users ensures HasKey(t.ranks, RankId, v.rank) {
        var i :| 0 <= i < |users| && users[i] == v;
        assert t.users[i] in t.users;
      }
    }
  }

  lemma DeleteUserKeeps(t: Tables, login: string)
    requires Consistent(t)
    ensures Consistent(DeleteUser(t, login))
  {
    DistinctFilter(t.users, UserLogin, LoginIsNot(login));
  }

  lemma CreateCustomerKeeps(t: Tables, c: CustomerRow)
    requires Consistent(t)
    ensures CreateCustomer(t, c).Done? ==> Consistent(CreateCustomer(t, c).tables)
  {
    if CreateCustomer(t, c).Done? {
      DistinctAppend(t.customers, Telephone, c);
      KeyStays(t.customers, t.customers + [c], Telephone);
    }
  }

  /** A table that only grows keeps the keys it has. */
  lemma KeyStays<T(!new), K(!new)>(xs: seq<T>, ys: seq<T>, key: T -> K)
    requires forall x :: x in xs ==> x in ys
    ensures forall k :: HasKey(xs, key, k) ==> HasKey(ys, key, k)
  {
  }

  /** The two-level cascade leaves no dangling reference and no order without lines. */
  lemma DeleteCustomerKeeps(t: Tables, tel: int)
    requires Consistent(t)
    ensures Consistent(DeleteCustomer(t, tel))
  {
    var dead := Filter(t.orders, OrderedBy(tel));
    var t' := DeleteCustomer(t, tel);
    DistinctFilter(t.customers, Telephone, TelephoneIsNot(tel));
    DistinctFilter(t.orders, OrderId, NotOrderedBy(tel));
    DistinctFilter(t.lines, LineId, NotLineOf(dead));
    forall o | o in t'.orders
      ensures HasKey(t'.customers, Telephone, o.customerTel)
      ensures HasKey(t'.lines, LineOrder, o.id)
    {
      var c :| c in t.customers && Telephone(c) == o.customerTel;
      assert c in t'.customers;
      var l :| l in t.lines && LineOrder(l) == o.id;
      forall d | d in dead ensures d.id != l.orderId {
        if d.id == o.id { DistinctSame(t.orders, OrderId, d, o); }
      }
      assert l in t'.lines;
    }
    forall l | l in t'.lines ensures HasKey(t'.orders, OrderId, l.orderId) {
      var o :| o in t.orders && OrderId(o) == l.orderId;
      assert o !in dead;
      assert o in t'.orders;
    }
  }

  lemma AddItemKeeps(t: Tables, i: ItemRow)
    requires Consistent(t)
    ensures AddItem(t, i).Done? ==> Consistent(AddItem(t, i).tables)
  {
    if AddItem(t, i).Done? {
      var row := i.(id := t.nextItem);
      DistinctAppend(t.items, ItemId, row);
      KeyStays(t.items, t.items + [row], ItemId);
      assert HasKey(t.distributors, DistributorId, i.distributorId);
      assert HasKey(t.types, TypeId, i.typeId);
    }
  }

  /** Rewriting rows of Item without touching their keys or leaving the unsigned
      domain keeps everything. */
  lemma ItemsRewritten(t: Tables, f: ItemRow -> ItemRow)
    requires Consistent(t)
    requires forall i :: i in t.items ==> f(i) == i.(count := f(i).count) && FitsUnsigned(f(i).count)
    ensures Consistent(t.(items := Map(t.items, f)))
  {
    var items := Map(t.items, f);
    DistinctSameKeys(t.items, items, ItemId);
    forall j | 0 <= j < |items|
      ensures items[j] == t.items[j].(count := items[j].count) && FitsUnsigned(items[j].count)
    {
      assert t.items[j] in t.items;
    }
    forall i | i in items
      ensures HasKey(t.distributors, DistributorId, i.distributorId)
      ensures HasKey(t.types, TypeId, i.typeId)
      ensures FitsUnsigned(i.count) && i.id < t.nextItem
    {
      var j :| 0 <= j < |items| && items[j] == i;
      assert t.items[j] in t.items;
    }
  }

  lemma AddItemCountKeeps(t: Tables, id: int, appended: int)
    requires Consistent(t)
    ensures AddItemCount(t, id, appended).Done? ==> Consistent(AddItemCount(t, id, appended).tables)
  {
    if AddItemCount(t, id, appended).Done? {
      ItemsRewritten(t, Restock(id, appended));
    }
  }

  // -------------------------------------------------------- CompleteOrder

  lemma RowsOfOrder(t: Tables, id: int, r: (LineRow, ItemRow))
    ensures r in OrderedRows(t, id) <==> r.0 in t.lines && r.1 in t.items && r.0.itemId == r.1.id && r.0.orderId == id
  {
  }

  lemma ChargeNonNegative(t: Tables, id: int, d: int)
    requires Domains(t)
    ensures Charge(t, id, d) >= 0
  {
    var rows := Filter(OrderedRows(t, id), RowOfDistributor(d));
    forall r | r in rows ensures RowCount(r) >= 0 {
      RowsOfOrder(t, id, r);
      assert r.0 in t.lines;
    }
    SumNonNegative(rows, RowCount);
  }

  lemma OrdersCompleted(t: Tables, id: int, day: int)
    requires Consistent(t)
    ensures Consistent(t.(orders := Map(t.orders, CompleteOn(id, day))))
  {
    var orders := Map(t.orders, CompleteOn(id, day));
    DistinctSameKeys(t.orders, orders, OrderId);
    forall o | o in orders
      ensures HasKey(t.customers, Telephone, o.customerTel)
      ensures o.id < t.nextOrder && HasKey(t.lines, LineOrder, o.id)
    {
      var j :| 0 <= j < |orders| && orders[j] == o;
      assert t.orders[j] in t.orders;
    }
  }

  /** Completing keeps the invariant; in particular no count goes below zero. */
  lemma CompleteOrderKeeps(t: Tables, now: int, id: int, pick: map<int, int>)
    requires Consistent(t)
    ensures CompleteOrder(t, now, id, pick).Done? ==> Consistent(CompleteOrder(t, now, id, pick).tables)
  {
    if CompleteOrder(t, now, id, pick).Done? && !Completed(t, id) {
      forall i | i in t.items ensures FitsUnsigned(NewCount(t, id, pick, i)) {
        ChargeNonNegative(t, id, i.distributorId);
      }
      ItemsRewritten(t, ChargeItem(t, id, pick));
      OrdersCompleted(t.(items := Map(t.items, ChargeItem(t, id, pick))), id, DateOf(now));
    }
  }

  // ------------------------------------------------------------ add_order

  /** The lines a successful insert loop leaves behind. */
  function NewLines(first: int, order: int, wanted: seq<Wanted>): (r: seq<LineRow>)
    ensures |r| == |wanted|
    ensures forall k :: 0 <= k < |r| ==> r[k] == LineRow(first + k, wanted[k].item, order, wanted[k].count)
  {
    seq(|wanted|, k requires 0 <= k < |wanted| => LineRow(first + k, wanted[k].item, order, wanted[k].count))
  }

  predicate KnownItems(t: Tables, wanted: seq<Wanted>) {
    forall w :: w in wanted ==> exists i :: i in t.items && i.id == w.item
  }

  predicate CanInsert(t: Tables, wanted: seq<Wanted>) {
    KnownItems(t, wanted) && (wanted == [] || t.nextLine + |wanted| - 1 <= INT_MAX)
  }

  /** The insert loop only ever appends lines and advances their counter. */
  lemma {:induction false} InsertLinesFrame(t: Tables, order: int, wanted: seq<Wanted>)
    ensures var t' := InsertLines(t, order, wanted).0;
            t' == t.(lines := t'.lines, nextLine := t'.nextLine) && t.nextLine <= t'.nextLine
    decreases |wanted|
  {
    if wanted != [] {
      match AddOrderedItem(t, order, wanted[0].item, wanted[0].count)
      case Failed(_) =>
      case Done(t1) => InsertLinesFrame(t1, order, wanted[1..]);
    }
  }

  /** It succeeds exactly when every item exists and the key space lasts. */
  lemma {:induction false} InsertLinesSucceeds(t: Tables, order: int, wanted: seq<Wanted>)
    ensures InsertLines(t, order, wanted).1.None? <==> CanInsert(t, wanted)
    decreases |wanted|
  {
    if wanted != [] {
      assert wanted[0] in wanted;
      match AddOrderedItem(t, order, wanted[0].item, wanted[0].count)
      case Failed(_) =>
      case Done(t1) =>
        InsertLinesSucceeds(t1, order, wanted[1..]);
        KnownItemsStep(t, t1, wanted);
    }
  }

  /** On success it appends exactly the wanted lines, in order. */
  lemma {:induction false} InsertLinesAppends(t: Tables, order: int, wanted: seq<Wanted>)
    requires InsertLines(t, order, wanted).1.None?
    ensures var t' := InsertLines(t, order, wanted).0;
            t'.lines == t.lines + NewLines(t.nextLine, order, wanted) && t'.nextLine == t.nextLine + |wanted|
    decreases |wanted|
  {
    if wanted != [] {
      match AddOrderedItem(t, order, wanted[0].item, wanted[0].count)
      case Failed(_) =>
      case Done(t1) =>
        InsertLinesAppends(t1, order, wanted[1..]);
        NewLinesStep(t.lines, t.nextLine, order, wanted);
    }
  }

  lemma KnownItemsStep(t: Tables, t1: Tables, wanted: seq<Wanted>)
    requires wanted != [] && t1.items == t.items
    requires exists i :: i in t.items && i.id == wanted[0].item
    ensures KnownItems(t, wanted) <==> KnownItems(t1, wanted[1..])
  {
    assert forall w :: w in wanted <==> w == wanted[0] || w in wanted[1..];
  }

  lemma NewLinesStep(lines: seq<LineRow>, first: int, order: int, wanted: seq<Wanted>)
    requires wanted != []
    ensures lines + NewLines(first, order, wanted)
         == lines + [LineRow(first, wanted[0].item, order, wanted[0].count)] + NewLines(first + 1, order, wanted[1..])
  {
  }

  /** All or nothing: either exactly one new order with exactly the requested
      lines, in order, or every row as before. Success has an exact condition. */
  lemma AddOrderAllOrNothing(t: Tables, now: int, tel: Option<int>, expire: Option<int>, raw: seq<RawLine>)
    ensures var (t', r) := PlaceOrder(t, now, tel, expire, raw);
            && (r != Success ==>
                 && t' == t.(nextOrder := t'.nextOrder, nextLine := t'.nextLine)
                 && t.nextOrder <= t'.nextOrder && t.nextLine <= t'.nextLine)
            && (r == Success <==>
                 && tel.Some? && expire.Some? && now <= expire.value && raw != [] && Complete(raw)
                 && HasKey(t.customers, Telephone, tel.value)
                 && KnownItems(t, NarrowAll(raw))
                 && t.nextOrder <= INT_MAX && t.nextLine + |raw| - 1 <= INT_MAX)
            && (r == Success ==>
                 t' == t.(orders := t.orders +
                            [OrderRow(t.nextOrder, tel.value, DateOf(now), DateOf(expire.value), None)],
                          lines := t.lines + NewLines(t.nextLine, t.nextOrder, NarrowAll(raw)),
                          nextOrder := t.nextOrder + 1, nextLine := t.nextLine + |raw|))
  {
    if tel.Some? && expire.Some? && Complete(raw) {
      match AddOrder(t, now, tel.value, DateOf(expire.value))
      case Failed(_) =>
      case Done(t1) =>
        InsertLinesFrame(t1, t.nextOrder, NarrowAll(raw));
        InsertLinesSucceeds(t1, t.nextOrder, NarrowAll(raw));
        if CanInsert(t1, NarrowAll(raw)) {
          InsertLinesAppends(t1, t.nextOrder, NarrowAll(raw));
        }
    }
  }

  /** The stored lines are the requested ones exactly when every requested number
      fits the C++ type it is narrowed to. */
  lemma LinesAsRequested(first: int, order: int, raw: seq<RawLine>)
    requires Complete(raw)
    ensures (forall k :: 0 <= k < |raw| ==>
               NewLines(first, order, NarrowAll(raw))[k].itemId == raw[k].itemId.value
               && NewLines(first, order, NarrowAll(raw))[k].count == raw[k].count.value)
        <==> (forall r :: r in raw ==> FitsInt(r.itemId.value) && FitsUnsigned(r.count.value))
  {
    var stored := NewLines(first, order, NarrowAll(raw));
    if forall k :: 0 <= k < |raw| ==> stored[k].itemId == raw[k].itemId.value && stored[k].count == raw[k].count.value {
      forall r | r in raw ensures FitsInt(r.itemId.value) && FitsUnsigned(r.count.value) {
        var k :| 0 <= k < |raw| && raw[k] == r;
        assert stored[k].itemId == raw[k].itemId.value;
      }
    }
  }

  ghost predicate OrderPlaced(t: Tables, t': Tables, order: OrderRow, wanted: seq<Wanted>) {
    && wanted != [] && KnownItems(t, wanted)
    && order.id == t.nextOrder && HasKey(t.customers, Telephone, order.customerTel)
    && (forall w :: w in wanted ==> FitsUnsigned(w.count))
    && t' == t.(orders := t.orders + [order], lines := t.lines + NewLines(t.nextLine, order.id, wanted),
                nextOrder := t.nextOrder + 1, nextLine := t.nextLine + |wanted|)
  }

  lemma OrderPlacedKeys(t: Tables, t': Tables, order: OrderRow, wanted: seq<Wanted>)
    requires PrimaryKeys(t) && Domains(t) && OrderPlaced(t, t', order, wanted)
    ensures PrimaryKeys(t')
  {
    DistinctAppend(t.orders, OrderId, order);
    forall i, j | 0 <= i < j < |t'.lines| ensures LineId(t'.lines[i]) != LineId(t'.lines[j]) {
      if i < |t.lines| <= j {
        assert t.lines[i] in t.lines;
      }
    }
  }

  lemma NewLineFacts(t: Tables, t': Tables, order: OrderRow, wanted: seq<Wanted>, l: LineRow)
    requires OrderPlaced(t, t', order, wanted) && l in NewLines(t.nextLine, order.id, wanted)
    ensures HasKey(t.items, ItemId, l.itemId) && l.orderId == order.id
    ensures FitsUnsigned(l.count) && l.id < t'.nextLine
  {
    var added := NewLines(t.nextLine, order.id, wanted);
    var k :| 0 <= k < |added| && added[k] == l;
    assert wanted[k] in wanted;
  }

  lemma OrderPlacedReferences(t: Tables, t': Tables, order: OrderRow, wanted: seq<Wanted>)
    requires ForeignKeys(t) && OrderPlaced(t, t', order, wanted)
    ensures ForeignKeys(t')
  {
    KeyStays(t.orders, t'.orders, OrderId);
    assert order in t'.orders && OrderId(order) == order.id;
    forall l | l in NewLines(t.nextLine, order.id, wanted)
      ensures HasKey(t.items, ItemId, l.itemId) && HasKey(t'.orders, OrderId, l.orderId)
    {
      NewLineFacts(t, t', order, wanted, l);
    }
  }

  /** Adding one order together with its non-empty list of lines keeps everything. */
  lemma OrderAdded(t: Tables, t': Tables, order: OrderRow, wanted: seq<Wanted>)
    requires Consistent(t) && OrderPlaced(t, t', order, wanted)
    ensures Consistent(t')
  {
    var added := NewLines(t.nextLine, order.id, wanted);
    OrderPlacedKeys(t, t', order, wanted);
    OrderPlacedReferences(t, t', order, wanted);
    forall l | l in added ensures FitsUnsigned(l.count) && l.id < t'.nextLine {
      NewLineFacts(t, t', order, wanted, l);
    }
    KeyStays(t.lines, t'.lines, LineOrder);
    assert added[0] in t'.lines && LineOrder(added[0]) == order.id;
  }

  lemma PlaceOrderKeeps(t: Tables, now: int, tel: Option<int>, expire: Option<int>, raw: seq<RawLine>)
    requires Consistent(t)
    ensures Consistent(PlaceOrder(t, now, tel, expire, raw).0)
  {
    AddOrderAllOrNothing(t, now, tel, expire, raw);
    var (t', r) := PlaceOrder(t, now, tel, expire, raw);
    if r == Success {
      OrderAdded(t, t', OrderRow(t.nextOrder, tel.value, DateOf(now), DateOf(expire.value), None), NarrowAll(raw));
    }
  }

  // ------------------------------------------------------------ every step

  /** Whatever the request and the reply, consistency survives. */
  lemma HandleKeepsConsistent(t: Tables, now: int, req: Request)
    requires Consistent(t)
    ensures Consistent(Handle(t, now, req).0)
  {
    match req
    case CreateUserRequest(u) => CreateUserKeeps(t, u);
    case UpdateUserRequest(u) => UpdateUserKeeps(t, u);
    case DeleteUserRequest(login) => DeleteUserKeeps(t, login);
    case CreateCustomerRequest(c) => CreateCustomerKeeps(t, c);
    case DeleteCustomerRequest(tel) => DeleteCustomerKeeps(t, tel);
    case AddItemRequest(i) => AddItemKeeps(t, i);
    case AddItemCountRequest(id, appended) => AddItemCountKeeps(t, id, appended);
    case AddOrderRequest(tel, expire, raw) => PlaceOrderKeeps(t, now, tel, expire, raw);
    case CompleteOrderRequest(id, pick) => CompleteOrderKeeps(t, now, id, pick);
  }
}
