/** Runs of the server, and where every unit of stock came from and went. */
module StockLedger {
  import opened Prelude
  import opened Schema
  import opened Integrity
  import opened Procedures

  datatype Event = Event(now: int, request: Request)

  /** A history: each request is handled in the state the one before it left. */
  ghost predicate Run(ts: seq<Tables>, es: seq<Event>) {
    && |ts| == |es| + 1 && Consistent(ts[0])
    && forall n :: 0 <= n < |es| ==>
      Allowed(ts[n], es[n].request) && ts[n + 1] == Handle(ts[n], es[n].now, es[n].request).0
  }

  lemma {:induction false} RunStaysConsistent(ts: seq<Tables>, es: seq<Event>, n: nat)
    requires Run(ts, es) && n <= |es|
    ensures Consistent(ts[n])
  {
    if n > 0 {
      RunStaysConsistent(ts, es, n - 1);
      HandleKeepsConsistent(ts[n - 1], es[n - 1].now, es[n - 1].request);
    }
  }

  // ------------------------------------------------ stock per distributor

  function StockOf(d: int): ItemRow -> int { (i: ItemRow) => if i.distributorId == d then i.count else 0 }

  function Stock(t: Tables, d: int): int { Sum(t.items, StockOf(d)) }

  /** Units of distributor `d` brought in by one request. */
  function Added(t: Tables, e: Event, d: int): int {
    match e.request
    case AddItemRequest(i) => if CanAddItem(t, i) && i.distributorId == d then i.count else 0
    case AddItemCountRequest(id, appended) =>
      if CanRestock(t, id, appended) && exists i :: i in t.items && i.id == id && i.distributorId == d
      then appended else 0
    case _ => 0
  }

  /** The request completes an order that was still open. */
  predicate Completes(t: Tables, e: Event) {
    && e.request.CompleteOrderRequest?
    && CompleteOrder(t, e.now, e.request.orderId, e.request.pick).Done?
    && !Completed(t, e.request.orderId)
  }

  /** Units of distributor `d` taken out by one request. */
  function Charged(t: Tables, e: Event, d: int): int {
    if Completes(t, e) then Charge(t, e.request.orderId, d) else 0
  }

  function AddedOver(ts: seq<Tables>, es: seq<Event>, d: int, n: nat): int
    requires |ts| == |es| + 1 && n <= |es|
  {
    if n == 0 then 0 else AddedOver(ts, es, d, n - 1) + Added(ts[n - 1], es[n - 1], d)
  }

  function ChargedOver(ts: seq<Tables>, es: seq<Event>, d: int, n: nat): int
    requires |ts| == |es| + 1 && n <= |es|
  {
    if n == 0 then 0 else ChargedOver(ts, es, d, n - 1) + Charged(ts[n - 1], es[n - 1], d)
  }

  /** Of the items of one distributor, rewriting lowers one by `charge` and no other. */
  lemma OneItemLowered(items: seq<ItemRow>, f: ItemRow -> ItemRow, x: ItemRow, charge: int)
    requires Distinct(items, ItemId) && x in items
    requires forall i :: i in items ==> f(i) == i.(count := f(i).count)
    requires forall i :: i in items && i.distributorId == x.distributorId ==>
      f(i).count == if i.id == x.id then i.count - charge else i.count
    ensures Sum(Map(items, f), StockOf(x.distributorId)) == Sum(items, StockOf(x.distributorId)) - charge
  {
    var stock := StockOf(x.distributorId);
    forall j | 0 <= j < |items|
      ensures if ItemId(items[j]) == x.id then items[j] == x && Map(items, f)[j] == f(x)
              else stock(items[j]) == stock(Map(items, f)[j])
    {
      assert items[j] in items;
      if items[j].id == x.id {
        DistinctSame(items, ItemId, items[j], x);
      }
    }
    SumChangedAt(items, Map(items, f), ItemId, x.id, stock, x, f(x));
  }

  lemma ChargedDistributor(t: Tables, id: int, pick: map<int, int>, d: int)
    requires Distinct(t.items, ItemId) && ValidPick(t, id, pick) && d in pick
    ensures Sum(Map(t.items, ChargeItem(t, id, pick)), StockOf(d)) == Stock(t, d) - Charge(t, id, d)
  {
    var r :| r in OrderedRows(t, id) && r.1.distributorId == d && r.1.id == pick[d];
    RowsOfOrder(t, id, r);
    OneItemLowered(t.items, ChargeItem(t, id, pick), r.1, Charge(t, id, d));
  }

  /** Completing takes exactly the group's SUM from its distributor, whichever
      item of the group the update lands on. */
  lemma CompletionCharges(t: Tables, id: int, pick: map<int, int>, d: int)
    requires Distinct(t.items, ItemId) && ValidPick(t, id, pick)
    ensures Sum(Map(t.items, ChargeItem(t, id, pick)), StockOf(d)) == Stock(t, d) - Charge(t, id, d)
  {
    var f := ChargeItem(t, id, pick);
    if d in pick {
      ChargedDistributor(t, id, pick, d);
    } else {
      FilterNone(OrderedRows(t, id), RowOfDistributor(d));
      SumEqual(t.items, Map(t.items, f), StockOf(d), StockOf(d));
    }
  }

  lemma RestockAdds(t: Tables, id: int, appended: int, d: int)
    requires Consistent(t)
    ensures Sum(Map(t.items, Restock(id, appended)), StockOf(d))
         == Stock(t, d) + if exists i :: i in t.items && i.id == id && i.distributorId == d then appended else 0
  {
    var items := Map(t.items, Restock(id, appended));
    if exists i :: i in t.items && i.id == id && i.distributorId == d {
      var x :| x in t.items && x.id == id && x.distributorId == d;
      forall j | 0 <= j < |t.items| && t.items[j].id == id ensures t.items[j] == x {
        DistinctSame(t.items, ItemId, t.items[j], x);
      }
      SumChangedAt(t.items, items, ItemId, id, StockOf(d), x, Restock(id, appended)(x));
    } else {
      forall j | 0 <= j < |t.items| ensures StockOf(d)(t.items[j]) == StockOf(d)(items[j]) {
        assert t.items[j] in t.items;
      }
      SumEqual(t.items, items, StockOf(d), StockOf(d));
    }
  }

  lemma AddingBalances(t: Tables, e: Event, d: int)
    requires e.request.AddItemRequest?
    ensures Stock(Handle(t, e.now, e.request).0, d) == Stock(t, d) + Added(t, e, d)
  {
    SumAppend(t.items, [e.request.item.(id := t.nextItem)], StockOf(d));
    AddItemExactly(t, e.now, e.request.item);
  }

  lemma RestockBalances(t: Tables, e: Event, d: int)
    requires Consistent(t) && e.request.AddItemCountRequest?
    ensures Stock(Handle(t, e.now, e.request).0, d) == Stock(t, d) + Added(t, e, d)
  {
    RestockAdds(t, e.request.itemId, e.request.appended, d);
    AddItemCountDone(t, e.request.itemId, e.request.appended);
  }

  lemma StepBalances(t: Tables, e: Event, d: int)
    requires Consistent(t) && Allowed(t, e.request)
    ensures Stock(Handle(t, e.now, e.request).0, d) == Stock(t, d) + Added(t, e, d) - Charged(t, e, d)
  {
    match e.request
    case AddItemRequest(_) => AddingBalances(t, e, d);
    case AddItemCountRequest(_, _) => RestockBalances(t, e, d);
    case AddOrderRequest(tel, expire, raw) => AddOrderAllOrNothing(t, e.now, tel, expire, raw);
    case CompleteOrderRequest(id, pick) =>
      if Completes(t, e) {
        CompletionCharges(t, id, pick, d);
      }
    case _ =>
  }

  /** The ledger over every run: current stock of a distributor is the initial stock
      plus everything added minus everything charged, customers deleted or not. */
  lemma {:induction false} LedgerBalances(ts: seq<Tables>, es: seq<Event>, d: int, n: nat)
    requires Run(ts, es) && n <= |es|
    ensures Stock(ts[n], d) == Stock(ts[0], d) + AddedOver(ts, es, d, n) - ChargedOver(ts, es, d, n)
  {
    if n > 0 {
      LedgerBalances(ts, es, d, n - 1);
      RunStaysConsistent(ts, es, n - 1);
      StepBalances(ts[n - 1], es[n - 1], d);
    }
  }

  // --------------------------------------------------- one charge per order

  /** The order can never be charged again: it is completed, or it is gone and its
      id lies below the counter. */
  ghost predicate Settled(t: Tables, id: int) {
    Completed(t, id) || (id < t.nextOrder && !HasKey(t.orders, OrderId, id))
  }

  lemma ChargeSettles(t: Tables, e: Event)
    requires Completes(t, e) && HasKey(t.orders, OrderId, e.request.orderId)
    ensures Settled(Handle(t, e.now, e.request).0, e.request.orderId)
  {
    CompleteOrderSetsDate(t, e.now, e.request.orderId, e.request.pick);
  }

  lemma DeletingSettles(t: Tables, tel: int, id: int)
    requires Consistent(t) && Settled(t, id)
    ensures Settled(DeleteCustomer(t, tel), id)
  {
    var t' := DeleteCustomer(t, tel);
    if Completed(t, id) && HasKey(t'.orders, OrderId, id) {
      var o :| o in t.orders && o.id == id && o.completion.Some?;
      var p :| p in t'.orders && OrderId(p) == id;
      DistinctSame(t.orders, OrderId, o, p);
    }
  }

  lemma CompletingKeepsSettled(orders: seq<OrderRow>, k: int, day: int, id: int)
    ensures var orders' := Map(orders, CompleteOn(k, day));
      && (HasKey(orders', OrderId, id) ==> HasKey(orders, OrderId, id))
      && ((exists o :: o in orders && o.id == id && o.completion.Some?) ==>
          (exists o :: o in orders' && o.id == id && o.completion.Some?))
  {
    var orders' := Map(orders, CompleteOn(k, day));
    DistinctSameKeys(orders', orders, OrderId);
    if o :| o in orders && o.id == id && o.completion.Some? {
      var j :| 0 <= j < |orders| && orders[j] == o;
      assert orders'[j] in orders';
    }
  }

  lemma PlacingKeepsSettled(t: Tables, e: Event, id: int)
    requires Settled(t, id) && e.request.AddOrderRequest?
    ensures Settled(Handle(t, e.now, e.request).0, id)
  {
    AddOrderAllOrNothing(t, e.now, e.request.customerTel, e.request.expire, e.request.raw);
    var (t', r) := Handle(t, e.now, e.request);
    if r == Success {
      assert forall o :: o in t.orders ==> o in t'.orders;
      assert forall o :: o in t'.orders ==> o in t.orders || o.id == t.nextOrder;
    }
  }

  lemma OrdersUntouched(t: Tables, e: Event)
    requires !e.request.DeleteCustomerRequest? && !e.request.AddOrderRequest? && !e.request.CompleteOrderRequest?
    ensures var t' := Handle(t, e.now, e.request).0; t'.orders == t.orders && t'.nextOrder == t.nextOrder
  {
  }

  lemma CompletingOrders(t: Tables, e: Event)
    requires e.request.CompleteOrderRequest?
    ensures var t' := Handle(t, e.now, e.request).0;
      && t'.nextOrder == t.nextOrder
      && t'.orders == if Completes(t, e) then Map(t.orders, CompleteOn(e.request.orderId, DateOf(e.now))) else t.orders
  {
  }

  lemma {:induction false} StaysSettled(t: Tables, e: Event, id: int)
    requires Consistent(t) && Settled(t, id)
    ensures Settled(Handle(t, e.now, e.request).0, id)
  {
    if e.request.DeleteCustomerRequest? {
      DeletingSettles(t, e.request.telephone, id);
    } else if e.request.AddOrderRequest? {
      PlacingKeepsSettled(t, e, id);
    } else if e.request.CompleteOrderRequest? {
      CompletingOrders(t, e);
      CompletingKeepsSettled(t.orders, e.request.orderId, DateOf(e.now), id);
    } else {
      OrdersUntouched(t, e);
    }
  }

  lemma {:induction false} SettledForever(ts: seq<Tables>, es: seq<Event>, id: int, m: nat, n: nat)
    requires Run(ts, es) && m <= n <= |es| && Settled(ts[m], id)
    ensures Settled(ts[n], id)
  {
    if m < n {
      SettledForever(ts, es, id, m, n - 1);
      RunStaysConsistent(ts, es, n - 1);
      StaysSettled(ts[n - 1], es[n - 1], id);
    }
  }

  /** Only an order that exists can be charged, since every line refers to an order. */
  lemma ChargeNeedsOrder(t: Tables, id: int, d: int)
    requires Consistent(t) && Charge(t, id, d) != 0
    ensures HasKey(t.orders, OrderId, id)
  {
    var rows := Filter(OrderedRows(t, id), RowOfDistributor(d));
    assert rows != [];
    RowsOfOrder(t, id, rows[0]);
  }

  /** Over any run no order is charged twice, even if ids of deleted orders are asked for again. */
  lemma ChargedAtMostOnce(ts: seq<Tables>, es: seq<Event>, m: nat, n: nat, d: int, d': int)
    requires Run(ts, es) && m < n < |es|
    requires es[m].request.CompleteOrderRequest? && es[n].request.CompleteOrderRequest?
    requires es[m].request.orderId == es[n].request.orderId
    ensures Charged(ts[m], es[m], d) == 0 || Charged(ts[n], es[n], d') == 0
  {
    var id := es[m].request.orderId;
    if Charged(ts[m], es[m], d) != 0 && Charged(ts[n], es[n], d') != 0 {
      RunStaysConsistent(ts, es, m);
      RunStaysConsistent(ts, es, n);
      ChargeNeedsOrder(ts[m], id, d);
      ChargeNeedsOrder(ts[n], id, d');
      ChargeSettles(ts[m], es[m]);
      SettledForever(ts, es, id, m + 1, n);
      assert false;
    }
  }

  // -------------------------------------------------------- exact charges

  function LineOf(order: int, item: int): LineRow -> bool { (l: LineRow) => l.orderId == order && l.itemId == item }
  function LineCount(l: LineRow): int { l.count }
  function RowOfItem(item: int): ((LineRow, ItemRow)) -> bool { (r: (LineRow, ItemRow)) => r.1.id == item }

  /** How many units of one item the order's lines ask for, repeated lines summed. */
  function Ordered(t: Tables, order: int, item: int): int {
    Sum(Filter(t.lines, LineOf(order, item)), LineCount)
  }

  lemma OrderedIsJoined(t: Tables, id: int, item: int)
    requires Consistent(t)
    ensures Ordered(t, id, item) == Sum(OrderedRows(t, id), Only(RowOfItem(item), RowCount))
  {
    var j := Join(t.lines, t.items, SameItem);
    JoinAlongKey(t.lines, t.items, SameItem, LineItem, ItemId);
    SumFiltered(j, RowOfOrder(id), Only(RowOfItem(item), RowCount));
    SumFiltered(t.lines, LineOf(id, item), LineCount);
    SumEqual(t.lines, j, Only(LineOf(id, item), LineCount), Only(RowOfOrder(id), Only(RowOfItem(item), RowCount)));
  }

  /** Every item loses exactly what was ordered of it. */
  ghost predicate Exact(t: Tables, id: int, pick: map<int, int>) {
    forall i :: i in t.items ==> i.count - NewCount(t, id, pick, i) == Ordered(t, id, i.id)
  }

  lemma SameJoinedItem(t: Tables, id: int, r: (LineRow, ItemRow), i: ItemRow)
    requires Consistent(t) && r in OrderedRows(t, id) && i in t.items && r.1.id == i.id
    ensures r.1 == i
  {
    RowsOfOrder(t, id, r);
    DistinctSame(t.items, ItemId, r.1, i);
  }

  /** Every line with a positive count is for its distributor's representative. */
  ghost predicate OnRepresentatives(t: Tables, id: int, pick: map<int, int>)
    requires ValidPick(t, id, pick)
  {
    forall r :: r in OrderedRows(t, id) ==> r.0.count == 0 || pick[r.1.distributorId] == r.1.id
  }

  lemma RepresentativesExact(t: Tables, id: int, pick: map<int, int>, i: ItemRow)
    requires Consistent(t) && ValidPick(t, id, pick) && OnRepresentatives(t, id, pick) && i in t.items
    ensures i.count - NewCount(t, id, pick, i) == Ordered(t, id, i.id)
  {
    var rows := OrderedRows(t, id);
    var d := i.distributorId;
    OrderedIsJoined(t, id, i.id);
    forall r | r in rows && r.1.id == i.id ensures r.1 == i { SameJoinedItem(t, id, r, i); }
    if d in pick && pick[d] == i.id {
      SumFiltered(rows, RowOfDistributor(d), RowCount);
      forall k | 0 <= k < |rows|
        ensures Only(RowOfDistributor(d), RowCount)(rows[k]) == Only(RowOfItem(i.id), RowCount)(rows[k])
      {
        assert rows[k] in rows;
      }
      SumEqual(rows, rows, Only(RowOfDistributor(d), RowCount), Only(RowOfItem(i.id), RowCount));
    } else {
      SumZero(rows, Only(RowOfItem(i.id), RowCount));
    }
  }

  /** With a given representative per distributor, the charge is exact per item if
      and only if every line with a positive count is for the representative. */
  lemma ExactForPick(t: Tables, id: int, pick: map<int, int>)
    requires Consistent(t) && ValidPick(t, id, pick)
    ensures Exact(t, id, pick) <==> OnRepresentatives(t, id, pick)
  {
    if OnRepresentatives(t, id, pick) {
      forall i | i in t.items ensures i.count - NewCount(t, id, pick, i) == Ordered(t, id, i.id) {
        RepresentativesExact(t, id, pick, i);
      }
    }
    if Exact(t, id, pick) {
      forall r | r in OrderedRows(t, id) ensures r.0.count == 0 || pick[r.1.distributorId] == r.1.id {
        OrderedAtLeast(t, id, r);
      }
    }
  }

  lemma OrderedAtLeast(t: Tables, id: int, r: (LineRow, ItemRow))
    requires Consistent(t) && r in OrderedRows(t, id)
    ensures 0 <= r.0.count <= Ordered(t, id, r.1.id) && r.1 in t.items
  {
    var rows := OrderedRows(t, id);
    OrderedIsJoined(t, id, r.1.id);
    forall s | s in rows ensures s.0.count >= 0 && s.1 in t.items { RowsOfOrder(t, id, s); }
    SumNonNegative(rows, Only(RowOfItem(r.1.id), RowCount));
    assert Only(RowOfItem(r.1.id), RowCount)(r) == r.0.count;
  }

  /** No two distinct items of the order share a distributor, zero counts aside. */
  ghost predicate DistributorsNotShared(t: Tables, id: int) {
    forall r, s | r in OrderedRows(t, id) && s in OrderedRows(t, id) && r.1.distributorId == s.1.distributorId ::
      r.1.id == s.1.id || r.0.count == 0
  }

  /** The charge is exact whichever representatives the server picks if and only if
      no two distinct ordered items share a distributor. */
  lemma ExactForEveryPick(t: Tables, id: int)
    requires Consistent(t)
    ensures (forall pick :: ValidPick(t, id, pick) ==> Exact(t, id, pick)) <==> DistributorsNotShared(t, id)
  {
    var rows := OrderedRows(t, id);
    if DistributorsNotShared(t, id) {
      forall pick | ValidPick(t, id, pick) ensures Exact(t, id, pick) {
        forall r | r in rows ensures r.0.count == 0 || pick[r.1.distributorId] == r.1.id {
          var s :| s in rows && s.1.distributorId == r.1.distributorId && s.1.id == pick[r.1.distributorId];
        }
        ExactForPick(t, id, pick);
      }
    }
    if forall pick :: ValidPick(t, id, pick) ==> Exact(t, id, pick) {
      forall r, s | r in rows && s in rows && r.1.distributorId == s.1.distributorId && r.1.id != s.1.id
        ensures r.0.count == 0
      {
        var pick := PickThrough(t, id, s);
        ExactForPick(t, id, pick);
      }
    }
  }

  /** Any row of a group can be the one that represents it. */
  lemma PickThrough(t: Tables, id: int, s: (LineRow, ItemRow)) returns (pick: map<int, int>)
    requires s in OrderedRows(t, id)
    ensures ValidPick(t, id, pick) && pick[s.1.distributorId] == s.1.id
  {
    var rows := OrderedRows(t, id);
    var ds := set r | r in rows :: r.1.distributorId;
    pick := map d | d in ds :: (var r :| r in rows && r.1.distributorId == d; r.1.id);
    pick := pick[s.1.distributorId := s.1.id];
  }

  /** On success the order, if there is one, is completed. */
  lemma CompleteOrderSetsDate(t: Tables, now: int, id: int, pick: map<int, int>)
    requires CompleteOrder(t, now, id, pick).Done? && HasKey(t.orders, OrderId, id)
    ensures Completed(CompleteOrder(t, now, id, pick).tables, id)
  {
    var t' := CompleteOrder(t, now, id, pick).tables;
    if !Completed(t, id) {
      var o :| o in t.orders && OrderId(o) == id;
      var j :| 0 <= j < |t.orders| && t.orders[j] == o;
      assert t'.orders[j] in t'.orders;
    }
  }

  /** The item stands for its distributor's group. */
  predicate Represents(pick: map<int, int>, i: ItemRow) {
    i.distributorId in pick && pick[i.distributorId] == i.id
  }

  /** Every representative can bear its group's charge. */
  ghost predicate Bearable(t: Tables, id: int, pick: map<int, int>) {
    forall i :: i in t.items && Represents(pick, i) ==> Charge(t, id, i.distributorId) <= i.count
  }

  /** The order is completed on `day`, each representative lowered by its group's charge, and
      nothing else has changed. */
  ghost predicate JustCompleted(t: Tables, t': Tables, id: int, pick: map<int, int>, day: int) {
    && t' == t.(items := t'.items, orders := t'.orders)
    && |t'.items| == |t.items| && |t'.orders| == |t.orders|
    && (forall k :: 0 <= k < |t.items| ==>
          var i := t.items[k];
          t'.items[k] == (if Represents(pick, i) then i.(count := i.count - Charge(t, id, i.distributorId)) else i))
    && (forall k :: 0 <= k < |t.orders| ==>
          t'.orders[k] == (if t.orders[k].id == id then t.orders[k].(completion := Some(day)) else t.orders[k]))
    && (HasKey(t.orders, OrderId, id) ==> Completed(t', id))
  }

  /** complete_order: the exact condition of success and the whole state it leads to. */
  lemma {:induction false} CompleteOrderExactly(t: Tables, now: int, id: int, pick: map<int, int>)
    requires Consistent(t)
    ensures var (t', reply) := Handle(t, now, CompleteOrderRequest(id, pick));
      && (reply == Success <==> FitsInt(id) && (Completed(t, id) || Bearable(t, id, pick)))
      && (if reply == Success && !Completed(t, id) then JustCompleted(t, t', id, pick, DateOf(now)) else t' == t)
      && forall i :: i in t'.items ==> i.count >= 0
  {
    CompletionBearable(t, id, pick);
    CountsStay(t, now, id, pick);
    if CompleteOrder(t, now, id, pick).Done? && !Completed(t, id) {
      OrderJustCompleted(t, now, id, pick);
    }
  }

  /** What a refused complete_order answers. */
  lemma CompleteOrderRefused(t: Tables, now: int, id: int, pick: map<int, int>)
    requires Consistent(t)
    ensures var reply := Handle(t, now, CompleteOrderRequest(id, pick)).1;
      reply != Success ==> reply == Error(if FitsInt(id) then NotEnoughItems else OutOfRange)
  {
  }

  lemma CountsStay(t: Tables, now: int, id: int, pick: map<int, int>)
    requires Consistent(t)
    ensures forall i :: i in Handle(t, now, CompleteOrderRequest(id, pick)).0.items ==> i.count >= 0
  {
    CompleteOrderKeeps(t, now, id, pick);
  }

  lemma {:induction false} OrderJustCompleted(t: Tables, now: int, id: int, pick: map<int, int>)
    requires CompleteOrder(t, now, id, pick).Done? && !Completed(t, id)
    ensures JustCompleted(t, CompleteOrder(t, now, id, pick).tables, id, pick, DateOf(now))
  {
    if HasKey(t.orders, OrderId, id) {
      CompleteOrderSetsDate(t, now, id, pick);
    }
  }

  lemma CompletionBearable(t: Tables, id: int, pick: map<int, int>)
    requires Domains(t)
    ensures Bearable(t, id, pick) <==> forall i :: i in t.items ==> NewCount(t, id, pick, i) >= 0
  {
    if Bearable(t, id, pick) {
      forall i | i in t.items ensures NewCount(t, id, pick, i) >= 0 {
        if Represents(pick, i) { assert Charge(t, id, i.distributorId) <= i.count; }
      }
    }
  }
}
