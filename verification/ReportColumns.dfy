/** What the report queries say, as sums over the lines of the orders and conditions on the
    columns of the tables. */
module ReportColumns {
  import opened Prelude
  import opened Schema
  import opened Reports

  /** The cost of the item with the id. */
  function ItemCost(items: seq<ItemRow>, id: int): real {
    if items == [] then 0.0 else if items[0].id == id then items[0].cost else ItemCost(items[1..], id)
  }

  lemma {:induction false} ItemCostOf(items: seq<ItemRow>, i: ItemRow)
    requires Distinct(items, ItemId) && i in items
    ensures ItemCost(items, i.id) == i.cost
  {
    if items[0].id == i.id {
      DistinctSame(items, ItemId, items[0], i);
    } else {
      var rest := items[1..];
      forall a, b | 0 <= a < b < |rest| ensures ItemId(rest[a]) != ItemId(rest[b]) {
        assert ItemId(items[a + 1]) != ItemId(items[b + 1]);
      }
      assert i in rest;
      ItemCostOf(rest, i);
    }
  }

  /** The line's order is completed on a day of the window. */
  predicate CompletedWithin(orders: seq<OrderRow>, order: int, start: int, end: int) {
    exists o :: o in orders && o.id == order && o.completion.Some? && start <= o.completion.value <= end
  }

  // -------------------------------------------------------------- income

  function LineIncome(t: Tables, start: int, end: int): LineRow -> real {
    (l: LineRow) =>
      if CompletedWithin(t.orders, l.orderId, start, end) then l.count as real * ItemCost(t.items, l.itemId) else 0.0
  }

  /** Each line beside its item. */
  ghost predicate LinesBeside(t: Tables, j: seq<Line1>) {
    && Distinct(t.items, ItemId) && |j| == |t.lines|
    && forall k :: 0 <= k < |j| ==> j[k].0 == t.lines[k] && j[k].1 in t.items && j[k].1.id == t.lines[k].itemId
  }

  lemma {:induction false} LinesJoined(t: Tables)
    requires PrimaryKeys(t) && ForeignKeys(t)
    ensures LinesBeside(t, Join(t.lines, t.items, SameItem))
  {
    JoinAlongKey(t.lines, t.items, SameItem, LineItem, ItemId);
  }

  lemma {:induction false} SameIncome(t: Tables, j: seq<Line1>, start: int, end: int)
    requires LinesBeside(t, j)
    ensures Total(j, WindowCost(t.orders, start, end)) == Total(t.lines, LineIncome(t, start, end))
  {
    forall k | 0 <= k < |j| ensures WindowCost(t.orders, start, end)(j[k]) == LineIncome(t, start, end)(t.lines[k]) {
      ItemCostOf(t.items, j[k].1);
    }
    TotalEqual(j, t.lines, WindowCost(t.orders, start, end), LineIncome(t, start, end));
  }

  /** The income of a window: for every line of an order completed in it, the number ordered
      times the price of the item. */
  lemma {:induction false} IncomeInColumns(t: Tables, start: int, end: int)
    requires Consistent(t)
    ensures GetIncome(t, start, end) == Total(t.lines, LineIncome(t, start, end))
  {
    IncomeAsSum(t, start, end);
    LinesJoined(t);
    SameIncome(t, Join(t.lines, t.items, SameItem), start, end);
  }

  // ---------------------------------------------------------- statistics

  predicate MadeByName(t: Tables, item: int, name: string) {
    exists i, d :: i in t.items && d in t.distributors && i.id == item && i.distributorId == d.id && d.name == name
  }

  predicate SoldBy(t: Tables, l: LineRow, name: string, start: int, end: int) {
    CompletedWithin(t.orders, l.orderId, start, end) && MadeByName(t, l.itemId, name)
  }

  function LineSales(t: Tables, name: string, start: int, end: int): LineRow -> real {
    (l: LineRow) => if SoldBy(t, l, name, start, end) then l.count as real * ItemCost(t.items, l.itemId) else 0.0
  }

  function LineSold(t: Tables, name: string, start: int, end: int): LineRow -> int {
    (l: LineRow) => if SoldBy(t, l, name, start, end) then l.count else 0
  }

  function Sales(t: Tables): seq<Reports.LineSold> {
    Join(Join(Join(t.lines, t.items, SameItem), t.distributors, MakerOfItem), t.orders, OrderOfMade)
  }

  ghost predicate MakersBeside(t: Tables, j: seq<LineMade>) {
    && |j| == |t.lines|
    && forall k :: 0 <= k < |j| ==>
      && j[k].0.0 == t.lines[k] && j[k].0.1 in t.items && j[k].0.1.id == t.lines[k].itemId
      && j[k].1 in t.distributors && j[k].1.id == j[k].0.1.distributorId
  }

  lemma {:induction false} MakersJoined(t: Tables)
    requires PrimaryKeys(t) && ForeignKeys(t)
    ensures MakersBeside(t, Join(Join(t.lines, t.items, SameItem), t.distributors, MakerOfItem))
  {
    var j := Join(t.lines, t.items, SameItem);
    LinesJoined(t);
    forall r | r in j ensures HasKey(t.distributors, DistributorId, LineMaker(r)) {
      assert r.1 in t.items;
    }
    JoinAlongKey(j, t.distributors, MakerOfItem, LineMaker, DistributorId);
  }

  /** Row by row, the joined rows are the lines, each beside its item, maker and order. */
  lemma {:induction false} SalesJoin(t: Tables)
    requires PrimaryKeys(t) && ForeignKeys(t)
    ensures SalesBeside(t, Sales(t))
  {
    var j := Join(Join(t.lines, t.items, SameItem), t.distributors, MakerOfItem);
    MakersJoined(t);
    forall r | r in j ensures HasKey(t.orders, OrderId, MadeOrderId(r)) {
      assert r.0.0 in t.lines;
    }
    JoinAlongKey(j, t.orders, OrderOfMade, MadeOrderId, OrderId);
  }

  ghost predicate SalesBeside(t: Tables, j: seq<Reports.LineSold>) {
    && UniqueIds(t) && |j| == |t.lines| && forall k :: 0 <= k < |t.lines| ==> SaleOf(t, j[k], t.lines[k])
  }

  ghost predicate UniqueIds(t: Tables) {
    Distinct(t.items, ItemId) && Distinct(t.distributors, DistributorId) && Distinct(t.orders, OrderId)
  }

  predicate SaleOf(t: Tables, r: Reports.LineSold, l: LineRow) {
    && r.0.0.0 == l && r.0.0.1 in t.items && r.0.1 in t.distributors && r.1 in t.orders
    && r.0.0.1.id == l.itemId && r.0.1.id == r.0.0.1.distributorId && r.1.id == l.orderId
  }

  lemma {:induction false} SaleColumns(t: Tables, r: Reports.LineSold, l: LineRow, name: string, start: int, end: int)
    requires UniqueIds(t) && SaleOf(t, r, l)
    ensures CompletedWithin(t.orders, l.orderId, start, end) <==>
              r.1.completion.Some? && start <= r.1.completion.value <= end
    ensures MadeByName(t, l.itemId, name) <==> r.0.1.name == name
    ensures ItemCost(t.items, l.itemId) == r.0.0.1.cost
  {
    ItemCostOf(t.items, r.0.0.1);
    forall o | o in t.orders && o.id == l.orderId ensures o == r.1 { DistinctSame(t.orders, OrderId, o, r.1); }
    forall i | i in t.items && i.id == l.itemId ensures i == r.0.0.1 { DistinctSame(t.items, ItemId, i, r.0.0.1); }
    forall d | d in t.distributors && d.id == r.0.0.1.distributorId ensures d == r.0.1 {
      DistinctSame(t.distributors, DistributorId, d, r.0.1);
    }
  }

  lemma {:induction false} SaleValue(t: Tables, r: Reports.LineSold, l: LineRow, name: string, start: int, end: int)
    requires UniqueIds(t) && SaleOf(t, r, l)
    ensures OnlyReal(SoldIn(start, end), OnlyReal(MadeBy(name), SoldCost))(r) == LineSales(t, name, start, end)(l)
  {
    SaleColumns(t, r, l, name, start, end);
    assert SoldCost(r) == l.count as real * r.0.0.1.cost;
    assert SoldIn(start, end)(r) && MadeBy(name)(r) <==> SoldBy(t, l, name, start, end);
  }

  lemma {:induction false} SalesOfName(t: Tables, j: seq<Reports.LineSold>, name: string, start: int, end: int)
    requires SalesBeside(t, j)
    ensures Total(Filter(Filter(j, SoldIn(start, end)), MadeBy(name)), SoldCost)
         == Total(t.lines, LineSales(t, name, start, end))
  {
    TotalFiltered(Filter(j, SoldIn(start, end)), MadeBy(name), SoldCost);
    TotalFiltered(j, SoldIn(start, end), OnlyReal(MadeBy(name), SoldCost));
    forall k | 0 <= k < |j|
      ensures OnlyReal(SoldIn(start, end), OnlyReal(MadeBy(name), SoldCost))(j[k])
           == LineSales(t, name, start, end)(t.lines[k])
    {
      SaleValue(t, j[k], t.lines[k], name, start, end);
    }
    TotalEqual(j, t.lines, OnlyReal(SoldIn(start, end), OnlyReal(MadeBy(name), SoldCost)),
      LineSales(t, name, start, end));
  }

  lemma {:induction false} NumberOfName(t: Tables, j: seq<Reports.LineSold>, name: string, start: int, end: int)
    requires SalesBeside(t, j)
    ensures Sum(Filter(Filter(j, SoldIn(start, end)), MadeBy(name)), SoldCount)
         == Sum(t.lines, LineSold(t, name, start, end))
  {
    SumFiltered(Filter(j, SoldIn(start, end)), MadeBy(name), SoldCount);
    SumFiltered(j, SoldIn(start, end), Only(MadeBy(name), SoldCount));
    forall k | 0 <= k < |j|
      ensures Only(SoldIn(start, end), Only(MadeBy(name), SoldCount))(j[k]) == LineSold(t, name, start, end)(t.lines[k])
    {
      SaleColumns(t, j[k], t.lines[k], name, start, end);
    }
    SumEqual(j, t.lines, Only(SoldIn(start, end), Only(MadeBy(name), SoldCount)), LineSold(t, name, start, end));
  }

  /** The statistics have one row for each name under which something was sold in the
      window, with the money taken and the number sold. */
  lemma {:induction false} SellsInColumns(t: Tables, start: int, end: int)
    requires Consistent(t)
    ensures Distinct(GetSells(t, start, end), SellsName)
    ensures forall g :: g in GetSells(t, start, end) ==>
      && g.commonCost == Total(t.lines, LineSales(t, g.distributor, start, end))
      && g.commonCount == Sum(t.lines, LineSold(t, g.distributor, start, end))
    ensures forall name :: HasKey(GetSells(t, start, end), SellsName, name) <==>
      exists l :: l in t.lines && SoldBy(t, l, name, start, end)
  {
    SalesJoin(t);
    GroupsInColumns(t, Sales(t), start, end);
  }

  lemma {:induction false} GroupsInColumns(t: Tables, j: seq<Reports.LineSold>, start: int, end: int)
    requires SalesBeside(t, j)
    ensures var groups := GroupByName(Filter(j, SoldIn(start, end)));
      && Distinct(groups, SellsName)
      && (forall g :: g in groups ==>
            && g.commonCost == Total(t.lines, LineSales(t, g.distributor, start, end))
            && g.commonCount == Sum(t.lines, LineSold(t, g.distributor, start, end)))
      && forall name :: HasKey(groups, SellsName, name) <==>
           exists l :: l in t.lines && SoldBy(t, l, name, start, end)
  {
    var rows := Filter(j, SoldIn(start, end));
    var groups := GroupByName(rows);
    GroupsAreSums(rows);
    forall g | g in groups
      ensures g.commonCost == Total(t.lines, LineSales(t, g.distributor, start, end))
      ensures g.commonCount == Sum(t.lines, LineSold(t, g.distributor, start, end))
    {
      assert IsGroupOf(g, rows);
      SalesOfName(t, j, g.distributor, start, end);
      NumberOfName(t, j, g.distributor, start, end);
    }
    forall name
      ensures HasKey(groups, SellsName, name) <==> exists l :: l in t.lines && SoldBy(t, l, name, start, end)
    {
      GroupNames(rows, name);
      NamesSold(t, j, name, start, end);
    }
  }

  lemma {:induction false} NamesSold(t: Tables, j: seq<Reports.LineSold>, name: string, start: int, end: int)
    requires SalesBeside(t, j)
    ensures (exists r :: r in Filter(j, SoldIn(start, end)) && r.0.1.name == name) <==>
      exists l :: l in t.lines && SoldBy(t, l, name, start, end)
  {
    var rows := Filter(j, SoldIn(start, end));
    if r :| r in rows && r.0.1.name == name {
      var k :| 0 <= k < |j| && j[k] == r;
      SaleColumns(t, r, t.lines[k], name, start, end);
      assert t.lines[k] in t.lines;
    }
    if l :| l in t.lines && SoldBy(t, l, name, start, end) {
      var k :| 0 <= k < |t.lines| && t.lines[k] == l;
      SaleColumns(t, j[k], l, name, start, end);
      assert j[k] in rows;
    }
  }

  // ------------------------------------------------------ one order's items

  function OfOrder(id: int): LineRow -> bool { (l: LineRow) => l.orderId == id }

  /** A row of GetOrderItems: a line of the order beside its item, maker and type. */
  predicate ShowsLine(t: Tables, r: LineTyped, l: LineRow) {
    && r.0.0.0 == l && r.0.0.1 in t.items && r.0.1 in t.distributors && r.1 in t.types
    && r.0.0.1.id == l.itemId && r.0.1.id == r.0.0.1.distributorId && r.1.id == r.0.0.1.typeId
  }

  /** And its common cost is the number times the price. */
  predicate Priced(r: LineTyped, l: LineRow) { TypedCost(r) == l.count as real * r.0.0.1.cost }

  function Shown(t: Tables): seq<LineTyped> {
    Join(Join(Join(t.lines, t.items, SameItem), t.distributors, MakerOfItem), t.types, TypeOfItem)
  }

  lemma {:induction false} OrderJoin(t: Tables)
    requires PrimaryKeys(t) && ForeignKeys(t)
    ensures |Shown(t)| == |t.lines| && forall k :: 0 <= k < |t.lines| ==> ShowsLine(t, Shown(t)[k], t.lines[k])
  {
    var j := Join(Join(t.lines, t.items, SameItem), t.distributors, MakerOfItem);
    MakersJoined(t);
    forall r | r in j ensures HasKey(t.types, TypeId, MadeType(r)) {
      assert r.0.1 in t.items;
    }
    JoinAlongKey(j, t.types, TypeOfItem, MadeType, TypeId);
  }

  /** Filtering two sequences side by side. */
  lemma {:induction false} FilteredTogether<A(!new), B(!new)>(xs: seq<A>, ys: seq<B>, p: A -> bool, q: B -> bool)
    requires |xs| == |ys| && forall i :: 0 <= i < |xs| ==> (p(xs[i]) <==> q(ys[i]))
    ensures |Filter(xs, p)| == |Filter(ys, q)|
    ensures forall m :: 0 <= m < |Filter(xs, p)| ==> Paired(xs, ys, Filter(xs, p)[m], Filter(ys, q)[m])
  {
    if xs != [] {
      var rest, other := Filter(xs[1..], p), Filter(ys[1..], q);
      FilteredTogether(xs[1..], ys[1..], p, q);
      PairedLater(xs, ys, xs[0], ys[0]);
      forall m | 0 <= m < |rest| ensures Paired(xs, ys, rest[m], other[m]) {
        PairedLater(xs, ys, rest[m], other[m]);
      }
    }
  }

  ghost predicate Paired<A(!new), B(!new)>(xs: seq<A>, ys: seq<B>, x: A, y: B)
    requires |xs| == |ys|
  {
    exists k :: 0 <= k < |xs| && xs[k] == x && ys[k] == y
  }

  lemma PairedLater<A(!new), B(!new)>(xs: seq<A>, ys: seq<B>, x: A, y: B)
    requires |xs| == |ys| && xs != [] && ((x, y) == (xs[0], ys[0]) || Paired(xs[1..], ys[1..], x, y))
    ensures Paired(xs, ys, x, y)
  {
    if (x, y) != (xs[0], ys[0]) {
      var k :| 0 <= k < |xs[1..]| && xs[1..][k] == x && ys[1..][k] == y;
      assert xs[k + 1] == x && ys[k + 1] == y;
    }
  }

  /** GetOrderItems shows the order's lines, all of them, in order and once each, with the
      price times the number. */
  lemma {:induction false} OrderItemsInColumns(t: Tables, id: int)
    requires Consistent(t)
    ensures var rows, lines := GetOrderItems(t, id), Filter(t.lines, OfOrder(id));
      && |rows| == |lines|
      && forall m :: 0 <= m < |rows| ==> ShowsLine(t, rows[m], lines[m]) && Priced(rows[m], lines[m])
  {
    OrderJoin(t);
    ShownOfOrder(t, Shown(t), id);
  }

  lemma ShownIsPriced(t: Tables, r: LineTyped, l: LineRow)
    requires ShowsLine(t, r, l)
    ensures Priced(r, l)
  {
  }

  lemma {:induction false} ShownOfOrder(t: Tables, j: seq<LineTyped>, id: int)
    requires |j| == |t.lines| && forall k :: 0 <= k < |t.lines| ==> ShowsLine(t, j[k], t.lines[k])
    ensures var rows, lines := Filter(j, TypedOfOrder(id)), Filter(t.lines, OfOrder(id));
      && |rows| == |lines|
      && forall m :: 0 <= m < |rows| ==> ShowsLine(t, rows[m], lines[m]) && Priced(rows[m], lines[m])
  {
    FilteredTogether(j, t.lines, TypedOfOrder(id), OfOrder(id));
    var rows, lines := Filter(j, TypedOfOrder(id)), Filter(t.lines, OfOrder(id));
    forall m | 0 <= m < |rows| ensures ShowsLine(t, rows[m], lines[m]) && Priced(rows[m], lines[m]) {
      assert Paired(j, t.lines, rows[m], lines[m]);
      ShownIsPriced(t, rows[m], lines[m]);
    }
  }

  function LineCost(t: Tables, id: int): LineRow -> real {
    (l: LineRow) => if l.orderId == id then l.count as real * ItemCost(t.items, l.itemId) else 0.0
  }

  lemma {:induction false} SameOrderCost(t: Tables, j: seq<Line1>, id: int)
    requires LinesBeside(t, j)
    ensures Total(j, OnlyReal(LineOfOrder(id), Cost)) == Total(t.lines, LineCost(t, id))
  {
    forall k | 0 <= k < |j| ensures OnlyReal(LineOfOrder(id), Cost)(j[k]) == LineCost(t, id)(t.lines[k]) {
      ItemCostOf(t.items, j[k].1);
    }
    TotalEqual(j, t.lines, OnlyReal(LineOfOrder(id), Cost), LineCost(t, id));
  }

  /** What an order costs: its lines' numbers times the prices of their items. */
  lemma {:induction false} OrderTotalInColumns(t: Tables, id: int)
    requires Consistent(t)
    ensures Total(GetOrderItems(t, id), TypedCost) == Total(t.lines, LineCost(t, id))
  {
    OrderItemsAsSum(t, id);
    LinesJoined(t);
    SameOrderCost(t, Join(t.lines, t.items, SameItem), id);
  }

  // ------------------------------------------------------------ completed orders

  function ListedOrder(r: (OrderRow, CustomerRow)): int { r.0.id }

  /** GetCompletedOrders lists the orders completed in the window, once each and beside their
      customers. */
  lemma {:induction false} CompletedOrdersInColumns(t: Tables, start: int, end: int)
    requires Consistent(t)
    ensures Distinct(GetCompletedOrders(t, start, end), ListedOrder)
    ensures forall o, c :: (o, c) in GetCompletedOrders(t, start, end) <==>
      && o in t.orders && c in t.customers && o.customerTel == c.telephone
      && o.completion.Some? && start <= o.completion.value <= end
  {
    var j := Join(t.orders, t.customers, CustomerOfOrder);
    JoinAlongKey(t.orders, t.customers, CustomerOfOrder, OrderCustomer, Telephone);
    forall a, b | 0 <= a < b < |j| ensures ListedOrder(j[a]) != ListedOrder(j[b]) {
      assert OrderId(t.orders[a]) != OrderId(t.orders[b]);
    }
    DistinctFilter(j, ListedOrder, CompletedIn(start, end));
  }
}
