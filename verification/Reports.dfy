/** The report queries. Differently joined queries agree, because the keys and
    foreign keys make every join neither drop nor duplicate rows. */
module Reports {
  import opened Prelude
  import opened Schema

  type Line1 = (LineRow, ItemRow)
  type LineOrdered = (Line1, OrderRow)
  type LineMade = (Line1, DistributorRow)
  type LineSold = (LineMade, OrderRow)
  type LineTyped = (LineMade, TypeRow)

  predicate OrderOfLine(r: Line1, o: OrderRow) { r.0.orderId == o.id }
  predicate MakerOfItem(r: Line1, d: DistributorRow) { r.1.distributorId == d.id }
  predicate OrderOfMade(r: LineMade, o: OrderRow) { r.0.0.orderId == o.id }
  predicate TypeOfItem(r: LineMade, y: TypeRow) { r.0.1.typeId == y.id }
  predicate CustomerOfOrder(o: OrderRow, c: CustomerRow) { o.customerTel == c.telephone }

  function LineOrderId(r: Line1): int { r.0.orderId }
  function LineMaker(r: Line1): int { r.1.distributorId }
  function MadeOrderId(r: LineMade): int { r.0.0.orderId }
  function MadeType(r: LineMade): int { r.0.1.typeId }
  function OrderCustomer(o: OrderRow): int { o.customerTel }

  predicate InWindow(o: OrderRow, start: int, end: int) {
    o.completion.Some? && start <= o.completion.value <= end
  }

  function Cost(r: Line1): real { r.0.count as real * r.1.cost }
  function OrderedCost(r: LineOrdered): real { Cost(r.0) }
  function SoldCost(r: LineSold): real { Cost(r.0.0) }
  function SoldCount(r: LineSold): int { r.0.0.0.count }
  function TypedCost(r: LineTyped): real { Cost(r.0.0) }

  // -------------------------------------------------------------- queries

  function OrderedIn(start: int, end: int): LineOrdered -> bool { (r: LineOrdered) => InWindow(r.1, start, end) }

  function GetIncome(t: Tables, start: int, end: int): real {
    Total(Filter(Join(Join(t.lines, t.items, SameItem), t.orders, OrderOfLine), OrderedIn(start, end)), OrderedCost)
  }

  function SoldIn(start: int, end: int): LineSold -> bool { (r: LineSold) => InWindow(r.1, start, end) }
  function MadeBy(name: string): LineSold -> bool { (r: LineSold) => r.0.1.name == name }
  function NotMadeBy(name: string): LineSold -> bool { (r: LineSold) => r.0.1.name != name }

  datatype SellsRow = SellsRow(commonCost: real, commonCount: int, distributor: string)

  function SellsName(g: SellsRow): string { g.distributor }
  function SellsCost(g: SellsRow): real { g.commonCost }

  /** GROUP BY Distributor.name. */
  function GroupByName(rows: seq<LineSold>): seq<SellsRow>
    decreases |rows|
  {
    if rows == [] then [] else
      var name := rows[0].0.1.name;
      var mine := Filter(rows, MadeBy(name));
      var others := Filter(rows[1..], NotMadeBy(name));
      FilterShrinks(rows[1..], NotMadeBy(name));
      [SellsRow(Total(mine, SoldCost), Sum(mine, SoldCount), name)] + GroupByName(others)
  }

  function GetSells(t: Tables, start: int, end: int): seq<SellsRow> {
    GroupByName(Filter(
      Join(Join(Join(t.lines, t.items, SameItem), t.distributors, MakerOfItem), t.orders, OrderOfMade),
      SoldIn(start, end)))
  }

  function CompletedIn(start: int, end: int): ((OrderRow, CustomerRow)) -> bool {
    (r: (OrderRow, CustomerRow)) => InWindow(r.0, start, end)
  }

  function GetCompletedOrders(t: Tables, start: int, end: int): seq<(OrderRow, CustomerRow)> {
    Filter(Join(t.orders, t.customers, CustomerOfOrder), CompletedIn(start, end))
  }

  function TypedOfOrder(id: int): LineTyped -> bool { (r: LineTyped) => r.0.0.0.orderId == id }

  function GetOrderItems(t: Tables, id: int): seq<LineTyped> {
    var j := Join(Join(Join(t.lines, t.items, SameItem), t.distributors, MakerOfItem), t.types, TypeOfItem);
    Filter(j, TypedOfOrder(id))
  }

  /** The common_cost column of GetOrderItems added up, for one listed order. */
  function OrderTotal(t: Tables): ((OrderRow, CustomerRow)) -> real {
    (r: (OrderRow, CustomerRow)) => Total(GetOrderItems(t, r.0.id), TypedCost)
  }

  // --------------------------------------------------------- what GROUP BY is

  lemma {:induction false} SplitByName(rows: seq<LineSold>, name: string)
    ensures Total(rows, SoldCost)
         == Total(Filter(rows, MadeBy(name)), SoldCost) + Total(Filter(rows, NotMadeBy(name)), SoldCost)
  {
    if rows != [] {
      SplitByName(rows[1..], name);
    }
  }

  lemma {:induction false} NamedSurvive(rows: seq<LineSold>, name: string, gone: string)
    requires name != gone
    ensures Filter(Filter(rows, NotMadeBy(gone)), MadeBy(name)) == Filter(rows, MadeBy(name))
  {
    if rows != [] {
      NamedSurvive(rows[1..], name, gone);
    }
  }

  ghost predicate IsGroupOf(g: SellsRow, rows: seq<LineSold>) {
    && g.commonCost == Total(Filter(rows, MadeBy(g.distributor)), SoldCost)
    && g.commonCount == Sum(Filter(rows, MadeBy(g.distributor)), SoldCount)
  }

  /** Grouping gives rows for the distributor names that occur, and for no others. */
  lemma {:induction false} GroupNames(rows: seq<LineSold>, name: string)
    ensures HasKey(GroupByName(rows), SellsName, name) <==> exists r :: r in rows && r.0.1.name == name
    decreases |rows|
  {
    if rows != [] {
      var first := rows[0].0.1.name;
      var others := Filter(rows[1..], NotMadeBy(first));
      var all := GroupByName(rows);
      FilterShrinks(rows[1..], NotMadeBy(first));
      GroupNames(others, name);
      assert all[0] in all && rows[0] in rows;
      if r :| r in rows && r.0.1.name == name && name != first {
        assert r in others;
      }
      assert forall g :: g in all <==> g == all[0] || g in GroupByName(others);
    }
  }

  /** There is one row per name, holding the sums of exactly the lines with that name. */
  lemma {:induction false} GroupsAreSums(rows: seq<LineSold>)
    ensures Distinct(GroupByName(rows), SellsName)
    ensures forall g :: g in GroupByName(rows) ==> IsGroupOf(g, rows)
    decreases |rows|
  {
    if rows != [] {
      var name := rows[0].0.1.name;
      var others := Filter(rows[1..], NotMadeBy(name));
      var rest := GroupByName(others);
      var all := GroupByName(rows);
      FilterShrinks(rows[1..], NotMadeBy(name));
      GroupsAreSums(others);
      GroupNames(others, name);
      assert all[1..] == rest;
      forall i, j | 0 <= i < j < |all| ensures SellsName(all[i]) != SellsName(all[j]) {
        assert all[j] == rest[j - 1] && rest[j - 1] in rest;
        if i > 0 { assert all[i] == rest[i - 1]; }
      }
      forall g | g in rest ensures IsGroupOf(g, rows) {
        GroupSurvives(rows, g);
      }
    }
  }

  lemma GroupSurvives(rows: seq<LineSold>, g: SellsRow)
    requires rows != [] && g.distributor != rows[0].0.1.name
    requires IsGroupOf(g, Filter(rows[1..], NotMadeBy(rows[0].0.1.name)))
    ensures IsGroupOf(g, rows)
  {
    NamedSurvive(rows[1..], g.distributor, rows[0].0.1.name);
  }

  lemma {:induction false} GroupTotals(rows: seq<LineSold>)
    ensures Total(GroupByName(rows), SellsCost) == Total(rows, SoldCost)
    decreases |rows|
  {
    if rows != [] {
      var name := rows[0].0.1.name;
      SplitByName(rows, name);
      FilterShrinks(rows[1..], NotMadeBy(name));
      GroupTotals(Filter(rows[1..], NotMadeBy(name)));
    }
  }

  // ------------------------------------------- every report is one same sum

  /** What a line contributes to the income of a window. */
  function WindowCost(orders: seq<OrderRow>, start: int, end: int): Line1 -> real {
    (r: Line1) => if exists o :: o in orders && o.id == r.0.orderId && InWindow(o, start, end) then Cost(r) else 0.0
  }

  lemma LineItemJoin(t: Tables)
    requires PrimaryKeys(t) && ForeignKeys(t)
    ensures var j := Join(t.lines, t.items, SameItem);
      |j| == |t.lines| && (forall i :: 0 <= i < |j| ==> j[i].0 == t.lines[i] && j[i].1 in t.items)
  {
    JoinAlongKey(t.lines, t.items, SameItem, LineItem, ItemId);
  }

  lemma WindowCostOf(orders: seq<OrderRow>, start: int, end: int, r: Line1, o: OrderRow)
    requires Distinct(orders, OrderId) && o in orders && o.id == r.0.orderId
    ensures WindowCost(orders, start, end)(r) == if InWindow(o, start, end) then Cost(r) else 0.0
  {
    if p :| p in orders && p.id == r.0.orderId && InWindow(p, start, end) {
      DistinctSame(orders, OrderId, p, o);
    }
  }

  lemma IncomeAsSum(t: Tables, start: int, end: int)
    requires PrimaryKeys(t) && ForeignKeys(t)
    ensures GetIncome(t, start, end) == Total(Join(t.lines, t.items, SameItem), WindowCost(t.orders, start, end))
  {
    var j1 := Join(t.lines, t.items, SameItem);
    var j2 := Join(j1, t.orders, OrderOfLine);
    LineItemJoin(t);
    JoinAlongKey(j1, t.orders, OrderOfLine, LineOrderId, OrderId);
    TotalFiltered(j2, OrderedIn(start, end), OrderedCost);
    forall i | 0 <= i < |j1|
      ensures WindowCost(t.orders, start, end)(j1[i]) == OnlyReal(OrderedIn(start, end), OrderedCost)(j2[i])
    {
      WindowCostOf(t.orders, start, end, j1[i], j2[i].1);
    }
    TotalEqual(j1, j2, WindowCost(t.orders, start, end), OnlyReal(OrderedIn(start, end), OrderedCost));
  }

  lemma SoldAsSum(t: Tables, start: int, end: int)
    requires PrimaryKeys(t) && ForeignKeys(t)
    ensures Total(GetSells(t, start, end), SellsCost)
         == Total(Join(t.lines, t.items, SameItem), WindowCost(t.orders, start, end))
  {
    var j1 := Join(t.lines, t.items, SameItem);
    var j3 := Join(j1, t.distributors, MakerOfItem);
    var j4 := Join(j3, t.orders, OrderOfMade);
    LineItemJoin(t);
    JoinAlongKey(j1, t.distributors, MakerOfItem, LineMaker, DistributorId);
    forall r | r in j3 ensures HasKey(t.orders, OrderId, MadeOrderId(r)) {
      assert r.0 in j1;
    }
    JoinAlongKey(j3, t.orders, OrderOfMade, MadeOrderId, OrderId);
    GroupTotals(Filter(j4, SoldIn(start, end)));
    TotalFiltered(j4, SoldIn(start, end), SoldCost);
    forall i | 0 <= i < |j1|
      ensures WindowCost(t.orders, start, end)(j1[i]) == OnlyReal(SoldIn(start, end), SoldCost)(j4[i])
    {
      WindowCostOf(t.orders, start, end, j1[i], j4[i].1);
    }
    TotalEqual(j1, j4, WindowCost(t.orders, start, end), OnlyReal(SoldIn(start, end), SoldCost));
  }

  /** GetIncome is the sum of the distributor statistics. */
  lemma IncomeIsSumOfSells(t: Tables, start: int, end: int)
    requires Consistent(t)
    ensures GetIncome(t, start, end) == Total(GetSells(t, start, end), SellsCost)
  {
    IncomeAsSum(t, start, end);
    SoldAsSum(t, start, end);
  }

  // ------------------------------------------------------ order by order

  function LineOfOrder(id: int): Line1 -> bool { (r: Line1) => r.0.orderId == id }

  lemma TypedJoin(t: Tables)
    requires PrimaryKeys(t) && ForeignKeys(t)
    ensures var j1 := Join(t.lines, t.items, SameItem);
      var j5 := Join(Join(j1, t.distributors, MakerOfItem), t.types, TypeOfItem);
      |j5| == |j1| && forall i :: 0 <= i < |j1| ==> j5[i].0.0 == j1[i]
  {
    var j1 := Join(t.lines, t.items, SameItem);
    var j3 := Join(j1, t.distributors, MakerOfItem);
    JoinAlongKey(j1, t.distributors, MakerOfItem, LineMaker, DistributorId);
    forall r | r in j3 ensures HasKey(t.types, TypeId, MadeType(r)) {
      assert r.0 in j1;
    }
    JoinAlongKey(j3, t.types, TypeOfItem, MadeType, TypeId);
  }

  lemma OrderItemsAsSum(t: Tables, id: int)
    requires PrimaryKeys(t) && ForeignKeys(t)
    ensures Total(GetOrderItems(t, id), TypedCost)
         == Total(Join(t.lines, t.items, SameItem), OnlyReal(LineOfOrder(id), Cost))
  {
    var j1 := Join(t.lines, t.items, SameItem);
    var j5 := Join(Join(j1, t.distributors, MakerOfItem), t.types, TypeOfItem);
    TypedJoin(t);
    TotalFiltered(j5, TypedOfOrder(id), TypedCost);
    TotalEqual(j1, j5, OnlyReal(LineOfOrder(id), Cost), OnlyReal(TypedOfOrder(id), TypedCost));
  }

  /** What the lines `j` contribute to one order, if it lies in the window. */
  function PerOrder(j: seq<Line1>, start: int, end: int): OrderRow -> real {
    (o: OrderRow) => if InWindow(o, start, end) then Total(j, OnlyReal(LineOfOrder(o.id), Cost)) else 0.0
  }

  /** Summing lines order by order is summing them once. */
  lemma {:induction false} Exchange(orders: seq<OrderRow>, j: seq<Line1>, start: int, end: int)
    requires Distinct(orders, OrderId) && forall r :: r in j ==> HasKey(orders, OrderId, LineOrderId(r))
    ensures Total(orders, PerOrder(j, start, end)) == Total(j, WindowCost(orders, start, end))
  {
    if j == [] {
      TotalZero(orders, PerOrder(j, start, end));
    } else {
      var r := j[0];
      var o :| o in orders && OrderId(o) == LineOrderId(r);
      Exchange(orders, j[1..], start, end);
      forall p | p in orders
        ensures PerOrder(j, start, end)(p) == PerOrder([r], start, end)(p) + PerOrder(j[1..], start, end)(p)
      {
        assert j == [r] + j[1..];
        TotalAppend([r], j[1..], OnlyReal(LineOfOrder(p.id), Cost));
      }
      TotalPlus(orders, PerOrder([r], start, end), PerOrder(j[1..], start, end), PerOrder(j, start, end));
      TotalAtKey(orders, OrderId, o, PerOrder([r], start, end));
      WindowCostOf(orders, start, end, r, o);
    }
  }

  /** GetIncome is also the sum, over the completed orders, of their items' costs. */
  lemma IncomeIsSumOfOrders(t: Tables, start: int, end: int)
    requires Consistent(t)
    ensures GetIncome(t, start, end) == Total(GetCompletedOrders(t, start, end), OrderTotal(t))
  {
    var j1 := Join(t.lines, t.items, SameItem);
    var k := Join(t.orders, t.customers, CustomerOfOrder);
    JoinAlongKey(t.orders, t.customers, CustomerOfOrder, OrderCustomer, Telephone);
    TotalFiltered(k, CompletedIn(start, end), OrderTotal(t));
    forall i | 0 <= i < |t.orders|
      ensures PerOrder(j1, start, end)(t.orders[i]) == OnlyReal(CompletedIn(start, end), OrderTotal(t))(k[i])
    {
      OrderItemsAsSum(t, t.orders[i].id);
    }
    TotalEqual(t.orders, k, PerOrder(j1, start, end), OnlyReal(CompletedIn(start, end), OrderTotal(t)));
    Exchange(t.orders, j1, start, end);
    IncomeAsSum(t, start, end);
  }

  /** Income is additive over adjacent windows. */
  lemma IncomeAdditive(t: Tables, start: int, middle: int, end: int)
    requires start <= middle + 1 <= end + 1
    ensures GetIncome(t, start, end) == GetIncome(t, start, middle) + GetIncome(t, middle + 1, end)
  {
    var j2 := Join(Join(t.lines, t.items, SameItem), t.orders, OrderOfLine);
    TotalFiltered(j2, OrderedIn(start, end), OrderedCost);
    TotalFiltered(j2, OrderedIn(start, middle), OrderedCost);
    TotalFiltered(j2, OrderedIn(middle + 1, end), OrderedCost);
    TotalPlus(j2, OnlyReal(OrderedIn(start, middle), OrderedCost), OnlyReal(OrderedIn(middle + 1, end), OrderedCost),
      OnlyReal(OrderedIn(start, end), OrderedCost));
  }
}
