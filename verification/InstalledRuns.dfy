/** Requests and reports on the installed database, with their outcomes in figures. */
module InstalledRuns {
  import opened Prelude
  import opened Schema
  import opened Integrity
  import opened Procedures
  import opened StockLedger
  import opened Reports
  import opened ReportColumns
  import opened Seed
  import opened LuaMeaning
  import opened UserRequests
  import Requests = ClientRequests
  import AdminRuns
  import Witnesses

  // --------------------------------------------------------------- restocking

  lemma RestockedItems(t: Tables, now: int)
    requires t.items == ITEMS
    ensures var (t', reply) := Handle(t, now, AddItemCountRequest(1, 10));
      reply == Success && |t'.items| == 3 && t'.items[0] == ITEMS[0].(count := 199)
      && t'.items[1] == ITEMS[1] && t'.items[2] == ITEMS[2]
  {
    AddItemCountExactly(t, now, 1, 10);
    assert ITEMS[0].id == 1 && ITEMS[0].count == 189 && ITEMS[1].id == 2 && ITEMS[2].id == 3;
  }

  /** Ten more of item 1: 199 of it afterwards, the other two as before. */
  lemma Restocked(now: int, expire: int)
    ensures var (t', reply) := Handle(Seeded(now, expire), now, AddItemCountRequest(1, 10));
      reply == Success && |t'.items| == 3 && t'.items[0] == ITEMS[0].(count := 199)
      && t'.items[1] == ITEMS[1] && t'.items[2] == ITEMS[2]
  {
    RestockedItems(Seeded(now, expire), now);
  }

  // ----------------------------------------------------------------- deleting

  /** Deleting customer 123: two customers stay, and no order and no line. */
  lemma CustomerGone(now: int, expire: int)
    ensures var (t', reply) := Handle(Seeded(now, expire), now, DeleteCustomerRequest(123));
      && reply == Success && t'.orders == [] && t'.lines == []
      && forall c :: c in t'.customers <==> c == CUSTOMERS[1] || c == CUSTOMERS[2]
  {
    var s := Seeded(now, expire);
    SeededConsistent(now, expire);
    AllGone(s, now);
  }

  lemma NoRows<T(!new)>(xs: seq<T>)
    requires forall x :: x !in xs
    ensures xs == []
  {
    var p := (x: T) => true;
    FilterAll(xs, p);
    FilterNone(xs, p);
  }

  lemma AllGone(s: Tables, now: int)
    requires Consistent(s) && s.customers == CUSTOMERS && forall o :: o in s.orders ==> o.customerTel == 123
    ensures var (t', reply) := Handle(s, now, DeleteCustomerRequest(123));
      && reply == Success && t'.orders == [] && t'.lines == []
      && forall c :: c in t'.customers <==> c == CUSTOMERS[1] || c == CUSTOMERS[2]
  {
    DeleteCustomerExactly(s, now, 123);
    var t' := Handle(s, now, DeleteCustomerRequest(123)).0;
    NoRows(t'.orders);
    NoRows(t'.lines);
    assert CUSTOMERS[0].telephone == 123 && CUSTOMERS[1].telephone == 456 && CUSTOMERS[2].telephone == 789;
    forall c ensures c in CUSTOMERS <==> c == CUSTOMERS[0] || c == CUSTOMERS[1] || c == CUSTOMERS[2] {
    }
  }

  // ------------------------------------------------------------------ reports

  /** The installed lines with their order, and only that, completed on `day`. */
  ghost predicate SoldOn(t: Tables, day: int) {
    && Consistent(t) && t.lines == LINES && t.distributors == DISTRIBUTORS
    && |t.orders| == 1 && t.orders[0].id == 1 && t.orders[0].completion == Some(day)
    && |t.items| == 3 && forall k :: 0 <= k < 3 ==> t.items[k] == ITEMS[k].(count := t.items[k].count)
  }

  lemma Prices(t: Tables, day: int)
    requires SoldOn(t, day)
    ensures ItemCost(t.items, 1) == 250.09 && ItemCost(t.items, 2) == 1058.4 && ItemCost(t.items, 3) == 135.3
  {
    assert ITEMS[0].id == 1 && ITEMS[1].id == 2 && ITEMS[2].id == 3;
    ItemCostOf(t.items, t.items[0]);
    ItemCostOf(t.items, t.items[1]);
    ItemCostOf(t.items, t.items[2]);
  }

  lemma {:induction false} TotalOfFour<T>(a: T, b: T, c: T, d: T, f: T -> real)
    ensures Total([a, b, c, d], f) == f(a) + f(b) + f(c) + f(d)
  {
    assert [a, b, c, d][1..] == [b, c, d] && [b, c, d][1..] == [c, d] && [c, d][1..] == [d] && [d][1..] == [];
    assert Total([d], f) == f(d);
    assert Total([c, d], f) == f(c) + f(d);
  }

  lemma IncomeOfLine(t: Tables, start: int, end: int, l: LineRow, cost: real, counted: bool)
    requires ItemCost(t.items, l.itemId) == cost && (CompletedWithin(t.orders, l.orderId, start, end) <==> counted)
    ensures LineIncome(t, start, end)(l) == if counted then l.count as real * cost else 0.0
  {
  }

  lemma {:induction false} IncomeTotal(t: Tables, start: int, end: int, counted: bool)
    requires ItemCost(t.items, 1) == 250.09 && ItemCost(t.items, 2) == 1058.4 && ItemCost(t.items, 3) == 135.3
    requires CompletedWithin(t.orders, 1, start, end) <==> counted
    ensures Total(LINES, LineIncome(t, start, end)) == if counted then 24308.73 else 0.0
  {
    LineItems();
    IncomeOfLine(t, start, end, LINES[0], 250.09, counted);
    IncomeOfLine(t, start, end, LINES[1], 1058.4, counted);
    IncomeOfLine(t, start, end, LINES[2], 135.3, counted);
    IncomeOfLine(t, start, end, LINES[3], 250.09, counted);
    TotalOfFour(LINES[0], LINES[1], LINES[2], LINES[3], LineIncome(t, start, end));
  }

  /** 27 * 250.09 + 7 * 1058.4 + 75 * 135.3. */
  lemma {:induction false} IncomeInFigures(t: Tables, day: int, start: int, end: int)
    requires SoldOn(t, day)
    ensures GetIncome(t, start, end) == if start <= day <= end then 24308.73 else 0.0
  {
    Prices(t, day);
    IncomeInColumns(t, start, end);
    CompletedThen(t, day, start, end);
    IncomeTotal(t, start, end, start <= day <= end);
  }

  /** What one order costs. */
  lemma OrderInFigures(t: Tables, day: int)
    requires SoldOn(t, day)
    ensures Total(GetOrderItems(t, 1), TypedCost) == 24308.73
  {
    Prices(t, day);
    OrderTotalInColumns(t, 1);
    TotalOfFour(LINES[0], LINES[1], LINES[2], LINES[3], LineCost(t, 1));
    assert LINES == [LINES[0], LINES[1], LINES[2], LINES[3]];
  }

  lemma MakersInFigures(t: Tables, day: int, k: nat, m: nat)
    requires SoldOn(t, day) && k < 3 && m < 3
    ensures MadeByName(t, k + 1, DISTRIBUTORS[m].name) <==> k == m
  {
    NamesDiffer();
    MakerFacts();
    OneMaker(t, t.items[k], DISTRIBUTORS[k], DISTRIBUTORS[m].name);
  }

  lemma OneMaker(t: Tables, i: ItemRow, d: DistributorRow, name: string)
    requires Distinct(t.items, ItemId) && Distinct(t.distributors, DistributorId)
    requires i in t.items && d in t.distributors && i.distributorId == d.id
    ensures MadeByName(t, i.id, name) <==> d.name == name
  {
    forall j | j in t.items && j.id == i.id ensures j == i { DistinctSame(t.items, ItemId, j, i); }
    forall e | e in t.distributors && e.id == d.id ensures e == d {
      DistinctSame(t.distributors, DistributorId, e, d);
    }
  }

  lemma MakerFacts()
    ensures forall k :: 0 <= k < 3 ==>
      ITEMS[k].id == k + 1 && ITEMS[k].distributorId == k + 1 && DISTRIBUTORS[k].id == k + 1
  {
  }

  lemma NamesDiffer()
    ensures DISTRIBUTORS[0].name != DISTRIBUTORS[1].name && DISTRIBUTORS[0].name != DISTRIBUTORS[2].name
    ensures DISTRIBUTORS[1].name != DISTRIBUTORS[2].name
  {
    assert |DISTRIBUTORS[0].name| == 3 && |DISTRIBUTORS[1].name| == 6 && |DISTRIBUTORS[2].name| == 2;
  }

  lemma {:induction false} LineSoldBy(t: Tables, day: int, start: int, end: int, m: nat, l: LineRow, k: nat)
    requires SoldOn(t, day) && start <= day <= end && m < 3 && k < 3 && l.orderId == 1 && l.itemId == k + 1
    ensures SoldBy(t, l, DISTRIBUTORS[m].name, start, end) <==> k == m
  {
    MakersInFigures(t, day, k, m);
    CompletedThen(t, day, start, end);
  }

  lemma CompletedThen(t: Tables, day: int, start: int, end: int)
    requires |t.orders| == 1 && t.orders[0].id == 1 && t.orders[0].completion == Some(day)
    ensures CompletedWithin(t.orders, 1, start, end) <==> start <= day <= end
  {
    assert t.orders[0] in t.orders;
  }

  lemma LineValues(t: Tables, name: string, start: int, end: int, l: LineRow, item: int, sold: bool)
    requires l.itemId == item && (SoldBy(t, l, name, start, end) <==> sold)
    ensures LineSales(t, name, start, end)(l) == if sold then l.count as real * ItemCost(t.items, item) else 0.0
    ensures ReportColumns.LineSold(t, name, start, end)(l) == if sold then l.count else 0
  {
  }

  lemma LineItems()
    ensures LINES[0].itemId == 1 && LINES[1].itemId == 2 && LINES[2].itemId == 3 && LINES[3].itemId == 1
    ensures LINES[0].count == 18 && LINES[1].count == 7 && LINES[2].count == 75 && LINES[3].count == 9
    ensures LINES == [LINES[0], LINES[1], LINES[2], LINES[3]]
    ensures forall k :: 0 <= k < 4 ==> LINES[k].orderId == 1
  {
  }

  lemma {:induction false} SalesTotal(t: Tables, day: int, start: int, end: int, m: nat)
    requires SoldOn(t, day) && start <= day <= end && m < 3
    ensures Total(LINES, LineSales(t, DISTRIBUTORS[m].name, start, end)) ==
      if m == 0 then 6752.43 else if m == 1 then 7408.8 else 10147.5
  {
    LineItems();
    Prices(t, day);
    LineSoldBy(t, day, start, end, m, LINES[0], 0);
    LineValues(t, DISTRIBUTORS[m].name, start, end, LINES[0], 1, m == 0);
    LineSoldBy(t, day, start, end, m, LINES[1], 1);
    LineValues(t, DISTRIBUTORS[m].name, start, end, LINES[1], 2, m == 1);
    LineSoldBy(t, day, start, end, m, LINES[2], 2);
    LineValues(t, DISTRIBUTORS[m].name, start, end, LINES[2], 3, m == 2);
    LineSoldBy(t, day, start, end, m, LINES[3], 0);
    LineValues(t, DISTRIBUTORS[m].name, start, end, LINES[3], 1, m == 0);
    TotalOfFour(LINES[0], LINES[1], LINES[2], LINES[3], LineSales(t, DISTRIBUTORS[m].name, start, end));
  }

  lemma {:induction false} SalesNumber(t: Tables, day: int, start: int, end: int, m: nat)
    requires SoldOn(t, day) && start <= day <= end && m < 3
    ensures Sum(LINES, ReportColumns.LineSold(t, DISTRIBUTORS[m].name, start, end)) ==
      if m == 0 then 27 else if m == 1 then 7 else 75
  {
    LineItems();
    LineSoldBy(t, day, start, end, m, LINES[0], 0);
    LineValues(t, DISTRIBUTORS[m].name, start, end, LINES[0], 1, m == 0);
    LineSoldBy(t, day, start, end, m, LINES[1], 1);
    LineValues(t, DISTRIBUTORS[m].name, start, end, LINES[1], 2, m == 1);
    LineSoldBy(t, day, start, end, m, LINES[2], 2);
    LineValues(t, DISTRIBUTORS[m].name, start, end, LINES[2], 3, m == 2);
    LineSoldBy(t, day, start, end, m, LINES[3], 0);
    LineValues(t, DISTRIBUTORS[m].name, start, end, LINES[3], 1, m == 0);
    Witnesses.SumOfFour(LINES[0], LINES[1], LINES[2], LINES[3],
      ReportColumns.LineSold(t, DISTRIBUTORS[m].name, start, end));
  }

  /** The statistics row of one of the three makers. */
  lemma {:induction false} SellsInFigures(t: Tables, day: int, start: int, end: int, m: nat, g: SellsRow)
    requires SoldOn(t, day) && start <= day <= end && m < 3
    requires g in GetSells(t, start, end) && g.distributor == DISTRIBUTORS[m].name
    ensures g.commonCost == (if m == 0 then 6752.43 else if m == 1 then 7408.8 else 10147.5)
    ensures g.commonCount == if m == 0 then 27 else if m == 1 then 7 else 75
  {
    SellsInColumns(t, start, end);
    SalesTotal(t, day, start, end, m);
    SalesNumber(t, day, start, end, m);
  }

  /** And each of the three has a row. */
  lemma {:induction false} SellsNamed(t: Tables, day: int, start: int, end: int, m: nat)
    requires SoldOn(t, day) && start <= day <= end && m < 3
    ensures HasKey(GetSells(t, start, end), SellsName, DISTRIBUTORS[m].name)
  {
    LineItems();
    LineSoldBy(t, day, start, end, m, LINES[m], m);
    NameListed(t, start, end, LINES[m], DISTRIBUTORS[m].name);
  }

  lemma {:induction false} NameListed(t: Tables, start: int, end: int, l: LineRow, name: string)
    requires Consistent(t) && l in t.lines && SoldBy(t, l, name, start, end)
    ensures HasKey(GetSells(t, start, end), SellsName, name)
  {
    SellsInColumns(t, start, end);
  }

  /** Completing the installed order takes 27, 7 and 75 from the stock; from then on the
      reports show it on that day. */
  lemma {:induction false} CompletedInFigures(now: int, expire: int, noon: int)
    ensures var (t', reply) := Handle(Seeded(now, expire), noon, CompleteOrderRequest(1, Witnesses.ALL_PICK));
      && reply == Success && SoldOn(t', DateOf(noon))
      && t'.items[0].count == 162 && t'.items[1].count == 46 && t'.items[2].count == 381
  {
    Witnesses.SeededOrder(now, expire);
    OrderSold(Seeded(now, expire), expire, noon);
  }

  lemma {:induction false} OrderSold(t: Tables, expire: int, noon: int)
    requires Witnesses.OneOrder(t, expire) && t.distributors == DISTRIBUTORS
    ensures var (t', reply) := Handle(t, noon, CompleteOrderRequest(1, Witnesses.ALL_PICK));
      && reply == Success && SoldOn(t', DateOf(noon))
      && t'.items[0].count == 162 && t'.items[1].count == 46 && t'.items[2].count == 381
  {
    var t' := Handle(t, noon, CompleteOrderRequest(1, Witnesses.ALL_PICK)).0;
    OrderCompletes(t, expire, noon);
    InstalledChargesAll(t, expire);
    NowSold(t, t', DateOf(noon));
  }

  lemma {:induction false} NowSold(t: Tables, t': Tables, day: int)
    requires JustCompleted(t, t', 1, Witnesses.ALL_PICK, day) && Consistent(t')
    requires t.lines == LINES && t.items == ITEMS && t.distributors == DISTRIBUTORS
    requires |t.orders| == 1 && t.orders[0].id == 1
    requires Charge(t, 1, 1) == 27 && Charge(t, 1, 2) == 7 && Charge(t, 1, 3) == 75
    ensures SoldOn(t', day)
    ensures t'.items[0].count == 162 && t'.items[1].count == 46 && t'.items[2].count == 381
  {
    CountsLowered(t, t', day);
    DayWritten(t, t', day);
  }

  lemma {:induction false} OrderCompletes(t: Tables, expire: int, noon: int)
    requires Witnesses.OneOrder(t, expire)
    ensures var (t', reply) := Handle(t, noon, CompleteOrderRequest(1, Witnesses.ALL_PICK));
      reply == Success && Consistent(t') && JustCompleted(t, t', 1, Witnesses.ALL_PICK, DateOf(noon))
  {
    Witnesses.InstalledBearable(t, expire);
    Witnesses.OpenIsNotCompleted(t, t.orders[0]);
    CompleteOrderExactly(t, noon, 1, Witnesses.ALL_PICK);
    HandleKeepsConsistent(t, noon, CompleteOrderRequest(1, Witnesses.ALL_PICK));
  }

  lemma {:induction false} DayWritten(t: Tables, t': Tables, day: int)
    requires JustCompleted(t, t', 1, Witnesses.ALL_PICK, day) && |t.orders| == 1 && t.orders[0].id == 1
    ensures |t'.orders| == 1 && t'.orders[0].id == 1 && t'.orders[0].completion == Some(day)
    ensures t'.lines == t.lines && t'.distributors == t.distributors
  {
  }

  lemma AllRepresent()
    ensures Represents(Witnesses.ALL_PICK, ITEMS[0]) && Represents(Witnesses.ALL_PICK, ITEMS[1])
    ensures Represents(Witnesses.ALL_PICK, ITEMS[2])
    ensures ITEMS[0].count == 189 && ITEMS[1].count == 53 && ITEMS[2].count == 456
  {
    assert ITEMS[0].id == 1 && ITEMS[1].id == 2 && ITEMS[2].id == 3;
    assert ITEMS[0].distributorId == 1 && ITEMS[1].distributorId == 2 && ITEMS[2].distributorId == 3;
  }

  lemma {:induction false} ItemAfter(t: Tables, t': Tables, id: int, pick: map<int, int>, day: int, k: nat, c: int)
    requires JustCompleted(t, t', id, pick, day) && k < |t.items|
    requires Represents(pick, t.items[k]) && Charge(t, id, t.items[k].distributorId) == c
    ensures |t'.items| == |t.items| && t'.items[k] == t.items[k].(count := t.items[k].count - c)
  {
  }

  lemma {:induction false} CountsLowered(t: Tables, t': Tables, day: int)
    requires t.items == ITEMS && JustCompleted(t, t', 1, Witnesses.ALL_PICK, day)
    requires Charge(t, 1, 1) == 27 && Charge(t, 1, 2) == 7 && Charge(t, 1, 3) == 75
    ensures |t'.items| == 3 && t'.items[0] == ITEMS[0].(count := 162)
    ensures t'.items[1] == ITEMS[1].(count := 46) && t'.items[2] == ITEMS[2].(count := 381)
  {
    AllRepresent();
    MakerFacts();
    ItemAfter(t, t', 1, Witnesses.ALL_PICK, day, 0, 27);
    ItemAfter(t, t', 1, Witnesses.ALL_PICK, day, 1, 7);
    ItemAfter(t, t', 1, Witnesses.ALL_PICK, day, 2, 75);
  }

  lemma InstalledChargesAll(t: Tables, expire: int)
    requires Witnesses.OneOrder(t, expire)
    ensures Charge(t, 1, 1) == 27 && Charge(t, 1, 2) == 7 && Charge(t, 1, 3) == 75
  {
    Witnesses.InstalledRows(t, expire);
    Witnesses.InstalledCharges(t, 1);
    Witnesses.InstalledCharges(t, 2);
    Witnesses.InstalledCharges(t, 3);
  }

  // ------------------------------------------------------------ a new user

  const BOB: Requests.NewUser := Requests.NewUser("bob", ADMIN_HASH, "sname", "name", "pname", 2)

  lemma BobReads()
    ensures Requests.RawUser(BOB) && Requests.UserReadable(BOB)
    ensures Requests.AsRead("bob") == "bob" && Requests.AsRead(ADMIN_HASH) == ADMIN_HASH
    ensures Requests.AsRead("sname") == "sname" && Requests.AsRead("name") == "name"
    ensures Requests.AsRead("pname") == "pname"
  {
    Witnesses.AdminHash();
    AdminRuns.HashIsGood(ADMIN_HASH);
    Requests.GoodTextReads(ADMIN_HASH);
    assert Requests.GoodText("bob") && Requests.GoodText("sname");
    assert Requests.GoodText("name") && Requests.GoodText("pname");
    Requests.GoodTextReads("bob");
    Requests.GoodTextReads("sname");
    Requests.GoodTextReads("name");
    Requests.GoodTextReads("pname");
  }

  lemma BobIsNew(s: Tables, len: Length)
    requires Lawful(len) && CheckUserExists(s, "amogus", ADMIN_HASH, "Admin")
    requires (forall v :: v in s.users ==> v.login != "bob") && RANKS[1] in s.ranks && Distinct(s.ranks, RankId)
    ensures var (t', success) := Performed(s, Served(s, Requests.CreateUser(Witnesses.ADMIN, BOB), len));
      && success && t'.users == s.users + [UserRow("bob", ADMIN_HASH, "sname", "name", "pname", 2)]
      && CheckUserExists(t', "bob", ADMIN_HASH, "Employee")
      && (forall password :: password != ADMIN_HASH ==> !CheckUserExists(t', "bob", password, "Employee"))
  {
    BobReads();
    Witnesses.AdminUsable();
    SentByExactly(s, Witnesses.ADMIN, ["Admin"]);
    assert RANKS[1].id == 2 && RANKS[1].name == "Employee";
    UserStored(s, Witnesses.ADMIN, BOB, len);
    UserLogsIn(s, Witnesses.ADMIN, BOB, ADMIN_HASH, "Employee", len);
    forall password | password != ADMIN_HASH
      ensures !CheckUserExists(Performed(s, Served(s, Requests.CreateUser(Witnesses.ADMIN, BOB), len)).0, "bob",
                password, "Employee")
    {
      UserLogsIn(s, Witnesses.ADMIN, BOB, password, "Employee", len);
    }
  }
  /** An administrator creates Bob on the installed database: Bob's row comes last and holds
      the 64 digits, and Bob is let in with them as an employee and with nothing else. */
  lemma BobCreated(now: int, expire: int, len: Length)
    requires Lawful(len)
    ensures var s := Seeded(now, expire);
      var (t', success) := Performed(s, Served(s, Requests.CreateUser(Witnesses.ADMIN, BOB), len));
      && success && |ADMIN_HASH| == 64
      && t'.users == s.users + [UserRow("bob", ADMIN_HASH, "sname", "name", "pname", 2)]
      && CheckUserExists(t', "bob", ADMIN_HASH, "Employee")
      && (forall password :: password != ADMIN_HASH ==> !CheckUserExists(t', "bob", password, "Employee"))
  {
    Witnesses.AdminHash();
    NoneIsBob(ADMIN_HASH, EMPLOYEE_HASH, ACCOUNTANT_HASH);
    NumberedKeys();
    Witnesses.AdminAdmitted(now, expire);
    BobIsNew(Seeded(now, expire), len);
  }

  lemma NoneIsBob(a: string, e: string, c: string)
    ensures forall u :: u in Users(a, e, c) ==> u.login != "bob"
  {
    assert |"bob"| == 3 && |"amogus"| == 6 && |"abobus"| == 6 && |"amongaust"| == 9;
  }

  /** Midnight at the start of 15 November 2023 is 19676 days after the first. */
  lemma DayInFigures()
    ensures DateOf(1700006400) == 19676 && DateOf(1700006399) == 19675
  {
  }
}
