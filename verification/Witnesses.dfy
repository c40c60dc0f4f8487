/** Inputs at which the properties that fail do fail. */
module Witnesses {
  import opened Prelude
  import opened Schema
  import opened Integrity
  import opened Procedures
  import opened StockLedger
  import opened Seed
  import opened Lateness
  import opened LuaSyntax
  import opened LuaPrinter
  import opened LuaMeaning
  import opened LuaExact
  import opened LuaRaw
  import opened Framing
  import opened QueryReply
  import opened UsersCache
  import opened UserRequests
  import opened AdminRuns
  import Requests = ClientRequests

  // ------------------------------------------------- a charge on the wrong item

  /** A second item of distributor 1, and an order for both. */
  const MORE: ItemRow := ItemRow(0, "Ryzen 7 1700", 299.0, 10, 1, 1, "8 cores")
  const MIXED: seq<RawLine> := [RawLine(Some(1), Some(2)), RawLine(Some(4), Some(3))]
  const WANTED: seq<Wanted> := [Wanted(1, 2), Wanted(4, 3)]

  /** What matters of the installed database here. */
  ghost predicate Base(t: Tables) {
    && Consistent(t) && t.nextItem == 4 && t.nextOrder == 2 && t.nextLine == 5
    && |t.lines| == 4 && (forall l :: l in t.lines ==> l.orderId == 1)
    && ITEMS[0] in t.items && DISTRIBUTORS[0] in t.distributors && TYPES[0] in t.types
    && HasKey(t.customers, Telephone, 123)
  }

  lemma SeededIsBase(now: int, expire: int)
    ensures Base(Seeded(now, expire))
  {
    SeededConsistent(now, expire);
    LineFacts();
    ReferredKeys();
  }

  function WithItem(t: Tables): Tables { t.(items := t.items + [MORE.(id := 4)], nextItem := 5) }

  function WithOrder(t: Tables, now: int): Tables {
    t.(orders := t.orders + [OrderRow(2, 123, DateOf(now), DateOf(now), None)],
       lines := t.lines + [LineRow(5, 1, 2, 2), LineRow(6, 4, 2, 3)], nextOrder := 3, nextLine := 7)
  }

  lemma ItemAdded(t: Tables, now: int)
    requires Base(t)
    ensures AddItem(t, MORE) == Done(WithItem(t)) && Consistent(WithItem(t))
  {
    assert DISTRIBUTORS[0].id == 1 && TYPES[0].id == 1;
    AddItemKeeps(t, MORE);
  }

  lemma WantedKnown(t: Tables)
    requires ITEMS[0] in t.items
    ensures NarrowAll(MIXED) == WANTED && Complete(MIXED) && KnownItems(WithItem(t), WANTED)
  {
    var items := WithItem(t).items;
    assert ITEMS[0].id == 1 && ITEMS[0] in items;
    assert items[|t.items|] == MORE.(id := 4) && MORE.(id := 4) in items;
  }

  lemma OrderAdded(t: Tables, now: int)
    requires Base(t)
    ensures PlaceOrder(WithItem(t), now, Some(123), Some(now), MIXED) == (WithOrder(WithItem(t), now), Success)
  {
    WantedKnown(t);
    AddOrderAllOrNothing(WithItem(t), now, Some(123), Some(now), MIXED);
    assert NewLines(5, 2, WANTED) == [LineRow(5, 1, 2, 2), LineRow(6, 4, 2, 3)];
  }

  lemma OrderKeeps(t: Tables, now: int)
    requires Base(t)
    ensures Consistent(WithOrder(WithItem(t), now))
  {
    ItemAdded(t, now);
    OrderAdded(t, now);
    PlaceOrderKeeps(WithItem(t), now, Some(123), Some(now), MIXED);
  }

  /** The joined rows of an order whose two lines come last. */
  lemma LastTwoRows(t: Tables, n: nat, id: int, r: (LineRow, ItemRow), s: (LineRow, ItemRow))
    requires Consistent(t) && |t.lines| == n + 2 && t.lines[n] == r.0 && t.lines[n + 1] == s.0
    requires forall k :: 0 <= k < n ==> t.lines[k].orderId != id
    requires r.1 in t.items && s.1 in t.items && r.0.itemId == r.1.id && s.0.itemId == s.1.id
    requires r.0.orderId == id && s.0.orderId == id
    ensures OrderedRows(t, id) == [r, s]
  {
    var j := Join(t.lines, t.items, SameItem);
    JoinAlongKey(t.lines, t.items, SameItem, LineItem, ItemId);
    DistinctSame(t.items, ItemId, j[n].1, r.1);
    DistinctSame(t.items, ItemId, j[n + 1].1, s.1);
    FilteredLastTwo(j, n, RowOfOrder(id));
    assert j[n] == r && j[n + 1] == s;
  }

  lemma FilteredLastTwo<T(!new)>(xs: seq<T>, n: nat, p: T -> bool)
    requires |xs| == n + 2 && p(xs[n]) && p(xs[n + 1]) && forall k :: 0 <= k < n ==> !p(xs[k])
    ensures Filter(xs, p) == [xs[n], xs[n + 1]]
  {
    var two := [xs[n], xs[n + 1]];
    assert xs == xs[..n] + two;
    FilterAppend(xs[..n], two, p);
    FilterNone(xs[..n], p);
    FilterAll(two, p);
  }

  /** The order's two rows, joined. */
  const FIRST_ROW: (LineRow, ItemRow) := (LineRow(5, 1, 2, 2), ITEMS[0])
  const SECOND_ROW: (LineRow, ItemRow) := (LineRow(6, 4, 2, 3), MORE.(id := 4))

  lemma MixedRows(t: Tables, now: int)
    requires Base(t) && Consistent(WithOrder(WithItem(t), now))
    ensures OrderedRows(WithOrder(WithItem(t), now), 2) == [FIRST_ROW, SECOND_ROW]
  {
    var t' := WithOrder(WithItem(t), now);
    assert t'.items[|t.items|] == MORE.(id := 4);
    forall k | 0 <= k < 4 ensures t'.lines[k].orderId != 2 { assert t'.lines[k] == t.lines[k]; }
    LastTwoRows(t', 4, 2, FIRST_ROW, SECOND_ROW);
  }

  const PICK: map<int, int> := map[1 := 1]

  lemma MixedCharge(t: Tables)
    requires OrderedRows(t, 2) == [FIRST_ROW, SECOND_ROW]
    ensures ValidPick(t, 2, PICK) && Charge(t, 2, 1) == 5
  {
    var rows := [FIRST_ROW, SECOND_ROW];
    assert rows[0] == FIRST_ROW && rows[1] == SECOND_ROW;
    FilterAll(rows, RowOfDistributor(1));
    SumOfTwo(FIRST_ROW, SECOND_ROW, RowCount);
  }

  lemma {:induction false} SumOfTwo<T>(a: T, b: T, f: T -> int)
    ensures Sum([a, b], f) == f(a) + f(b)
  {
    assert [a, b][1..] == [b] && [b][1..] == [];
    assert Sum([b], f) == f(b);
  }

  lemma NotExact(t: Tables)
    requires Consistent(t) && OrderedRows(t, 2) == [FIRST_ROW, SECOND_ROW] && ValidPick(t, 2, PICK)
    ensures !Exact(t, 2, PICK)
  {
    ExactForPick(t, 2, PICK);
    assert [FIRST_ROW, SECOND_ROW][1] in OrderedRows(t, 2);
  }

  lemma BothRequests(t: Tables, now: int)
    requires Base(t)
    ensures Handle(t, now, AddItemRequest(MORE)) == (WithItem(t), Success)
    ensures Handle(WithItem(t), now, AddOrderRequest(Some(123), Some(now), MIXED))
         == (WithOrder(WithItem(t), now), Success)
  {
    ItemAdded(t, now);
    OrderAdded(t, now);
    ItemHandled(t, now, MORE, WithItem(t));
    OrderHandled(WithItem(t), now, MIXED, WithOrder(WithItem(t), now));
  }

  lemma ItemHandled(t: Tables, now: int, i: ItemRow, t': Tables)
    requires AddItem(t, i) == Done(t')
    ensures Handle(t, now, AddItemRequest(i)) == (t', Success)
  {
  }

  lemma OrderHandled(t: Tables, now: int, raw: seq<RawLine>, t': Tables)
    requires PlaceOrder(t, now, Some(123), Some(now), raw) == (t', Success)
    ensures Handle(t, now, AddOrderRequest(Some(123), Some(now), raw)) == (t', Success)
  {
  }

  /** All five units go from one item, and none of the three ordered from the other. */
  ghost predicate ChargedOnOne(t: Tables) {
    && Consistent(t) && ValidPick(t, 2, PICK) && !Exact(t, 2, PICK)
    && ITEMS[0] in t.items && NewCount(t, 2, PICK, ITEMS[0]) == ITEMS[0].count - 5
    && MORE.(id := 4) in t.items && NewCount(t, 2, PICK, MORE.(id := 4)) == MORE.count
  }

  lemma BothCharged(t: Tables, now: int)
    requires Base(t)
    ensures ChargedOnOne(WithOrder(WithItem(t), now))
  {
    var t' := WithOrder(WithItem(t), now);
    OrderKeeps(t, now);
    MixedRows(t, now);
    MixedCharge(t');
    NotExact(t');
    assert t'.items[|t.items|] == MORE.(id := 4);
  }

  /** From the installed database two requests lead to an order on which the server may
      take all five units from one item, of which two were ordered. */
  lemma ChargeOnOneItem(now: int, expire: int) returns (t: Tables, t': Tables)
    ensures Handle(Seeded(now, expire), now, AddItemRequest(MORE)) == (t, Success)
    ensures Handle(t, now, AddOrderRequest(Some(123), Some(now), MIXED)) == (t', Success)
    ensures ChargedOnOne(t')
  {
    var s := Seeded(now, expire);
    SeededIsBase(now, expire);
    t, t' := WithItem(s), WithOrder(WithItem(s), now);
    BothRequests(s, now);
    BothCharged(s, now);
  }

  // --------------------------------------------------- a late order that leaves

  /** What matters of the installed order here. */
  ghost predicate OneOrder(t: Tables, expire: int) {
    && Consistent(t) && t.lines == LINES && t.items == ITEMS
    && |t.orders| == 1 && t.orders[0].id == 1 && t.orders[0].expire == expire && t.orders[0].completion.None?
  }

  lemma SeededOrder(now: int, expire: int)
    ensures OneOrder(Seeded(now, expire), expire)
  {
    SeededConsistent(now, expire);
  }

  const ALL_PICK: map<int, int> := map[1 := 1, 2 := 2, 3 := 3]

  /** The joined rows when all four lines belong to the order. */
  lemma FourRows(t: Tables, id: int, rows: seq<(LineRow, ItemRow)>)
    requires Consistent(t) && |t.lines| == 4 && |rows| == 4
    requires forall k :: 0 <= k < 4 ==>
      t.lines[k] == rows[k].0 && rows[k].1 in t.items && rows[k].0.itemId == rows[k].1.id && rows[k].0.orderId == id
    ensures OrderedRows(t, id) == rows
  {
    var j := Join(t.lines, t.items, SameItem);
    JoinAlongKey(t.lines, t.items, SameItem, LineItem, ItemId);
    forall k | 0 <= k < 4 ensures j[k] == rows[k] {
      DistinctSame(t.items, ItemId, j[k].1, rows[k].1);
    }
    FilterAll(j, RowOfOrder(id));
    assert j == rows;
  }

  const ROW_1: (LineRow, ItemRow) := (LINES[0], ITEMS[0])
  const ROW_2: (LineRow, ItemRow) := (LINES[1], ITEMS[1])
  const ROW_3: (LineRow, ItemRow) := (LINES[2], ITEMS[2])
  const ROW_4: (LineRow, ItemRow) := (LINES[3], ITEMS[0])

  lemma InstalledRows(t: Tables, expire: int)
    requires OneOrder(t, expire)
    ensures OrderedRows(t, 1) == [ROW_1, ROW_2, ROW_3, ROW_4]
  {
    FourRows(t, 1, [ROW_1, ROW_2, ROW_3, ROW_4]);
  }

  lemma {:induction false} SumOfFour<T>(a: T, b: T, c: T, d: T, f: T -> int)
    ensures Sum([a, b, c, d], f) == f(a) + f(b) + f(c) + f(d)
  {
    assert [a, b, c, d][1..] == [b, c, d] && [b, c, d][1..] == [c, d];
    SumOfTwo(c, d, f);
  }

  lemma InstalledCharges(t: Tables, d: int)
    requires OrderedRows(t, 1) == [ROW_1, ROW_2, ROW_3, ROW_4]
    ensures Charge(t, 1, d) == if d == 1 then 27 else if d == 2 then 7 else if d == 3 then 75 else 0
  {
    SumFiltered(OrderedRows(t, 1), RowOfDistributor(d), RowCount);
    SumOfFour(ROW_1, ROW_2, ROW_3, ROW_4, Only(RowOfDistributor(d), RowCount));
  }

  lemma InstalledPick(t: Tables)
    requires OrderedRows(t, 1) == [ROW_1, ROW_2, ROW_3, ROW_4]
    ensures ValidPick(t, 1, ALL_PICK)
  {
    var rows := OrderedRows(t, 1);
    assert rows[0] in rows && rows[1] in rows && rows[2] in rows;
  }

  lemma StockSuffices(i: ItemRow)
    requires i in ITEMS
    ensures 1 <= i.distributorId <= 3
    ensures (if i.distributorId == 1 then 27 else if i.distributorId == 2 then 7 else 75) <= i.count
  {
  }

  lemma InstalledBearable(t: Tables, expire: int)
    requires OneOrder(t, expire)
    ensures ValidPick(t, 1, ALL_PICK) && Bearable(t, 1, ALL_PICK)
  {
    InstalledRows(t, expire);
    InstalledPick(t);
    forall i | i in t.items && StockLedger.Represents(ALL_PICK, i)
      ensures Charge(t, 1, i.distributorId) <= i.count
    {
      StockSuffices(i);
      InstalledCharges(t, i.distributorId);
    }
  }

  /** The installed order, listed as late from midnight of its expire date on, leaves the
      list when it is completed on that day. */
  lemma LateOrderLeaves(now: int, expire: int, noon: int)
    requires DateOf(noon) == expire && noon > expire * SECONDS_PER_DAY
    ensures var t := Seeded(now, expire);
      var (t', reply) := Handle(t, noon, CompleteOrderRequest(1, ALL_PICK));
      && ValidPick(t, 1, ALL_PICK) && Lateness.Listed(t, noon, 1)
      && reply == Success && Completed(t', 1) && !Lateness.Listed(t', noon, 1)
  {
    SeededOrder(now, expire);
    LateLeaves(Seeded(now, expire), expire, noon);
  }

  lemma {:induction false} BearableCompletes(t: Tables, now: int, id: int, pick: map<int, int>)
    requires Consistent(t) && FitsInt(id) && HasKey(t.orders, OrderId, id) && Bearable(t, id, pick)
    requires !Completed(t, id)
    ensures var (t', reply) := Handle(t, now, CompleteOrderRequest(id, pick));
      && Completes(t, Event(now, CompleteOrderRequest(id, pick)))
      && reply == Success && Completed(t', id) && HasKey(t'.orders, OrderId, id)
  {
    CompleteOrderExactly(t, now, id, pick);
  }

  lemma {:induction false} LeavesWhenCompleted(t: Tables, now: int, o: OrderRow, pick: map<int, int>)
    requires Consistent(t) && o in t.orders && FitsInt(o.id) && Bearable(t, o.id, pick)
    requires o.completion.None? && now > o.expire * SECONDS_PER_DAY && DateOf(now) == o.expire
    ensures var (t', reply) := Handle(t, now, CompleteOrderRequest(o.id, pick));
      && Lateness.Listed(t, now, o.id) && reply == Success
      && Completed(t', o.id) && !Lateness.Listed(t', now, o.id)
  {
    ListedIsExpired(t, now, o);
    OpenIsNotCompleted(t, o);
    BearableCompletes(t, now, o.id, pick);
    LeavesOnlyOnExpireDate(t, now, Event(now, CompleteOrderRequest(o.id, pick)), o);
  }

  lemma OpenIsNotCompleted(t: Tables, o: OrderRow)
    requires Consistent(t) && o in t.orders && o.completion.None?
    ensures HasKey(t.orders, OrderId, o.id) && !Completed(t, o.id)
  {
    forall p | p in t.orders && p.id == o.id ensures p == o {
      DistinctSame(t.orders, OrderId, o, p);
    }
    assert OrderId(o) == o.id;
  }

  lemma {:induction false} LateLeaves(t: Tables, expire: int, noon: int)
    requires OneOrder(t, expire) && DateOf(noon) == expire && noon > expire * SECONDS_PER_DAY
    ensures var (t', reply) := Handle(t, noon, CompleteOrderRequest(1, ALL_PICK));
      && ValidPick(t, 1, ALL_PICK) && Lateness.Listed(t, noon, 1)
      && reply == Success && Completed(t', 1) && !Lateness.Listed(t', noon, 1)
  {
    InstalledBearable(t, expire);
    LeavesWhenCompleted(t, noon, t.orders[0], ALL_PICK);
  }

  // ---------------------------------------------------- numbers that do not fit

  /** A requested id one above 2 to the 32 is stored as 1, and a count of -1 as the greatest. */
  lemma NarrowedLine(now: int, expire: int)
    ensures var raw := [RawLine(Some(0x1_0000_0001), Some(-1))];
      var (t, reply) := PlaceOrder(Seeded(now, expire), now, Some(123), Some(now), raw);
      reply == Success && t.lines == LINES + [LineRow(5, 1, 2, UINT_MAX)]
  {
    var t := Seeded(now, expire);
    var raw := [RawLine(Some(0x1_0000_0001), Some(-1))];
    assert NarrowAll(raw) == [Wanted(1, UINT_MAX)];
    assert t.items[0].id == 1 && t.items[0] in t.items;
    assert Telephone(CUSTOMERS[0]) == 123;
    AddOrderAllOrNothing(t, now, Some(123), Some(now), raw);
    assert NewLines(5, 2, [Wanted(1, UINT_MAX)]) == [LineRow(5, 1, 2, UINT_MAX)];
  }

  /** A telephone of 2 to the 63, which the client's 64 unsigned bits hold, is no integer to
      the handler. */
  lemma TelephoneTooLarge(u: Requests.UserLogin, n: Requests.NewCustomer, len: Length)
    requires Lawful(len) && Requests.RawLogin(u) && Requests.LoginReadable(u)
    requires Requests.RawCustomer(n) && Requests.CustomerReadable(n) && n.telephone == 0x8000_0000_0000_0000
    ensures var chunk := Requests.ServerChunk(Requests.CreateCustomer(u, n));
      chunk.Some? && Requests.HandlerField(chunk.value, "new_customer", "telephone", len) != Some(Int(n.telephone))
  {
    Requests.CreateCustomerArrives(u, n, len);
  }

  // --------------------------------------------------- a login with backslashes

  /** Four characters, two of them backslashes, of which Lua reads one. */
  const STORED: string := "a\\\\b"
  const READ: string := "a\\b"

  lemma StoredIsRead()
    ensures QuoteFree(STORED) && Requests.Readable(STORED) && Requests.AsRead(STORED) == READ != STORED
  {
    UnescapeShrinks("b");
    assert STORED[0] != '\\' && STORED[1..] == "\\\\b" && "\\\\b"[1..] == "\\b" && "\\\\b"[2..] == "b";
    assert EscapeOf("\\b") == Some((['\\'], 1));
    assert ['\\'] + "b" == "\\b" && ['a'] + "\\b" == READ;
    assert |STORED| == 4 && |READ| == 3;
  }

  /** The reply in one block. */
  const ONE_BLOCK: seq<string> := [ResponseLine("success") + CRLF]

  lemma OneBlockArrives()
    ensures Replies("success", ONE_BLOCK) && ArrivesWhole("success", ONE_BLOCK)
  {
    var text := ResponseLine("success");
    ResponseLineIsClean("success");
    FirstCrlf(text);
    assert "" + ONE_BLOCK[0] == text + CRLF && ONE_BLOCK[1..] == [] && (text + CRLF) + "" == text + CRLF;
  }

  /** With the list in agreement an admitted administrator deletes the user with that login:
      the reply says "success" and arrives, the client drops the row, and the server keeps it. */
  lemma {:induction false} BackslashDeletes(c: Client, t: Tables, index: nat, w: Session)
    requires InStep(c, t) && Agrees(c, t) && Usable(w) && Requests.LoginReadable(w.caller)
    requires Admits(t, Requests.LoginAsRead(w.caller)) && index < |c.users| && c.users[index].login == STORED
    ensures var e := Deletes(index, "success", ONE_BLOCK);
      && Possible(c, t, e, w)
      && var (c', t') := AdminRuns.Next(c, t, e, w);
      && !Agrees(c', t') && c' == Removed(c, index) && c.users[index] in ServerUsers(t')
  {
    var e := Deletes(index, "success", ONE_BLOCK);
    StoredIsRead();
    OneBlockArrives();
    DeletionServed(t, w.caller, STORED, w.len);
    DeleteAgreesExactly(c, t, e, w);
    ResponseOutcome("success", ONE_BLOCK, w.len);
    StillListed(c, t, index);
  }

  lemma {:induction false} StillListed(c: Client, t: Tables, index: nat)
    requires InStep(c, t) && Agrees(c, t) && index < |c.users| && c.users[index].login == STORED != READ
    ensures c.users[index] in ServerUsers(DeleteUser(t, READ))
  {
    assert c.users[index] in multiset(c.users) && c.users[index] in multiset(ServerUsers(t));
    OthersStay(t, READ, c.users[index]);
  }

  const ADMIN: Requests.UserLogin := Requests.UserLogin("amogus", ADMIN_HASH, "Admin")
  const STORED_ROW: UserRow := UserRow(STORED, "", "sname", "name", "pname", 2)

  lemma StoredCreated(s: Tables, now: int)
    requires Consistent(s) && RANKS[1] in s.ranks && forall u :: u in s.users ==> u.login != STORED
    ensures Schema.CreateUser(s, STORED_ROW) == Done(s.(users := s.users + [STORED_ROW]))
    ensures Consistent(s.(users := s.users + [STORED_ROW]))
  {
    assert RANKS[1].id == STORED_ROW.rank;
    CreateUserKeeps(s, STORED_ROW);
  }

  lemma AdmittedStill(s: Tables, u: Requests.UserLogin, row: UserRow)
    requires Admits(s, u)
    ensures Admits(s.(users := s.users + [row]), u)
  {
    var t := s.(users := s.users + [row]);
    CheckUserExactly(s, u.login, u.password, u.rank);
    CheckUserExactly(t, u.login, u.password, u.rank);
    var v, r :| v in s.users && r in s.ranks
      && v.login == u.login && v.password == u.password && v.rank == r.id && r.name == u.rank;
    assert v in t.users && r in t.ranks;
  }

  lemma AdminAdmitted(now: int, expire: int)
    ensures Admits(Seeded(now, expire), ADMIN)
  {
    var s := Seeded(now, expire);
    assert s.users[0] in s.users && s.users[0].login == "amogus" && s.users[0].password == ADMIN_HASH;
    assert RANKS[0] in s.ranks && RANKS[0].name == "Admin" && s.users[0].rank == RANKS[0].id;
    CheckUserExactly(s, "amogus", ADMIN_HASH, "Admin");
  }

  lemma NoneIsStored(a: string, e: string, c: string)
    ensures forall u :: u in Users(a, e, c) ==> u.login != STORED
  {
    assert |STORED| == 4;
  }

  /** The list a client has right after a refresh that got through. */
  function Refreshed(t: Tables, ranks: map<string, int>): Client {
    Client(ServerUsers(t), |ServerUsers(t)|, ranks)
  }

  lemma StoredShown(t: Tables, ranks: map<string, int>, i: nat)
    requires Consistent(t) && RanksAgree(ranks, t) && (forall name :: name in ranks ==> FitsInt(ranks[name]))
    requires i < |t.users| && t.users[i] == STORED_ROW
    ensures InStep(Refreshed(t, ranks), t) && Agrees(Refreshed(t, ranks), t)
    ensures i < |ServerUsers(t)| && ServerUsers(t)[i].login == STORED
  {
    ServerUsersByRow(t);
  }

  const PANEL: map<string, int> := map["Admin" := 1, "Employee" := 2, "Accountant" := 3]

  /** What matters of the installed users here. */
  ghost predicate Installed(s: Tables) {
    && Consistent(s) && RanksAgree(PANEL, s) && Admits(s, ADMIN) && RANKS[1] in s.ranks
    && |s.users| == 3 && forall u :: u in s.users ==> u.login != STORED
  }

  lemma SeededInstalled(now: int, expire: int)
    ensures Installed(Seeded(now, expire))
  {
    SeededConsistent(now, expire);
    NoneIsStored(ADMIN_HASH, EMPLOYEE_HASH, ACCOUNTANT_HASH);
    AdminAdmitted(now, expire);
    PanelRanksAgree(now, expire);
  }

  lemma StoredListed(s: Tables, t: Tables)
    requires Installed(s) && t == s.(users := s.users + [STORED_ROW])
    ensures Schema.CreateUser(s, STORED_ROW) == Done(t) && Admits(t, ADMIN)
    ensures var c := Refreshed(t, PANEL);
      InStep(c, t) && Agrees(c, t) && 3 < |c.users| && c.users[3].login == STORED
  {
    StoredCreated(s, 0);
    AdmittedStill(s, ADMIN, STORED_ROW);
    StoredShown(t, PANEL, 3);
  }

  /** Such a list and table exist: the installed users and one more, just refreshed. */
  lemma BackslashListed(now: int, expire: int) returns (t: Tables)
    ensures Schema.CreateUser(Seeded(now, expire), STORED_ROW) == Done(t) && Admits(t, ADMIN)
    ensures var c := Refreshed(t, PANEL);
      InStep(c, t) && Agrees(c, t) && 3 < |c.users| && c.users[3].login == STORED
  {
    var s := Seeded(now, expire);
    SeededInstalled(now, expire);
    t := s.(users := s.users + [STORED_ROW]);
    StoredListed(s, t);
  }

  predicate HexDigit(c: char) { '0' <= c <= '9' || 'a' <= c <= 'f' }

  lemma FirstHalf()
    ensures |HASH_1| == 16 && |HASH_2| == 16
    ensures (forall c :: c in HASH_1 ==> HexDigit(c)) && (forall c :: c in HASH_2 ==> HexDigit(c))
  {
  }

  lemma SecondHalf()
    ensures |HASH_3| == 16 && |HASH_4| == 16
    ensures (forall c :: c in HASH_3 ==> HexDigit(c)) && (forall c :: c in HASH_4 ==> HexDigit(c))
  {
  }

  lemma FourParts(a: string, b: string, c: string, d: string)
    requires |a| == 16 && |b| == 16 && |c| == 16 && |d| == 16
    requires forall x :: x in a || x in b || x in c || x in d ==> HexDigit(x)
    ensures IsHash(a + b + c + d)
  {
    var s := a + b + c + d;
    forall i | 0 <= i < 64 ensures HexDigit(s[i]) {
      assert s[i] in a || s[i] in b || s[i] in c || s[i] in d;
    }
  }

  lemma AdminHash()
    ensures IsHash(ADMIN_HASH)
  {
    FirstHalf();
    SecondHalf();
    FourParts(HASH_1, HASH_2, HASH_3, HASH_4);
  }

  lemma AdminUsable()
    ensures Requests.RawLogin(ADMIN) && Requests.LoginReadable(ADMIN) && Requests.LoginAsRead(ADMIN) == ADMIN
  {
    AdminHash();
    HashIsGood(ADMIN_HASH);
    Requests.GoodTextReads(ADMIN_HASH);
    assert Requests.GoodText("amogus") && Requests.GoodText("Admin");
    Requests.GoodTextReads("amogus");
    Requests.GoodTextReads("Admin");
  }

  /** So from the installed database on, a deletion can end the agreement: the client drops
      a user the server keeps. */
  lemma DeletionOfNobody(now: int, expire: int, len: Length) returns (c: Client, t: Tables, e: AdminEvent)
    requires Lawful(len)
    ensures InStep(c, t) && Agrees(c, t) && Possible(c, t, e, Session(ADMIN, len)) && e.Deletes?
    ensures var (c', t') := AdminRuns.Next(c, t, e, Session(ADMIN, len));
      !Agrees(c', t') && c' == Removed(c, e.index) && c.users[e.index] in ServerUsers(t')
  {
    t := BackslashListed(now, expire);
    c, e := Refreshed(t, PANEL), Deletes(3, "success", ONE_BLOCK);
    AdminUsable();
    BackslashDeletes(c, t, 3, Session(ADMIN, len));
  }

  // ----------------------------------------------------- values that do not read

  /** With a hole before it, the last value moves from the list to the other keys. */
  lemma HoleSplitsList()
    ensures Lawful(FirstHole)
    ensures var v := Table([], HOLED);
      Eval(Tree(v), FirstHole) == Table([Entry(OtherKey(3), Int(3))], [Int(1)]) && Normal(v) == v
  {
    FirstHoleLawful();
    EvalTable([], HOLED, FirstHole);
    HoledRead();
    HoledBorder();
    assert HOLED[..1] == [Int(1)] && [] + [Entry(OtherKey(3), Int(3))] == [Entry(OtherKey(3), Int(3))];
  }

  const HOLED: seq<Value> := [Int(1), Nil, Int(3)]

  lemma HoledRead()
    requires Lawful(FirstHole)
    ensures ListRead(HOLED, FirstHole) == HOLED && NormalList(HOLED) == HOLED
  {
    assert HOLED[1..] == [Nil, Int(3)] && [Nil, Int(3)][1..] == [Int(3)] && [Int(3)][1..] == [];
    assert ListRead([Int(3)], FirstHole) == [Int(3)] && NormalList([Int(3)]) == [Int(3)];
    assert ListRead([Nil, Int(3)], FirstHole) == [Nil, Int(3)] && NormalList([Nil, Int(3)]) == [Nil, Int(3)];
  }

  lemma HoledBorder()
    ensures FirstHole(HOLED) == 1 && Leftover(HOLED, 1) == [Entry(OtherKey(3), Int(3))]
  {
    assert HOLED[1..][0] == Nil;
    assert Leftover(HOLED, 2) == [Entry(OtherKey(3), Int(3))];
  }

  /** The least 64-bit integer comes back as a float. */
  lemma LeastIntegerIsFloat(len: Length)
    requires Lawful(len)
    ensures Eval(Tree(Int(INT64_MIN)), len) == Num(INT64_MIN) != Normal(Int(INT64_MIN))
  {
  }

  /** A line break or a NUL in a string makes the text unreadable. */
  lemma StringsUnreadable(name: string)
    requires IsIdentifier(name)
    ensures Read(UntilNul(Render(EStr("a\nb"), name, 0))) == None
    ensures Read(UntilNul(Render(EStr([NUL]), name, 0))) == None
  {
    assert "a\nb"[1] == '\n' && [NUL][0] == NUL;
    ReadRenderExactly(EStr("a\nb"), name, 0);
    ReadRenderExactly(EStr([NUL]), name, 0);
  }
}
