/** What every request does, column by column: when it succeeds, what it answers, which rows
    there are afterwards and what stands in them. */
module Procedures {
  import opened Prelude
  import opened Schema
  import opened Integrity

  // --------------------------------------------------------------- users

  /** A new login and a rank that exists; the row holds the six values, the others stay. */
  lemma CreateUserExactly(t: Tables, now: int, u: UserRow)
    ensures var (t', reply) := Handle(t, now, CreateUserRequest(u));
      && (reply == Success <==>
            (forall v :: v in t.users ==> v.login != u.login) && exists r :: r in t.ranks && r.id == u.rank)
      && (reply == Success ==>
            t' == t.(users := t.users + [UserRow(u.login, u.password, u.sname, u.name, u.pname, u.rank)]))
      && (reply != Success ==>
            && t' == t
            && reply == Error(if exists v :: v in t.users && v.login == u.login then UserAlreadyExists
                              else RankNotExists))
  {
  }

  /** The rows with the login get the new names and rank and keep their password. */
  lemma UpdateUserExactly(t: Tables, now: int, u: UserRow)
    ensures var (t', reply) := Handle(t, now, UpdateUserRequest(u));
      && reply == (if exists r :: r in t.ranks && r.id == u.rank then Success else Error(RankNotExists))
      && t' == t.(users := t'.users) && |t'.users| == |t.users|
      && forall k :: 0 <= k < |t.users| ==>
           t'.users[k] == (if reply == Success && t.users[k].login == u.login
                           then UserRow(u.login, t.users[k].password, u.sname, u.name, u.pname, u.rank)
                           else t.users[k])
  {
  }

  lemma DeleteUserExactly(t: Tables, now: int, login: string)
    ensures var (t', reply) := Handle(t, now, DeleteUserRequest(login));
      && reply == Success && t' == t.(users := t'.users)
      && forall u :: u in t'.users <==> u in t.users && u.login != login
  {
  }

  /** A login is good for the password and the rank name in its own row. */
  lemma CheckUserExactly(t: Tables, login: string, password: string, rank: string)
    ensures CheckUserExists(t, login, password, rank) <==>
      exists u, r :: u in t.users && r in t.ranks
        && u.login == login && u.password == password && u.rank == r.id && r.name == rank
  {
    var j := Join(t.users, t.ranks, RankOfUser);
    var found := Filter(j, HasLogin(login, password, rank));
    if found != [] {
      assert found[0] in found;
    }
    forall u, r | u in t.users && r in t.ranks && u.login == login && u.password == password && u.rank == r.id
        && r.name == rank
      ensures found != []
    {
      assert (u, r) in j && (u, r) in found;
    }
  }

  /** Once created, the user can log in with that password and that rank's name, and with
      nothing else. */
  lemma CreatedCanLogIn(t: Tables, u: UserRow, password: string, rank: string)
    requires CreateUser(t, u).Done?
    ensures CheckUserExists(CreateUser(t, u).tables, u.login, password, rank) <==>
      password == u.password && exists r :: r in t.ranks && r.id == u.rank && r.name == rank
  {
    var t' := CreateUser(t, u).tables;
    CheckUserExactly(t', u.login, password, rank);
    assert t'.users[|t.users|] == u;
  }

  // ----------------------------------------------------------- customers

  lemma CreateCustomerExactly(t: Tables, now: int, c: CustomerRow)
    ensures var (t', reply) := Handle(t, now, CreateCustomerRequest(c));
      && (reply == Success <==> c.telephone >= 0 && forall d :: d in t.customers ==> d.telephone != c.telephone)
      && (reply == Success ==>
            t' == t.(customers := t.customers + [CustomerRow(c.telephone, c.sname, c.name, c.pname)]))
      && (reply != Success ==>
            t' == t && reply == Error(if c.telephone < 0 then OutOfRange else CustomerAlreadyExists))
  {
  }

  /** A customer stays if it has another telephone, an order if it is another customer's, a
      line if its order stays; nothing else changes. */
  lemma {:induction false} DeleteCustomerExactly(t: Tables, now: int, tel: int)
    requires Consistent(t)
    ensures var (t', reply) := Handle(t, now, DeleteCustomerRequest(tel));
      && reply == Success && t' == t.(customers := t'.customers, orders := t'.orders, lines := t'.lines)
      && (forall c :: c in t'.customers <==> c in t.customers && c.telephone != tel)
      && (forall o :: o in t'.orders <==> o in t.orders && o.customerTel != tel)
      && (forall l :: l in t'.lines <==> l in t.lines && exists o :: o in t'.orders && o.id == l.orderId)
  {
    DeleteHandled(t, now, tel, DeleteCustomer(t, tel));
    RowsLeft(t, tel);
    LinesLeft(t, tel);
  }

  lemma {:induction false} DeleteHandled(t: Tables, now: int, tel: int, t': Tables)
    requires t' == DeleteCustomer(t, tel)
    ensures Handle(t, now, DeleteCustomerRequest(tel)) == (t', Success)
  {
  }

  lemma {:induction false} LinesLeft(t: Tables, tel: int)
    requires Consistent(t)
    ensures var t' := DeleteCustomer(t, tel);
      forall l :: l in t'.lines <==> l in t.lines && exists o :: o in t'.orders && o.id == l.orderId
  {
    forall l: LineRow
      ensures l in DeleteCustomer(t, tel).lines <==>
        l in t.lines && exists o :: o in DeleteCustomer(t, tel).orders && o.id == l.orderId
    {
      if l in t.lines { LineStays(t, tel, l); } else { LinesShrink(t, tel, l); }
    }
  }

  lemma RowsLeft(t: Tables, tel: int)
    ensures var t' := DeleteCustomer(t, tel);
      && t' == t.(customers := t'.customers, orders := t'.orders, lines := t'.lines)
      && (forall c :: c in t'.customers <==> c in t.customers && c.telephone != tel)
      && (forall o :: o in t'.orders <==> o in t.orders && o.customerTel != tel)
  {
  }

  lemma LinesShrink(t: Tables, tel: int, l: LineRow)
    ensures l in DeleteCustomer(t, tel).lines ==> l in t.lines
  {
  }

  lemma LineStays(t: Tables, tel: int, l: LineRow)
    requires Consistent(t) && l in t.lines
    ensures var t' := DeleteCustomer(t, tel); l in t'.lines <==> exists o :: o in t'.orders && o.id == l.orderId
  {
    var t', dead := DeleteCustomer(t, tel), Filter(t.orders, OrderedBy(tel));
    var o :| o in t.orders && OrderId(o) == l.orderId;
    forall p | p in t.orders && p.id == l.orderId ensures p == o {
      DistinctSame(t.orders, OrderId, p, o);
    }
    if o.customerTel == tel {
      assert o in dead;
    } else {
      assert o in t'.orders;
    }
  }

  // --------------------------------------------------------------- items

  predicate CanAddItem(t: Tables, i: ItemRow) {
    && 0 <= i.count <= UINT_MAX && t.nextItem <= INT_MAX
    && (exists d :: d in t.distributors && d.id == i.distributorId)
    && (exists y :: y in t.types && y.id == i.typeId)
  }

  /** The row holds the six values under the next id; the others stay. */
  lemma AddItemExactly(t: Tables, now: int, i: ItemRow)
    ensures var (t', reply) := Handle(t, now, AddItemRequest(i));
      && (reply == Success <==> CanAddItem(t, i))
      && (reply == Success ==>
            t' == t.(items := t.items + [ItemRow(t.nextItem, i.name, i.cost, i.count, i.distributorId, i.typeId,
                                                 i.description)],
                     nextItem := t.nextItem + 1))
      && (reply != Success ==> t' == t)
      && (reply == Error(DistributorNotExists) <==>
            0 <= i.count <= UINT_MAX && forall d :: d in t.distributors ==> d.id != i.distributorId)
      && (reply == Error(ItemTypeNotExists) <==>
            && 0 <= i.count <= UINT_MAX && (exists d :: d in t.distributors && d.id == i.distributorId)
            && forall y :: y in t.types ==> y.id != i.typeId)
  {
  }

  /** The numbers are of type INT and no row with the id leaves the column's range. */
  predicate CanRestock(t: Tables, id: int, appended: int) {
    && -0x8000_0000 <= id <= 0x7fff_ffff && -0x8000_0000 <= appended <= 0x7fff_ffff
    && forall i :: i in t.items && i.id == id ==> 0 <= i.count + appended <= 0xffff_ffff
  }

  lemma AddItemCountDone(t: Tables, id: int, appended: int)
    ensures AddItemCount(t, id, appended).Done? <==> CanRestock(t, id, appended)
  {
  }

  /** Then the item with the id has that many more and every other row is as before;
      otherwise all rows are. The answer is the same. */
  lemma AddItemCountExactly(t: Tables, now: int, id: int, appended: int)
    ensures var (t', reply) := Handle(t, now, AddItemCountRequest(id, appended));
      && reply == Success && t' == t.(items := t'.items) && |t'.items| == |t.items|
      && forall k :: 0 <= k < |t.items| ==>
           var i := t.items[k];
           t'.items[k] ==
             if CanRestock(t, id, appended) && i.id == id
             then ItemRow(i.id, i.name, i.cost, i.count + appended, i.distributorId, i.typeId, i.description)
             else i
  {
    AddItemCountDone(t, id, appended);
  }

  // -------------------------------------------------------------- orders

  /** Where the insert loop stops: every item before line `k` is known, and line `k` has an
      unknown item or finds the key space used up. */
  ghost predicate StopsAt(t: Tables, wanted: seq<Wanted>, k: nat, e: SqlError) {
    && k < |wanted| && (forall j :: 0 <= j < k ==> exists i :: i in t.items && i.id == wanted[j].item)
    && (k > 0 ==> t.nextLine + k - 1 <= INT_MAX)
    && (if forall i :: i in t.items ==> i.id != wanted[k].item then e == ItemNotExists
        else t.nextLine + k > INT_MAX && e == KeysExhausted)
  }

  lemma {:induction false} InsertLinesStops(t: Tables, order: int, wanted: seq<Wanted>) returns (k: nat)
    requires InsertLines(t, order, wanted).1.Some?
    ensures StopsAt(t, wanted, k, InsertLines(t, order, wanted).1.value)
    ensures InsertLines(t, order, wanted).0.nextLine == t.nextLine + k
    decreases |wanted|
  {
    match AddOrderedItem(t, order, wanted[0].item, wanted[0].count)
    case Failed(_) => k := 0;
    case Done(t1) =>
      var m := InsertLinesStops(t1, order, wanted[1..]);
      k := m + 1;
      forall j | 0 <= j < k ensures exists i :: i in t.items && i.id == wanted[j].item {
        if j > 0 { assert wanted[j] == wanted[1..][j - 1]; }
      }
      assert wanted[k] == wanted[1..][m];
  }

  predicate WellFormedOrder(now: int, tel: Option<int>, expire: Option<int>, raw: seq<RawLine>) {
    && tel.Some? && expire.Some? && now <= expire.value && raw != []
    && forall r :: r in raw ==> r.itemId.Some? && r.count.Some?
  }

  /** What a refused add_order answers, and which numbers it uses up: none, or one order
      number and as many line numbers as lines went in before the one that failed. */
  lemma AddOrderRefused(t: Tables, now: int, tel: Option<int>, expire: Option<int>, raw: seq<RawLine>)
    returns (k: nat)
    ensures var (t', reply) := Handle(t, now, AddOrderRequest(tel, expire, raw));
      && (reply == BadConfig <==> !WellFormedOrder(now, tel, expire, raw))
      && (reply == BadConfig ==> t' == t)
      && (WellFormedOrder(now, tel, expire, raw) && reply != Success ==>
            var known := exists c :: c in t.customers && c.telephone == tel.value;
            if !known then reply == Error(CustomerNotExists) && t' == t
            else if t.nextOrder > INT_MAX then reply == Error(KeysExhausted) && t' == t
            else && reply.Error? && StopsAt(t, NarrowAll(raw), k, reply.error)
                 && t' == t.(nextOrder := t.nextOrder + 1, nextLine := t.nextLine + k))
  {
    k := 0;
    if WellFormedOrder(now, tel, expire, raw) {
      match AddOrder(t, now, tel.value, DateOf(expire.value))
      case Failed(_) =>
      case Done(t1) =>
        InsertLinesFrame(t1, t.nextOrder, NarrowAll(raw));
        if InsertLines(t1, t.nextOrder, NarrowAll(raw)).1.Some? {
          k := InsertLinesStops(t1, t.nextOrder, NarrowAll(raw));
        }
    }
  }

  // ------------------------------------------------- what an order is charged

  /** A line's contribution to the charge of a distributor. */
  function LineCharge(items: seq<ItemRow>, order: int, distributor: int): LineRow -> int {
    (l: LineRow) =>
      if l.orderId == order && exists i :: i in items && i.id == l.itemId && i.distributorId == distributor
      then l.count else 0
  }

  /** The charge is the sum of the order's lines for the distributor's items. */
  lemma ChargeInColumns(t: Tables, id: int, d: int)
    requires Consistent(t)
    ensures Charge(t, id, d) == Sum(t.lines, LineCharge(t.items, id, d))
  {
    var j := Join(t.lines, t.items, SameItem);
    JoinAlongKey(t.lines, t.items, SameItem, LineItem, ItemId);
    SumFiltered(OrderedRows(t, id), RowOfDistributor(d), RowCount);
    SumFiltered(j, RowOfOrder(id), Only(RowOfDistributor(d), RowCount));
    forall k | 0 <= k < |t.lines|
      ensures Only(RowOfOrder(id), Only(RowOfDistributor(d), RowCount))(j[k]) == LineCharge(t.items, id, d)(t.lines[k])
    {
      ChargeOfLine(t, id, d, j[k]);
    }
    SumEqual(j, t.lines, Only(RowOfOrder(id), Only(RowOfDistributor(d), RowCount)), LineCharge(t.items, id, d));
  }

  lemma ChargeOfLine(t: Tables, id: int, d: int, r: (LineRow, ItemRow))
    requires Distinct(t.items, ItemId) && r.1 in t.items && r.1.id == r.0.itemId
    ensures Only(RowOfOrder(id), Only(RowOfDistributor(d), RowCount))(r) == LineCharge(t.items, id, d)(r.0)
  {
    forall i | i in t.items && i.id == r.0.itemId ensures i == r.1 {
      DistinctSame(t.items, ItemId, i, r.1);
    }
  }

  /** The choices the server has: for the distributors of the ordered items, one of the
      ordered items of that distributor each. */
  lemma PickInColumns(t: Tables, id: int, pick: map<int, int>)
    ensures ValidPick(t, id, pick) <==>
      forall d :: if d in pick
        then exists l, i :: l in t.lines && i in t.items && l.orderId == id && l.itemId == i.id
                            && i.distributorId == d && i.id == pick[d]
        else forall l, i :: l in t.lines && i in t.items && l.orderId == id && l.itemId == i.id ==> i.distributorId != d
  {
    var rows := OrderedRows(t, id);
    forall l, i ensures (l, i) in rows <==> l in t.lines && i in t.items && l.itemId == i.id && l.orderId == id {
      RowsOfOrder(t, id, (l, i));
    }
    assert forall r :: r in rows ==> r == (r.0, r.1);
  }

  // --------------------------------------------------------------- dates

  /** A date is the day that holds the moment. */
  lemma DateInSeconds(seconds: int)
    ensures 86400 * DateOf(seconds) <= seconds < 86400 * (DateOf(seconds) + 1)
  {
  }

  /** Wrapping keeps the low 32 bits. */
  lemma NarrowKeepsBits(x: int)
    ensures (x - NarrowInt(x)) % 0x1_0000_0000 == 0 && (x - NarrowUnsigned(x)) % 0x1_0000_0000 == 0
  {
  }
}
