/** The eight tables of the shop database, the stored procedures that change
    them, and the request handlers that call those procedures, as functions from
    one table state to the next. */
module Schema {
  import opened Prelude

  const INT_MAX: int := 0x7fff_ffff
  const UINT_MAX: int := 0xffff_ffff
  const SECONDS_PER_DAY: int := 86400

  // ---------------------------------------------------------------- rows

  datatype RankRow = RankRow(id: int, name: string)
  datatype UserRow = UserRow(login: string, password: string, sname: string, name: string, pname: string, rank: int)
  datatype CustomerRow = CustomerRow(telephone: int, sname: string, name: string, pname: string)
  datatype OrderRow = OrderRow(id: int, customerTel: int, start: int, expire: int, completion: Option<int>)
  datatype DistributorRow = DistributorRow(id: int, name: string)
  datatype TypeRow = TypeRow(id: int, name: string)
  datatype ItemRow = ItemRow(id: int, name: string, cost: real, count: int, distributorId: int, typeId: int,
                             description: string)
  datatype LineRow = LineRow(id: int, itemId: int, orderId: int, count: int)

  /** The rows of every table, and the next AUTO_INCREMENT value of the tables
      the requests insert numbered rows into. */
  datatype Tables = Tables(
    ranks: seq<RankRow>, users: seq<UserRow>, customers: seq<CustomerRow>, orders: seq<OrderRow>,
    distributors: seq<DistributorRow>, types: seq<TypeRow>, items: seq<ItemRow>, lines: seq<LineRow>,
    nextOrder: int, nextItem: int, nextLine: int)

  function RankId(r: RankRow): int { r.id }
  function UserLogin(r: UserRow): string { r.login }
  function Telephone(r: CustomerRow): int { r.telephone }
  function OrderId(r: OrderRow): int { r.id }
  function DistributorId(r: DistributorRow): int { r.id }
  function TypeId(r: TypeRow): int { r.id }
  function ItemId(r: ItemRow): int { r.id }
  function LineId(r: LineRow): int { r.id }
  function LineItem(r: LineRow): int { r.itemId }
  function LineOrder(r: LineRow): int { r.orderId }

  /** A DATE is a day number; a timestamp stored in one loses its time of day. */
  function DateOf(seconds: int): int { seconds / SECONDS_PER_DAY }

  // ---------------------------------------------------------- invariants

  ghost predicate PrimaryKeys(t: Tables) {
    && Distinct(t.ranks, RankId) && Distinct(t.users, UserLogin)
    && Distinct(t.customers, Telephone) && Distinct(t.orders, OrderId)
    && Distinct(t.distributors, DistributorId) && Distinct(t.types, TypeId)
    && Distinct(t.items, ItemId) && Distinct(t.lines, LineId)
  }

  ghost predicate ForeignKeys(t: Tables) {
    && (forall u :: u in t.users ==> HasKey(t.ranks, RankId, u.rank))
    && (forall o :: o in t.orders ==> HasKey(t.customers, Telephone, o.customerTel))
    && (forall i :: i in t.items ==> HasKey(t.distributors, DistributorId, i.distributorId))
    && (forall i :: i in t.items ==> HasKey(t.types, TypeId, i.typeId))
    && (forall l :: l in t.lines ==> HasKey(t.items, ItemId, l.itemId))
    && (forall l :: l in t.lines ==> HasKey(t.orders, OrderId, l.orderId))
  }

  /** Unsigned columns hold 32-bit values; used ids lie below the counters. */
  ghost predicate Domains(t: Tables) {
    && (forall i :: i in t.items ==> 0 <= i.count <= UINT_MAX && i.id < t.nextItem)
    && (forall l :: l in t.lines ==> 0 <= l.count <= UINT_MAX && l.id < t.nextLine)
    && (forall o :: o in t.orders ==> o.id < t.nextOrder)
  }

  ghost predicate OrdersHaveLines(t: Tables) {
    forall o :: o in t.orders ==> HasKey(t.lines, LineOrder, o.id)
  }

  ghost predicate Consistent(t: Tables) {
    PrimaryKeys(t) && ForeignKeys(t) && Domains(t) && OrdersHaveLines(t)
  }

  // ---------------------------------------------------------- procedures

  datatype SqlError =
    | UserAlreadyExists | RankNotExists | CustomerAlreadyExists | CustomerNotExists | DistributorNotExists
    | ItemTypeNotExists | ItemNotExists | NotEnoughItems | OutOfRange | KeysExhausted

  datatype Outcome = Done(tables: Tables) | Failed(error: SqlError)

  predicate FitsInt(x: int) { -INT_MAX - 1 <= x <= INT_MAX }
  predicate FitsUnsigned(x: int) { 0 <= x <= UINT_MAX }

  function Map<T(!new)>(xs: seq<T>, f: T -> T): (r: seq<T>)
    ensures |r| == |xs| && forall i :: 0 <= i < |xs| ==> r[i] == f(xs[i])
  {
    seq(|xs|, i requires 0 <= i < |xs| => f(xs[i]))
  }

  function LoginIsNot(login: string): UserRow -> bool { (u: UserRow) => u.login != login }
  function TelephoneIsNot(tel: int): CustomerRow -> bool { (c: CustomerRow) => c.telephone != tel }
  function OrderedBy(tel: int): OrderRow -> bool { (o: OrderRow) => o.customerTel == tel }
  function NotOrderedBy(tel: int): OrderRow -> bool { (o: OrderRow) => o.customerTel != tel }
  function NotLineOf(dead: seq<OrderRow>): LineRow -> bool {
    (l: LineRow) => !exists o :: o in dead && o.id == l.orderId
  }

  function CreateUser(t: Tables, u: UserRow): Outcome {
    if exists v :: v in t.users && v.login == u.login then Failed(UserAlreadyExists)
    else if !exists r :: r in t.ranks && r.id == u.rank then Failed(RankNotExists)
    else Done(t.(users := t.users + [u]))
  }

  function UserUpdate(u: UserRow): UserRow -> UserRow {
    (v: UserRow) => if v.login == u.login then u.(password := v.password) else v
  }

  /** The password of `u` is ignored: UpdateUser leaves the stored one. */
  function UpdateUser(t: Tables, u: UserRow): Outcome {
    if !exists r :: r in t.ranks && r.id == u.rank then Failed(RankNotExists)
    else Done(t.(users := Map(t.users, UserUpdate(u))))
  }

  function DeleteUser(t: Tables, login: string): Tables {
    t.(users := Filter(t.users, LoginIsNot(login)))
  }

  function CreateCustomer(t: Tables, c: CustomerRow): Outcome {
    if c.telephone < 0 then Failed(OutOfRange)
    else if exists d :: d in t.customers && d.telephone == c.telephone then Failed(CustomerAlreadyExists)
    else Done(t.(customers := t.customers + [c]))
  }

  /** ON DELETE CASCADE twice: the customer's orders go, and with them their lines. */
  function DeleteCustomer(t: Tables, tel: int): Tables {
    t.(customers := Filter(t.customers, TelephoneIsNot(tel)),
       orders := Filter(t.orders, NotOrderedBy(tel)),
       lines := Filter(t.lines, NotLineOf(Filter(t.orders, OrderedBy(tel)))))
  }

  /** The id of `i` is ignored: the row gets the next AUTO_INCREMENT value. */
  function AddItem(t: Tables, i: ItemRow): Outcome {
    if !FitsUnsigned(i.count) then Failed(OutOfRange)
    else if !exists d :: d in t.distributors && d.id == i.distributorId then Failed(DistributorNotExists)
    else if !exists y :: y in t.types && y.id == i.typeId then Failed(ItemTypeNotExists)
    else if t.nextItem > INT_MAX then Failed(KeysExhausted)
    else Done(t.(items := t.items + [i.(id := t.nextItem)], nextItem := t.nextItem + 1))
  }

  function Restock(id: int, appended: int): ItemRow -> ItemRow {
    (i: ItemRow) => if i.id == id then i.(count := i.count + appended) else i
  }

  function AddItemCount(t: Tables, id: int, appended: int): Outcome {
    if !FitsInt(id) || !FitsInt(appended) then Failed(OutOfRange)
    else if exists i :: i in t.items && i.id == id && !FitsUnsigned(i.count + appended) then Failed(OutOfRange)
    else Done(t.(items := Map(t.items, Restock(id, appended))))
  }

  function AddOrder(t: Tables, now: int, tel: int, expire: int): Outcome {
    if !exists c :: c in t.customers && c.telephone == tel then Failed(CustomerNotExists)
    else if t.nextOrder > INT_MAX then Failed(KeysExhausted)
    else Done(t.(orders := t.orders + [OrderRow(t.nextOrder, tel, DateOf(now), expire, None)],
                 nextOrder := t.nextOrder + 1))
  }

  function AddOrderedItem(t: Tables, order: int, item: int, count: int): Outcome {
    if !exists i :: i in t.items && i.id == item then Failed(ItemNotExists)
    else if t.nextLine > INT_MAX then Failed(KeysExhausted)
    else Done(t.(lines := t.lines + [LineRow(t.nextLine, item, order, count)], nextLine := t.nextLine + 1))
  }

  /** User INNER JOIN UserRank ON User.rank = UserRank.id. */
  predicate RankOfUser(u: UserRow, r: RankRow) { u.rank == r.id }

  function HasLogin(login: string, password: string, rank: string): ((UserRow, RankRow)) -> bool {
    (p: (UserRow, RankRow)) => p.0.login == login && p.0.password == password && p.1.name == rank
  }

  predicate CheckUserExists(t: Tables, login: string, password: string, rank: string) {
    Filter(Join(t.users, t.ranks, RankOfUser), HasLogin(login, password, rank)) != []
  }

  // ------------------------------------------------------- CompleteOrder

  predicate SameItem(l: LineRow, i: ItemRow) { l.itemId == i.id }
  function RowOfOrder(id: int): ((LineRow, ItemRow)) -> bool { (r: (LineRow, ItemRow)) => r.0.orderId == id }
  function RowOfDistributor(d: int): ((LineRow, ItemRow)) -> bool { (r: (LineRow, ItemRow)) => r.1.distributorId == d }
  function RowCount(r: (LineRow, ItemRow)): int { r.0.count }

  /** The joined rows of one order, before they are grouped. */
  function OrderedRows(t: Tables, id: int): seq<(LineRow, ItemRow)> {
    Filter(Join(t.lines, t.items, SameItem), RowOfOrder(id))
  }

  /** What the order takes from one distributor: the SUM of its group. */
  function Charge(t: Tables, id: int, distributor: int): int {
    Sum(Filter(OrderedRows(t, id), RowOfDistributor(distributor)), RowCount)
  }

  /** GROUP BY distributor with a bare Item.id: one group per distributor, and
      the id of any one row of the group. */
  ghost predicate ValidPick(t: Tables, id: int, pick: map<int, int>) {
    && (forall r :: r in OrderedRows(t, id) ==> r.1.distributorId in pick)
    && (forall d :: d in pick ==> exists r :: r in OrderedRows(t, id) && r.1.distributorId == d && r.1.id == pick[d])
  }

  predicate Completed(t: Tables, id: int) {
    exists o :: o in t.orders && o.id == id && o.completion.Some?
  }

  function NewCount(t: Tables, id: int, pick: map<int, int>, i: ItemRow): int {
    if i.distributorId in pick && pick[i.distributorId] == i.id then i.count - Charge(t, id, i.distributorId)
    else i.count
  }

  function ChargeItem(t: Tables, id: int, pick: map<int, int>): ItemRow -> ItemRow {
    (i: ItemRow) => i.(count := NewCount(t, id, pick, i))
  }

  function CompleteOn(id: int, day: int): OrderRow -> OrderRow {
    (o: OrderRow) => if o.id == id then o.(completion := Some(day)) else o
  }

  function CompleteOrder(t: Tables, now: int, id: int, pick: map<int, int>): Outcome {
    if !FitsInt(id) then Failed(OutOfRange)
    else if Completed(t, id) then Done(t)
    else if exists i :: i in t.items && NewCount(t, id, pick, i) < 0 then Failed(NotEnoughItems)
    else Done(t.(items := Map(t.items, ChargeItem(t, id, pick)), orders := Map(t.orders, CompleteOn(id, DateOf(now)))))
  }

  // ------------------------------------------------------------ handlers

  datatype RawLine = RawLine(itemId: Option<int>, count: Option<int>)

  datatype Request =
    | CreateUserRequest(newUser: UserRow)
    | UpdateUserRequest(changed: UserRow)
    | DeleteUserRequest(login: string)
    | CreateCustomerRequest(customer: CustomerRow)
    | DeleteCustomerRequest(telephone: int)
    | AddItemRequest(item: ItemRow)
    | AddItemCountRequest(itemId: int, appended: int)
    | AddOrderRequest(customerTel: Option<int>, expire: Option<int>, raw: seq<RawLine>)
    | CompleteOrderRequest(orderId: int, pick: map<int, int>)

  datatype Reply = Success | BadConfig | Error(error: SqlError)

  /** The 64-bit numbers of a request narrowed to `int` and `uint32_t`. */
  function NarrowInt(x: int): (n: int)
    ensures FitsInt(n) && (FitsInt(x) ==> n == x)
  {
    var m := x % 0x1_0000_0000;
    if m > INT_MAX then m - 0x1_0000_0000 else m
  }

  function NarrowUnsigned(x: int): (n: int)
    ensures FitsUnsigned(n) && (FitsUnsigned(x) ==> n == x)
  {
    x % 0x1_0000_0000
  }

  datatype Wanted = Wanted(item: int, count: int)

  function Narrow(r: RawLine): Wanted
    requires r.itemId.Some? && r.count.Some?
  {
    Wanted(NarrowInt(r.itemId.value), NarrowUnsigned(r.count.value))
  }

  predicate Complete(raw: seq<RawLine>) {
    forall r :: r in raw ==> r.itemId.Some? && r.count.Some?
  }

  function NarrowAll(raw: seq<RawLine>): (r: seq<Wanted>)
    requires Complete(raw)
    ensures |r| == |raw| && forall i :: 0 <= i < |raw| ==> r[i] == Narrow(raw[i])
  {
    seq(|raw|, i requires 0 <= i < |raw| => Narrow(raw[i]))
  }

  /** The insert loop of add_order: stops at the first procedure that fails. */
  function InsertLines(t: Tables, order: int, wanted: seq<Wanted>): (Tables, Option<SqlError>)
    decreases |wanted|
  {
    if wanted == [] then (t, None)
    else match AddOrderedItem(t, order, wanted[0].item, wanted[0].count)
      case Failed(e) => (t, Some(e))
      case Done(t') => InsertLines(t', order, wanted[1..])
  }

  /** Rolling back restores every row; AUTO_INCREMENT counters keep their advance. */
  function Rollback(saved: Tables, current: Tables): Tables {
    saved.(nextOrder := current.nextOrder, nextItem := current.nextItem, nextLine := current.nextLine)
  }

  function PlaceOrder(t: Tables, now: int, tel: Option<int>, expire: Option<int>, raw: seq<RawLine>): (Tables, Reply) {
    if tel.None? || expire.None? || now > expire.value || raw == [] || !Complete(raw) then (t, BadConfig)
    else match AddOrder(t, now, tel.value, DateOf(expire.value))
      case Failed(e) => (t, Error(e))
      case Done(t1) =>
        match InsertLines(t1, t.nextOrder, NarrowAll(raw))
        case (t2, None) => (t2, Success)
        case (t2, Some(e)) => (Rollback(t, t2), Error(e))
  }

  function Answer(t: Tables, o: Outcome): (Tables, Reply) {
    match o case Done(t') => (t', Success) case Failed(e) => (t, Error(e))
  }

  /** Three handlers answer "success" without looking at the query's result. */
  function AnswerSuccess(t: Tables, o: Outcome): (Tables, Reply) {
    (Answer(t, o).0, Success)
  }

  function Handle(t: Tables, now: int, req: Request): (Tables, Reply) {
    match req
    case CreateUserRequest(u) => Answer(t, CreateUser(t, u))
    case UpdateUserRequest(u) => Answer(t, UpdateUser(t, u))
    case DeleteUserRequest(login) => (DeleteUser(t, login), Success)
    case CreateCustomerRequest(c) => Answer(t, CreateCustomer(t, c))
    case DeleteCustomerRequest(tel) => (DeleteCustomer(t, tel), Success)
    case AddItemRequest(i) => Answer(t, AddItem(t, i))
    case AddItemCountRequest(id, appended) => AnswerSuccess(t, AddItemCount(t, id, appended))
    case AddOrderRequest(tel, expire, raw) => PlaceOrder(t, now, tel, expire, raw)
    case CompleteOrderRequest(id, pick) => Answer(t, CompleteOrder(t, now, id, pick))
  }

  /** The server may pick any row of a group, and only a row of the group. */
  ghost predicate Allowed(t: Tables, req: Request) {
    req.CompleteOrderRequest? ==> ValidPick(t, req.orderId, req.pick)
  }
}
