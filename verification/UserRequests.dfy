/** Requests about users and customers on the server, from the text the client sends to the
    tables: framed, parsed and run, the credentials checked, the fields taken from what Lua
    read. */
module UserRequests {
  import opened Prelude
  import opened Schema
  import opened Procedures
  import opened LuaPrinter
  import opened LuaMeaning
  import opened LuaSyntax
  import opened LuaRaw
  import opened QueryReply
  import Requests = ClientRequests

  function TextOf(v: Option<Value>): Option<string> {
    match v case Some(Str(s)) => Some(s) case _ => None
  }

  /** check_user_existance with the ranks a handler lets in. */
  predicate LetsIn(t: Tables, u: Requests.UserLogin, ranks: seq<string>) {
    u.rank in ranks && CheckUserExists(t, u.login, u.password, u.rank)
  }

  predicate Admits(t: Tables, u: Requests.UserLogin) { LetsIn(t, u, ["Admin"]) }

  ghost function Caller(chunk: seq<Assignment>, len: Length): Option<Requests.UserLogin>
    requires Lawful(len)
  {
    var login := TextOf(Requests.HandlerField(chunk, "user", "login", len));
    var password := TextOf(Requests.HandlerField(chunk, "user", "password", len));
    var rank := TextOf(Requests.HandlerField(chunk, "user", "rank", len));
    if login.None? || password.None? || rank.None? then None
    else Some(Requests.UserLogin(login.value, password.value, rank.value))
  }

  /** The row create_user inserts; a missing field or one of another type is an error. */
  ghost function NewRow(chunk: seq<Assignment>, len: Length): Option<UserRow>
    requires Lawful(len)
  {
    var login := TextOf(Requests.HandlerField(chunk, "new_user", "login", len));
    var password := TextOf(Requests.HandlerField(chunk, "new_user", "password", len));
    var sname := TextOf(Requests.HandlerField(chunk, "new_user", "sname", len));
    var name := TextOf(Requests.HandlerField(chunk, "new_user", "name", len));
    var pname := TextOf(Requests.HandlerField(chunk, "new_user", "pname", len));
    match Requests.HandlerField(chunk, "new_user", "rank", len)
    case Some(Int(rank)) =>
      if login.None? || password.None? || sname.None? || name.None? || pname.None? then None
      else Some(UserRow(login.value, password.value, sname.value, name.value, pname.value, rank))
    case _ => None
  }

  /** The row create_customer inserts. */
  ghost function NewCustomerRow(chunk: seq<Assignment>, len: Length): Option<CustomerRow>
    requires Lawful(len)
  {
    var sname := TextOf(Requests.HandlerField(chunk, "new_customer", "sname", len));
    var name := TextOf(Requests.HandlerField(chunk, "new_customer", "name", len));
    var pname := TextOf(Requests.HandlerField(chunk, "new_customer", "pname", len));
    match Requests.HandlerField(chunk, "new_customer", "telephone", len)
    case Some(Int(telephone)) =>
      if sname.None? || name.None? || pname.None? then None
      else Some(CustomerRow(telephone, sname.value, name.value, pname.value))
    case _ => None
  }

  /** What a request is taken for; anything else is answered with an error. */
  datatype Call =
    | Login | Listing | Creation(row: UserRow) | Deletion(login: string)
    | CustomerCreation(customer: CustomerRow) | NoCall

  /** The ranks the handler of a request lets in. */
  function RanksFor(request: Value): seq<string> {
    match request
    case Str(name) =>
      if name == "auth" then ["Admin", "Employee", "Accountant"]
      else if name == "create_customer" then ["Employee", "Admin"]
      else if name == "get_users" || name == "create_user" || name == "delete_user" then ["Admin"]
      else []
    case _ => []
  }

  ghost function CallOf(chunk: seq<Assignment>, len: Length): Call
    requires Lawful(len)
  {
    match Global(chunk, "request", len)
    case Str(name) =>
      if name == "auth" then Login
      else if name == "get_users" then Listing
      else if name == "create_user" then
        (match NewRow(chunk, len) case Some(row) => Creation(row) case None => NoCall)
      else if name == "delete_user" then
        (match Global(chunk, "delete_user_login", len) case Str(login) => Deletion(login) case _ => NoCall)
      else if name == "create_customer" then
        (match NewCustomerRow(chunk, len) case Some(row) => CustomerCreation(row) case None => NoCall)
      else NoCall
    case _ => NoCall
  }

  /** The call a request text makes, its caller let in. */
  ghost function Served(t: Tables, text: string, len: Length): Call
    requires Lawful(len)
  {
    match Requests.ServerChunk(text)
    case None => NoCall
    case Some(chunk) =>
      match Caller(chunk, len)
      case None => NoCall
      case Some(u) => if LetsIn(t, u, RanksFor(Global(chunk, "request", len))) then CallOf(chunk, len) else NoCall
  }

  /** The tables after a call and whether it is answered with "success". */
  function Performed(t: Tables, call: Call): (Tables, bool) {
    match call
    case Login => (t, true)
    case Listing => (t, true)
    case Creation(row) =>
      (match CreateUser(t, row) case Done(t') => (t', true) case Failed(_) => (t, false))
    case Deletion(login) => (DeleteUser(t, login), true)
    case CustomerCreation(row) =>
      (match CreateCustomer(t, row) case Done(t') => (t', true) case Failed(_) => (t, false))
    case NoCall => (t, false)
  }

  // ------------------------------------------------ what the client's texts call

  lemma CallerArrives(chunk: seq<Assignment>, request: string, u: Requests.UserLogin, len: Length)
    requires Lawful(len) && Requests.CallArrives(chunk, request, u, len)
    ensures Caller(chunk, len) == Some(u)
  {
  }

  /** The text of Auth is answered with success exactly if its credentials, as Lua reads
      them, are those of a user. */
  lemma AuthServed(t: Tables, u: Requests.UserLogin, len: Length)
    requires Lawful(len) && Requests.RawLogin(u)
    ensures Served(t, Requests.Auth(u), len) ==
      if Requests.LoginReadable(u) && LetsIn(t, Requests.LoginAsRead(u), ["Admin", "Employee", "Accountant"])
      then Login else NoCall
  {
    Requests.AuthArrives(u, len);
    if Requests.LoginReadable(u) {
      var chunk := Requests.ServerChunk(Requests.Auth(u)).value;
      CallerArrives(chunk, "auth", Requests.LoginAsRead(u), len);
    }
  }

  lemma ListingServed(t: Tables, u: Requests.UserLogin, len: Length)
    requires Lawful(len) && Requests.RawLogin(u)
    ensures Served(t, Requests.GetUsers(u), len) ==
      if Requests.LoginReadable(u) && Admits(t, Requests.LoginAsRead(u)) then Listing else NoCall
  {
    Requests.GetUsersArrives(u, len);
    if Requests.LoginReadable(u) {
      var chunk := Requests.ServerChunk(Requests.GetUsers(u)).value;
      CallerArrives(chunk, "get_users", Requests.LoginAsRead(u), len);
    }
  }

  lemma {:induction false} DeletionServed(t: Tables, u: Requests.UserLogin, login: string, len: Length)
    requires Lawful(len) && Requests.RawLogin(u) && QuoteFree(login)
    ensures Served(t, Requests.DeleteUser(u, login), len) ==
      if Requests.LoginReadable(u) && Requests.Readable(login) && Admits(t, Requests.LoginAsRead(u))
      then Deletion(Requests.AsRead(login)) else NoCall
  {
    Requests.DeleteUserArrives(u, login, len);
    if Requests.LoginReadable(u) && Requests.Readable(login) {
      var chunk := Requests.ServerChunk(Requests.DeleteUser(u, login)).value;
      CallerArrives(chunk, "delete_user", Requests.LoginAsRead(u), len);
    }
  }

  function RowAsRead(n: Requests.NewUser): UserRow {
    var m := Requests.UserAsRead(n);
    UserRow(m.login, m.password, m.sname, m.name, m.pname, m.rank)
  }

  lemma RowArrives(chunk: seq<Assignment>, n: Requests.NewUser, len: Length)
    requires Lawful(len) && Requests.UserArrives(chunk, Requests.UserAsRead(n), len) && FitsInt(n.rank)
    ensures NewRow(chunk, len) == Some(RowAsRead(n))
  {
  }

  lemma CreationServed(t: Tables, u: Requests.UserLogin, n: Requests.NewUser, len: Length)
    requires Lawful(len) && Requests.RawLogin(u) && Requests.RawUser(n) && FitsInt(n.rank)
    ensures Served(t, Requests.CreateUser(u, n), len) ==
      if Requests.LoginReadable(u) && Requests.UserReadable(n) && Admits(t, Requests.LoginAsRead(u))
      then Creation(RowAsRead(n)) else NoCall
  {
    Requests.CreateUserArrives(u, n, len);
    if Requests.LoginReadable(u) && Requests.UserReadable(n) {
      var chunk := Requests.ServerChunk(Requests.CreateUser(u, n)).value;
      CallerArrives(chunk, "create_user", Requests.LoginAsRead(u), len);
      RowArrives(chunk, n, len);
    }
  }

  lemma CustomerRowArrives(chunk: seq<Assignment>, n: Requests.NewCustomer, len: Length)
    requires Lawful(len) && Requests.CustomerArrives(chunk, n, len)
    ensures NewCustomerRow(chunk, len) ==
      if n.telephone <= INT64_MAX then Some(CustomerRow(n.telephone, n.sname, n.name, n.pname)) else None
  {
  }

  function CustomerRowAsRead(n: Requests.NewCustomer): CustomerRow {
    CustomerRow(n.telephone, Requests.AsRead(n.sname), Requests.AsRead(n.name), Requests.AsRead(n.pname))
  }

  lemma {:induction false} CustomerCreationServed(t: Tables, u: Requests.UserLogin, n: Requests.NewCustomer,
      len: Length)
    requires Lawful(len) && Requests.RawLogin(u) && Requests.RawCustomer(n)
    ensures Served(t, Requests.CreateCustomer(u, n), len) ==
      if Requests.LoginReadable(u) && Requests.CustomerReadable(n) && n.telephone <= INT64_MAX
         && LetsIn(t, Requests.LoginAsRead(u), ["Employee", "Admin"])
      then CustomerCreation(CustomerRowAsRead(n)) else NoCall
  {
    Requests.CreateCustomerArrives(u, n, len);
    if Requests.LoginReadable(u) && Requests.CustomerReadable(n) {
      var chunk := Requests.ServerChunk(Requests.CreateCustomer(u, n)).value;
      CallerArrives(chunk, "create_customer", Requests.LoginAsRead(u), len);
      CustomerRowArrives(chunk, Requests.CustomerAsRead(n), len);
    }
  }

  // --------------------------------------------------- what they leave in the tables

  /** Whoever sends these credentials, as Lua reads them, is a user of one of the ranks. */
  predicate SentBy(t: Tables, u: Requests.UserLogin, ranks: seq<string>) {
    && Requests.Readable(u.login) && Requests.Readable(u.password) && Requests.Readable(u.rank)
    && Requests.AsRead(u.rank) in ranks
    && exists v, r :: v in t.users && r in t.ranks && v.rank == r.id && r.name == Requests.AsRead(u.rank)
         && v.login == Requests.AsRead(u.login) && v.password == Requests.AsRead(u.password)
  }

  lemma SentByExactly(t: Tables, u: Requests.UserLogin, ranks: seq<string>)
    ensures SentBy(t, u, ranks) <==> Requests.LoginReadable(u) && LetsIn(t, Requests.LoginAsRead(u), ranks)
  {
    CheckUserExactly(t, Requests.AsRead(u.login), Requests.AsRead(u.password), Requests.AsRead(u.rank));
  }

  /** The text of CreateUser, all the way: it succeeds exactly if an administrator sends it,
      the fields are readable, the login is new and the rank exists; then the last row holds
      the six fields as read and the earlier rows are unchanged, and otherwise all rows are. */
  lemma {:induction false} UserStored(t: Tables, u: Requests.UserLogin, n: Requests.NewUser, len: Length)
    requires Lawful(len) && Requests.RawLogin(u) && Requests.RawUser(n) && FitsInt(n.rank)
    ensures var (t', success) := Performed(t, Served(t, Requests.CreateUser(u, n), len));
      && (success <==>
            && SentBy(t, u, ["Admin"]) && Requests.UserReadable(n)
            && (forall v :: v in t.users ==> v.login != Requests.AsRead(n.login))
            && exists r :: r in t.ranks && r.id == n.rank)
      && t' == if success
           then t.(users := t.users + [UserRow(Requests.AsRead(n.login), Requests.AsRead(n.password),
                     Requests.AsRead(n.sname), Requests.AsRead(n.name), Requests.AsRead(n.pname), n.rank)])
           else t
  {
    CreationServed(t, u, n, len);
    SentByExactly(t, u, ["Admin"]);
    CreateUserExactly(t, 0, RowAsRead(n));
  }

  /** And from then on that login is let in with that password and that rank's name, and with
      nothing else. */
  lemma {:induction false} UserLogsIn(t: Tables, u: Requests.UserLogin, n: Requests.NewUser, password: string,
      rank: string, len: Length)
    requires Lawful(len) && Requests.RawLogin(u) && Requests.RawUser(n) && FitsInt(n.rank)
    requires Performed(t, Served(t, Requests.CreateUser(u, n), len)).1
    ensures var t' := Performed(t, Served(t, Requests.CreateUser(u, n), len)).0;
      CheckUserExists(t', Requests.AsRead(n.login), password, rank) <==>
        password == Requests.AsRead(n.password) && exists r :: r in t.ranks && r.id == n.rank && r.name == rank
  {
    CreationServed(t, u, n, len);
    CreatedCanLogIn(t, RowAsRead(n), password, rank);
  }

  /** The same for CreateCustomer, which employees may send too. */
  lemma {:induction false} CustomerStored(t: Tables, u: Requests.UserLogin, n: Requests.NewCustomer, len: Length)
    requires Lawful(len) && Requests.RawLogin(u) && Requests.RawCustomer(n)
    ensures var (t', success) := Performed(t, Served(t, Requests.CreateCustomer(u, n), len));
      && (success <==>
            && SentBy(t, u, ["Employee", "Admin"]) && Requests.CustomerReadable(n)
            && n.telephone <= 0x7fff_ffff_ffff_ffff && forall c :: c in t.customers ==> c.telephone != n.telephone)
      && t' == if success
           then t.(customers := t.customers + [CustomerRow(n.telephone, Requests.AsRead(n.sname),
                     Requests.AsRead(n.name), Requests.AsRead(n.pname))])
           else t
  {
    CustomerCreationServed(t, u, n, len);
    SentByExactly(t, u, ["Employee", "Admin"]);
    CustomerPerformed(t, CustomerRowAsRead(n));
  }

  lemma CustomerPerformed(t: Tables, c: CustomerRow)
    requires c.telephone >= 0
    ensures var (t', success) := Performed(t, CustomerCreation(c));
      && (success <==> forall d :: d in t.customers ==> d.telephone != c.telephone)
      && t' == if success then t.(customers := t.customers + [c]) else t
  {
    CreateCustomerExactly(t, 0, c);
  }

  /** The text of DeleteUser: the user with the login as read is gone, the others stay. */
  lemma {:induction false} UserDeleted(t: Tables, u: Requests.UserLogin, login: string, len: Length)
    requires Lawful(len) && Requests.RawLogin(u) && QuoteFree(login)
    ensures var (t', success) := Performed(t, Served(t, Requests.DeleteUser(u, login), len));
      && (success <==> SentBy(t, u, ["Admin"]) && Requests.Readable(login))
      && t' == t.(users := t'.users)
      && forall v :: v in t'.users <==> v in t.users && (success ==> v.login != Requests.AsRead(login))
  {
    DeletionServed(t, u, login, len);
    SentByExactly(t, u, ["Admin"]);
  }
}
