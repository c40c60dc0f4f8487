/** The admin client's list against the server's table over whole runs: every request as the
    text the client pastes together, every reply as the blocks that come back. */
module AdminRuns {
  import opened Prelude
  import opened Schema
  import opened Integrity
  import opened LuaPrinter
  import opened LuaMeaning
  import opened LuaRaw
  import opened QueryReply
  import opened UsersCache
  import opened UserRequests
  import Requests = ClientRequests

  /** Who is logged in, and the client's length operator. */
  datatype Session = Session(caller: Requests.UserLogin, len: Length)

  /** Credentials that stand between their quotes, a lawful operator. */
  ghost predicate Usable(w: Session) { Requests.RawLogin(w.caller) && Lawful(w.len) }

  /** A refresh with the rows in the order the server lists them and the table they are
      printed from; a creation with the hash of the password; a deletion of a row. Each with
      the response line and the blocks that came. */
  datatype AdminEvent =
    | Refreshes(rows: seq<UserItem>, v: Value, message: string, blocks: seq<string>)
    | Creates(item: UserItem, hash: string, message: string, blocks: seq<string>)
    | Deletes(index: nat, message: string, blocks: seq<string>)

  function NewUserOf(c: Client, item: UserItem, hash: string): Requests.NewUser {
    Requests.NewUser(item.login, hash, item.sname, item.name, item.pname, RankOf(c.ranks, item.rank))
  }

  /** The request text of an event. */
  function TextOfEvent(c: Client, e: AdminEvent, w: Session): string
    requires e.Deletes? ==> e.index < |c.users|
  {
    match e
    case Refreshes(_, _, _, _) => Requests.GetUsers(w.caller)
    case Creates(item, hash, _, _) => Requests.CreateUser(w.caller, NewUserOf(c, item, hash))
    case Deletes(index, _, _) => Requests.DeleteUser(w.caller, c.users[index].login)
  }

  ghost function CallOfEvent(c: Client, t: Tables, e: AdminEvent, w: Session): Call
    requires Lawful(w.len) && (e.Deletes? ==> e.index < |c.users|)
  {
    Served(t, TextOfEvent(c, e, w), w.len)
  }

  /** Fields that stand between their quotes. */
  predicate RawItem(u: UserItem) { QuoteFree(u.login) && QuoteFree(u.sname) && QuoteFree(u.name) && QuoteFree(u.pname) }

  predicate IsHash(s: string) { |s| == 64 && forall i :: 0 <= i < 64 ==> '0' <= s[i] <= '9' || 'a' <= s[i] <= 'f' }

  lemma HashIsGood(hash: string)
    requires IsHash(hash)
    ensures Requests.GoodText(hash)
  {
  }

  /** The reply is the one the call gets: rows for a listing, otherwise a line that says
      "success" exactly if the call succeeded. */
  ghost predicate Answered(t: Tables, call: Call, e: AdminEvent) {
    if e.Refreshes? && call.Listing? then
      multiset(e.rows) == multiset(ServerUsers(t)) && Sent(e.rows, e.v, e.blocks)
    else Replies(e.message, e.blocks) && (e.message == "success" <==> Performed(t, call).1)
  }

  ghost predicate Possible(c: Client, t: Tables, e: AdminEvent, w: Session) {
    && Usable(w)
    && (e.Creates? ==> RawItem(e.item) && IsHash(e.hash))
    && (e.Deletes? ==> e.index < |c.users| && QuoteFree(c.users[e.index].login))
    && Answered(t, CallOfEvent(c, t, e, w), e)
  }

  /** One request and its reply, handled before the next. */
  ghost function Next(c: Client, t: Tables, e: AdminEvent, w: Session): (Client, Tables)
    requires Possible(c, t, e, w)
  {
    var t' := Performed(t, CallOfEvent(c, t, e, w)).0;
    var heard := ResponseIn(e.blocks, w.len) == Str("success");
    match e
    case Refreshes(_, _, _, blocks) => (AfterRefresh(c, RefreshedBy(blocks, w.len)), t')
    case Creates(item, _, _, _) =>
      var asked := c.(ranks := c.ranks[item.rank := RankOf(c.ranks, item.rank)]);
      (if heard then Added(asked, item) else asked, t')
    case Deletes(index, _, _) => (if heard then Removed(c, index) else c, t')
  }

  /** What every event keeps, agreement or not. */
  ghost predicate InStep(c: Client, t: Tables) {
    && Consistent(t) && RanksAgree(c.ranks, t) && c.announced == |c.users|
    && forall name :: name in c.ranks ==> FitsInt(c.ranks[name])
  }

  // ------------------------------------------------------------- when agreement stays

  /** No backslash in what a row shows. */
  predicate Unescaped(u: UserItem) {
    '\\' !in u.login && '\\' !in u.sname && '\\' !in u.name && '\\' !in u.pname
  }

  /** The server refuses, or it and the client come to the same change: the reply arrives and
      no shown field holds a backslash; or the reply to a deletion is lost and nobody has the
      login the server read. */
  ghost predicate Harmless(c: Client, t: Tables, e: AdminEvent, w: Session)
    requires Possible(c, t, e, w)
  {
    match e
    case Refreshes(_, _, _, _) => true
    case Creates(item, _, message, blocks) => message != "success" || (ArrivesWhole(message, blocks) && Unescaped(item))
    case Deletes(index, message, blocks) =>
      || message != "success"
      || (if ArrivesWhole(message, blocks) then '\\' !in c.users[index].login
          else forall u :: u in t.users ==> u.login != Requests.AsRead(c.users[index].login))
  }

  lemma ReadIsShown(s: string)
    requires Requests.Readable(s)
    ensures Requests.AsRead(s) == s <==> '\\' !in s
  {
    UnescapeShrinks(s);
  }

  // ---------------------------------------------------------------- refreshes

  /** A refresh gets through if the caller is admitted and the reply gets through. */
  ghost predicate GotThrough(c: Client, t: Tables, e: AdminEvent, w: Session)
    requires Lawful(w.len)
  {
    e.Refreshes? && CallOfEvent(c, t, e, w).Listing? && GetsThrough(e.rows, e.v, e.blocks)
  }

  /** A refresh that gets through makes the list the rows the server sent, in their order,
      and so brings about the agreement; one that is refused, cut off or unreadable leaves
      the client as it was. */
  lemma {:induction false} RefreshAgrees(c: Client, t: Tables, e: AdminEvent, w: Session)
    requires e.Refreshes? && InStep(c, t) && Possible(c, t, e, w)
    ensures var (c', t') := Next(c, t, e, w);
      && t' == t && InStep(c', t)
      && if GotThrough(c, t, e, w)
         then c'.users == e.rows && c'.announced == |e.rows| && c'.ranks == c.ranks && Agrees(c', t)
         else c' == c
  {
    ListingServed(t, w.caller, w.len);
    if CallOfEvent(c, t, e, w).Listing? {
      UsersEndToEnd(e.rows, e.v, e.blocks, w.len);
    } else {
      RefusalBringsNothing(e.message, e.blocks, "users", w.len);
    }
  }

  // ---------------------------------------------------------------- creations

  lemma RankFits(c: Client, t: Tables, name: string)
    requires InStep(c, t)
    ensures FitsInt(RankOf(c.ranks, name))
  {
  }

  /** A creation the server carries out inserts the row Lua read. */
  lemma CreationPerformed(c: Client, t: Tables, e: AdminEvent, w: Session)
    requires e.Creates? && InStep(c, t) && Possible(c, t, e, w)
    ensures var row := RowAsRead(NewUserOf(c, e.item, e.hash));
      if e.message == "success"
      then Requests.UserReadable(NewUserOf(c, e.item, e.hash)) && CreateUser(t, row) == Done(Next(c, t, e, w).1)
      else Next(c, t, e, w).1 == t
  {
    var n := NewUserOf(c, e.item, e.hash);
    RankFits(c, t, e.item.rank);
    HashIsGood(e.hash);
    CreationServed(t, w.caller, n, w.len);
  }

  /** The row the server lists after the creation. */
  function ItemAsRead(u: UserItem): UserItem {
    UserItem(Requests.AsRead(u.login), Requests.AsRead(u.sname), Requests.AsRead(u.name), Requests.AsRead(u.pname),
      u.rank)
  }

  lemma ShownAsRead(c: Client, item: UserItem, hash: string)
    requires Requests.UserReadable(NewUserOf(c, item, hash))
    ensures ItemAsRead(item) == item <==> Unescaped(item)
  {
    ReadIsShown(item.login);
    ReadIsShown(item.sname);
    ReadIsShown(item.name);
    ReadIsShown(item.pname);
  }

  lemma RowListed(c: Client, t: Tables, item: UserItem, hash: string)
    requires InStep(c, t) && CreateUser(t, RowAsRead(NewUserOf(c, item, hash))).Done?
    ensures var t' := CreateUser(t, RowAsRead(NewUserOf(c, item, hash))).tables;
      Consistent(t') && t'.ranks == t.ranks && ServerUsers(t') == ServerUsers(t) + [ItemAsRead(item)]
  {
    var u := RowAsRead(NewUserOf(c, item, hash));
    CreateUserKeeps(t, u);
    OneMoreRow(t, CreateUser(t, u).tables, u, ItemAsRead(item));
  }

  lemma OneMoreEach(xs: seq<UserItem>, ys: seq<UserItem>, x: UserItem, y: UserItem)
    requires multiset(xs) == multiset(ys)
    ensures multiset(xs + [x]) == multiset(ys + [y]) <==> x == y
    ensures multiset(xs) != multiset(ys + [y])
  {
    assert multiset(xs + [x]) == multiset(xs) + multiset{x} && multiset(ys + [y]) == multiset(ys) + multiset{y};
    assert |multiset(ys + [y])| == |ys| + 1 && |multiset(ys)| == |ys|;
    if x != y {
      assert (multiset(xs) + multiset{x})[x] == multiset(xs)[x] + 1;
      assert (multiset(ys) + multiset{y})[x] == multiset(ys)[x];
    }
  }

  lemma {:induction false} CreateKeeps(c: Client, t: Tables, e: AdminEvent, w: Session)
    requires e.Creates? && InStep(c, t) && Possible(c, t, e, w)
    ensures var (c', t') := Next(c, t, e, w); InStep(c', t')
  {
    RankFits(c, t, e.item.rank);
    CreationPerformed(c, t, e, w);
    if e.message == "success" { RowListed(c, t, e.item, e.hash); }
    var (c', t') := Next(c, t, e, w);
    ClientInStep(c, t, e.item, t');
    assert c'.announced == |c'.users|;
  }

  /** The rank looked up is entered with the id it has on the server, or with 0. */
  lemma {:induction false} ClientInStep(c: Client, t: Tables, item: UserItem, t': Tables)
    requires InStep(c, t) && Consistent(t') && t'.ranks == t.ranks
    ensures InStep(c.(ranks := c.ranks[item.rank := RankOf(c.ranks, item.rank)]), t')
  {
  }

  /** A creation keeps the agreement exactly if it is harmless. */
  lemma {:induction false} CreateAgreesExactly(c: Client, t: Tables, e: AdminEvent, w: Session)
    requires e.Creates? && InStep(c, t) && Possible(c, t, e, w) && Agrees(c, t)
    ensures var (c', t') := Next(c, t, e, w); Agrees(c', t') <==> Harmless(c, t, e, w)
  {
    CreationPerformed(c, t, e, w);
    ResponseOutcome(e.message, e.blocks, w.len);
    if e.message == "success" {
      RowListed(c, t, e.item, e.hash);
      ShownAsRead(c, e.item, e.hash);
      OneMoreEach(c.users, ServerUsers(t), e.item, ItemAsRead(e.item));
    }
  }

  // ---------------------------------------------------------------- deletions

  lemma DeletionPerformed(c: Client, t: Tables, e: AdminEvent, w: Session)
    requires e.Deletes? && Possible(c, t, e, w)
    ensures var login := c.users[e.index].login; var t' := Next(c, t, e, w).1;
      if e.message == "success" then Requests.Readable(login) && t' == DeleteUser(t, Requests.AsRead(login))
      else t' == t
  {
    DeletionServed(t, w.caller, c.users[e.index].login, w.len);
  }

  lemma {:induction false} DeleteKeeps(c: Client, t: Tables, e: AdminEvent, w: Session)
    requires e.Deletes? && InStep(c, t) && Possible(c, t, e, w)
    ensures var (c', t') := Next(c, t, e, w); InStep(c', t')
  {
    DeletionPerformed(c, t, e, w);
    DeleteUserKeeps(t, Requests.AsRead(c.users[e.index].login));
  }

  /** Who does not have the login stays listed; if nobody has it, all stay. */
  lemma OthersStay(t: Tables, login: string, x: UserItem)
    requires Consistent(t) && x in ServerUsers(t) && x.login != login
    ensures x in ServerUsers(DeleteUser(t, login))
  {
    ServerUsersAfter(t, login);
  }

  lemma ServerUsersAfter(t: Tables, login: string)
    ensures ServerUsers(DeleteUser(t, login)) == Filter(ServerUsers(t), LoginDiffers(login))
  {
    DeletedRows(t.users, t.ranks, login);
    var t' := DeleteUser(t, login);
    assert ServerUsers(t) == ItemsListed(Join(t.users, t.ranks, RankOfUser));
    assert ServerUsers(t') == ItemsListed(Join(t'.users, t'.ranks, RankOfUser));
  }

  lemma NobodyDeleted(t: Tables, login: string)
    requires forall u :: u in t.users ==> u.login != login
    ensures DeleteUser(t, login) == t
  {
    FilterAll(t.users, LoginIsNot(login));
  }

  lemma SomebodyDeleted(t: Tables, login: string, u: UserRow)
    requires Consistent(t) && u in t.users && u.login == login
    ensures |ServerUsers(DeleteUser(t, login))| < |ServerUsers(t)|
  {
    ServerUsersByRow(t);
    var i :| 0 <= i < |t.users| && t.users[i] == u;
    var x := ServerUsers(t)[i];
    assert x.login == login && x in ServerUsers(t);
    ServerDeletes(t, x);
    var t' := DeleteUser(t, login);
    assert x in multiset(ServerUsers(t));
    assert |multiset(ServerUsers(t'))| == |multiset(ServerUsers(t))| - 1;
  }

  /** The client drops a row the server still lists. */
  lemma DroppedWrongly(c: Client, t: Tables, index: nat, login: string)
    requires Consistent(t) && Agrees(c, t) && index < |c.users| && c.users[index].login != login
    ensures !Agrees(Removed(c, index), DeleteUser(t, login))
  {
    var x := c.users[index];
    assert x in multiset(c.users) && x in multiset(ServerUsers(t));
    OthersStay(t, login, x);
    ClientRemoves(c.users, index);
    ServerUsersByRow(t);
    ListedOnce(ServerUsers(t), x);
    assert x in multiset(ServerUsers(DeleteUser(t, login)));
  }

  lemma {:induction false} ListedOnce(xs: seq<UserItem>, x: UserItem)
    requires Distinct(xs, ItemLogin) && x in xs
    ensures multiset(xs)[x] == 1
  {
    var i :| 0 <= i < |xs| && xs[i] == x;
    var a, b := xs[..i], xs[i + 1..];
    assert xs == a + [x] + b;
    forall j | 0 <= j < |a| ensures a[j] != x { assert ItemLogin(xs[j]) != ItemLogin(xs[i]); }
    forall j | 0 <= j < |b| ensures b[j] != x { assert ItemLogin(xs[i]) != ItemLogin(xs[i + 1 + j]); }
  }

  /** A deletion keeps the agreement exactly if it is harmless. */
  lemma DeleteAgreesExactly(c: Client, t: Tables, e: AdminEvent, w: Session)
    requires e.Deletes? && InStep(c, t) && Possible(c, t, e, w) && Agrees(c, t)
    ensures var (c', t') := Next(c, t, e, w); Agrees(c', t') <==> Harmless(c, t, e, w)
  {
    var login := c.users[e.index].login;
    DeletionPerformed(c, t, e, w);
    ResponseOutcome(e.message, e.blocks, w.len);
    if e.message == "success" {
      ReadIsShown(login);
      if ArrivesWhole(e.message, e.blocks) {
        HeardDeletion(c, t, e.index, Requests.AsRead(login));
      } else {
        UnheardDeletion(c, t, Requests.AsRead(login));
      }
    }
  }

  lemma HeardDeletion(c: Client, t: Tables, index: nat, login: string)
    requires Consistent(t) && Agrees(c, t) && index < |c.users|
    ensures Agrees(Removed(c, index), DeleteUser(t, login)) <==> login == c.users[index].login
  {
    if login == c.users[index].login {
      DeleteAgrees(c, t, index);
    } else {
      DroppedWrongly(c, t, index, login);
    }
  }

  lemma UnheardDeletion(c: Client, t: Tables, login: string)
    requires Consistent(t) && Agrees(c, t)
    ensures Agrees(c, DeleteUser(t, login)) <==> forall u :: u in t.users ==> u.login != login
  {
    if forall u :: u in t.users ==> u.login != login {
      NobodyDeleted(t, login);
    } else {
      var u :| u in t.users && u.login == login;
      SomebodyDeleted(t, login, u);
      assert |multiset(c.users)| == |multiset(ServerUsers(t))|;
    }
  }

  // ------------------------------------------------------------------ whole runs

  /** One event keeps the agreement exactly if it is harmless, and a refresh that gets
      through brings it about. */
  lemma {:induction false} StepAgreesExactly(c: Client, t: Tables, e: AdminEvent, w: Session)
    requires InStep(c, t) && Possible(c, t, e, w)
    ensures var (c', t') := Next(c, t, e, w);
      && InStep(c', t') && (GotThrough(c, t, e, w) ==> Agrees(c', t'))
      && (Agrees(c, t) ==> (Agrees(c', t') <==> Harmless(c, t, e, w)))
  {
    match e
    case Refreshes(_, _, _, _) => RefreshAgrees(c, t, e, w);
    case Creates(_, _, _, _) =>
      CreateKeeps(c, t, e, w);
      if Agrees(c, t) { CreateAgreesExactly(c, t, e, w); }
    case Deletes(_, _, _) =>
      DeleteKeeps(c, t, e, w);
      if Agrees(c, t) { DeleteAgreesExactly(c, t, e, w); }
  }

  ghost predicate Follows(before: (Client, Tables), e: AdminEvent, after: (Client, Tables), w: Session) {
    Possible(before.0, before.1, e, w) && after == Next(before.0, before.1, e, w)
  }

  /** A run: the states of client and server around each event. */
  ghost predicate Run(states: seq<(Client, Tables)>, es: seq<AdminEvent>, w: Session) {
    |states| == |es| + 1 && forall i :: 0 <= i < |es| ==> Follows(states[i], es[i], states[i + 1], w)
  }

  ghost predicate InStepAt(s: (Client, Tables)) { InStep(s.0, s.1) }
  ghost predicate AgreesAt(s: (Client, Tables)) { Agrees(s.0, s.1) }

  ghost predicate GotThroughAt(s: (Client, Tables), e: AdminEvent, w: Session) {
    Lawful(w.len) && GotThrough(s.0, s.1, e, w)
  }

  ghost predicate HarmlessAt(s: (Client, Tables), e: AdminEvent, w: Session) {
    Possible(s.0, s.1, e, w) && Harmless(s.0, s.1, e, w)
  }

  lemma {:induction false} StepKeeps(before: (Client, Tables), e: AdminEvent, after: (Client, Tables), w: Session)
    requires InStepAt(before) && Follows(before, e, after, w)
    ensures InStepAt(after)
    ensures GotThroughAt(before, e, w) ==> AgreesAt(after)
    ensures AgreesAt(before) ==> (AgreesAt(after) <==> HarmlessAt(before, e, w))
  {
    StepAgreesExactly(before.0, before.1, e, w);
  }

  lemma {:induction false} EventKeeps(states: seq<(Client, Tables)>, es: seq<AdminEvent>, n: nat, w: Session)
    requires Run(states, es, w) && n < |es| && InStepAt(states[n])
    ensures InStepAt(states[n + 1])
    ensures GotThroughAt(states[n], es[n], w) ==> AgreesAt(states[n + 1])
    ensures AgreesAt(states[n]) ==> (AgreesAt(states[n + 1]) <==> HarmlessAt(states[n], es[n], w))
  {
    assert Follows(states[n], es[n], states[n + 1], w);
    StepKeeps(states[n], es[n], states[n + 1], w);
  }

  lemma {:induction false} RunKeeps(states: seq<(Client, Tables)>, es: seq<AdminEvent>, n: nat, w: Session)
    requires Run(states, es, w) && InStepAt(states[0]) && n <= |es|
    ensures InStepAt(states[n])
  {
    if n > 0 {
      RunKeeps(states, es, n - 1, w);
      EventKeeps(states, es, n - 1, w);
    }
  }

  lemma {:induction false} Lasts<S>(states: seq<S>, p: S -> bool, k: nat, n: nat)
    requires k <= n < |states| && p(states[k]) && forall i :: k <= i < n && p(states[i]) ==> p(states[i + 1])
    ensures p(states[n])
    decreases n
  {
    if n > k {
      Lasts(states, p, k, n - 1);
      assert p(states[n - 1]) ==> p(states[n - 1 + 1]);
    }
  }

  /** Over any run of refreshes, creations and deletions, replies handled one at a time:
      after a refresh that got through, the client's list equals the server's join and the
      announced row count its length as long as every event since was harmless. */
  lemma {:induction false} CacheAgrees(states: seq<(Client, Tables)>, es: seq<AdminEvent>, k: nat, n: nat, w: Session)
    requires Run(states, es, w) && InStepAt(states[0]) && k < n <= |es| && GotThroughAt(states[k], es[k], w)
    requires forall i :: k < i < n ==> HarmlessAt(states[i], es[i], w)
    ensures AgreesAt(states[n])
  {
    RunKeeps(states, es, k, w);
    EventKeeps(states, es, k, w);
    forall i | k + 1 <= i < n && AgreesAt(states[i]) ensures AgreesAt(states[i + 1]) {
      RunKeeps(states, es, i, w);
      EventKeeps(states, es, i, w);
    }
    Lasts(states, AgreesAt, k + 1, n);
  }

  /** And the first event since that is not harmless ends the agreement. */
  lemma CacheStops(states: seq<(Client, Tables)>, es: seq<AdminEvent>, k: nat, n: nat, w: Session)
    requires Run(states, es, w) && InStepAt(states[0]) && k < n < |es| && GotThroughAt(states[k], es[k], w)
    requires (forall i :: k < i < n ==> HarmlessAt(states[i], es[i], w)) && !HarmlessAt(states[n], es[n], w)
    ensures !AgreesAt(states[n + 1])
  {
    CacheAgrees(states, es, k, n, w);
    RunKeeps(states, es, n, w);
    EventKeeps(states, es, n, w);
  }

  /** Nothing in the event is read otherwise than it stands, and its reply arrives. */
  predicate PlainEvent(c: Client, e: AdminEvent) {
    match e
    case Refreshes(_, _, _, _) => true
    case Creates(item, _, message, blocks) => Unescaped(item) && ArrivesWhole(message, blocks)
    case Deletes(index, message, blocks) =>
      index < |c.users| && '\\' !in c.users[index].login && ArrivesWhole(message, blocks)
  }

  lemma PlainIsHarmless(c: Client, t: Tables, e: AdminEvent, w: Session)
    requires Possible(c, t, e, w) && PlainEvent(c, e)
    ensures Harmless(c, t, e, w)
  {
  }

  /** In particular the agreement lasts while what is created or deleted holds no backslash
      and the replies arrive. */
  lemma PlainCacheAgrees(states: seq<(Client, Tables)>, es: seq<AdminEvent>, k: nat, n: nat, w: Session)
    requires Run(states, es, w) && InStepAt(states[0]) && k < n <= |es| && GotThroughAt(states[k], es[k], w)
    requires forall i :: k < i < n ==> PlainEvent(states[i].0, es[i])
    ensures AgreesAt(states[n])
  {
    forall i | k < i < n ensures HarmlessAt(states[i], es[i], w) {
      assert Follows(states[i], es[i], states[i + 1], w);
      PlainIsHarmless(states[i].0, states[i].1, es[i], w);
    }
    CacheAgrees(states, es, k, n, w);
  }
}
