/** The admin client's list of users: changed in place from the server's replies,
    announced to its views, and kept equal to the table it mirrors. */
module UsersCache {
  import opened Prelude
  import opened Schema
  import opened LuaPrinter
  import opened LuaMeaning
  import opened LuaSyntax
  import opened Framing
  import opened QueryReply

  datatype UserItem = UserItem(login: string, sname: string, name: string, pname: string, rank: string)

  // ------------------------------------------------------ reading a reply table

  function TextField(row: Value, name: string): Option<string> {
    if !row.Table? then None
    else match FieldOf(row.entries, name)
      case Some(Str(s)) => Some(s)
      case _ => None
  }

  /** One entry of the reply; a missing field or one that is not a string is an error. */
  function ItemOf(row: Value): Option<UserItem> {
    match (TextField(row, "login"), TextField(row, "sname"), TextField(row, "name"), TextField(row, "pname"),
           TextField(row, "rank"))
    case (Some(login), Some(sname), Some(name), Some(pname), Some(rank)) =>
      Some(UserItem(login, sname, name, pname, rank))
    case _ => None
  }

  function ItemsOf(list: seq<Value>): Option<seq<UserItem>> {
    if list == [] then Some([])
    else match (ItemOf(list[0]), ItemsOf(list[1..]))
      case (Some(item), Some(items)) => Some([item] + items)
      case _ => None
  }

  /** The loop over positions 1..# that collects new_users, or fails as a whole. */
  method ReadUsers(list: seq<Value>) returns (users: Option<seq<UserItem>>)
    ensures users == ItemsOf(list)
  {
    var newUsers: seq<UserItem> := [];
    var i := 0;
    assert list[0..] == list;
    PrependNothing(ItemsOf(list));
    while i < |list|
      invariant i <= |list|
      invariant ItemsOf(list) == Prepend(newUsers, ItemsOf(list[i..]))
    {
      assert list[i..][1..] == list[i + 1..];
      var item := ItemOf(list[i]);
      if item.None? {
        return None;
      }
      PrependTwice(newUsers, [item.value], ItemsOf(list[i + 1..]));
      newUsers := newUsers + [item.value];
      i := i + 1;
    }
    assert newUsers + [] == newUsers;
    return Some(newUsers);
  }

  const USER_COLUMNS: seq<string> := ["login", "sname", "name", "pname", "rank"]

  function CellsOf(u: UserItem): seq<Cell> {
    [TextCell(u.login), TextCell(u.sname), TextCell(u.name), TextCell(u.pname), TextCell(u.rank)]
  }

  function RowsOf(users: seq<UserItem>): (r: seq<seq<Cell>>)
    ensures |r| == |users| && forall i :: 0 <= i < |users| ==> r[i] == CellsOf(users[i])
  {
    seq(|users|, i requires 0 <= i < |users| => CellsOf(users[i]))
  }

  lemma RowReadsBack(v: Value, u: UserItem)
    requires RepresentsRow(v, USER_COLUMNS, CellsOf(u))
    ensures ItemOf(v) == Some(u)
  {
    var cs, row := USER_COLUMNS, CellsOf(u);
    assert Shows(FieldOf(v.entries, cs[0]), row[0]) && Shows(FieldOf(v.entries, cs[1]), row[1]);
    assert Shows(FieldOf(v.entries, cs[2]), row[2]) && Shows(FieldOf(v.entries, cs[3]), row[3]);
    assert Shows(FieldOf(v.entries, cs[4]), row[4]);
  }

  /** A table that represents user rows reads back as those users, in their order; with
      EndToEnd this makes the reply carry the server's rows to the model. */
  lemma {:induction false} RowsReadBack(list: seq<Value>, users: seq<UserItem>)
    requires |list| == |users|
    requires forall i :: 0 <= i < |list| ==> RepresentsRow(list[i], USER_COLUMNS, CellsOf(users[i]))
    ensures ItemsOf(list) == Some(users)
  {
    if list != [] {
      RowReadsBack(list[0], users[0]);
      forall i | 0 <= i < |list[1..]| ensures RepresentsRow(list[1..][i], USER_COLUMNS, CellsOf(users[1..][i])) {
        assert RepresentsRow(list[i + 1], USER_COLUMNS, CellsOf(users[i + 1]));
      }
      RowsReadBack(list[1..], users[1..]);
      assert users == [users[0]] + users[1..];
    }
  }

  predicate GoodUser(u: UserItem) {
    GoodString(u.login) && GoodString(u.sname) && GoodString(u.name) && GoodString(u.pname) && GoodString(u.rank)
  }

  lemma UserColumnsAreGood()
    ensures GoodColumns(USER_COLUMNS) && IsIdentifier("users")
  {
    var words := USER_COLUMNS + ["users"];
    forall i, j | 0 <= i < |RESERVED| && 0 <= j < |words| ensures RESERVED[i] != words[j] {
      assert |RESERVED[i]| != |words[j]| || RESERVED[i][0] != words[j][0] || RESERVED[i][1] != words[j][1]
        || RESERVED[i][2] != words[j][2];
    }
    assert words[5] == "users" && forall j :: 0 <= j < 5 ==> words[j] == USER_COLUMNS[j];
    assert forall i, j :: 0 <= i < j < 5 ==>
      USER_COLUMNS[i][0] != USER_COLUMNS[j][0] || |USER_COLUMNS[i]| != |USER_COLUMNS[j]|;
  }

  lemma GoodUserCells(u: UserItem)
    ensures GoodUser(u) <==> GoodTexts(CellsOf(u))
  {
    var row := CellsOf(u);
    if GoodTexts(row) {
      assert GoodTextCell(row[0]) && GoodTextCell(row[1]) && GoodTextCell(row[2]) && GoodTextCell(row[3])
        && GoodTextCell(row[4]);
    }
  }

  // ------------------------------------------------------- receiving a refresh

  /** What a reply to a refresh turns out to be. */
  datatype Refreshed = BadReply | Rows(users: seq<UserItem>)

  /** What ReceiveRemoteData makes of the blocks that came: rows, or no reply it can use. */
  ghost function RefreshedBy(blocks: seq<string>, len: Length): Refreshed
    requires Lawful(len)
  {
    match Received(blocks, "users", len)
    case Some(Table(_, list)) => (match ItemsOf(list) case None => BadReply case Some(users) => Rows(users))
    case _ => BadReply
  }

  /** The condition under which a refresh gets through: all of the reply came, no field
      holds a line break or NUL, and not two bytes came before the completing block. */
  predicate GetsThrough(users: seq<UserItem>, v: Value, blocks: seq<string>) {
    && (forall i :: 0 <= i < |users| ==> GoodUser(users[i]))
    && Concat(blocks) == ReplyText(v, "users") + CRLF && BytesBeforeCompletion("", blocks, CRLF) != 2
  }

  /** A reply to get_users under way: the queried rows printed and sent in blocks, of which
      some may never come. */
  ghost predicate Sent(users: seq<UserItem>, v: Value, blocks: seq<string>) {
    && Represents(v, USER_COLUMNS, RowsOf(users))
    && Concat(blocks) <= ReplyText(v, "users") + CRLF && forall b :: b in blocks ==> b != ""
  }

  /** From the server's rows to the client's list: printed, framed, sent in any non-empty
      blocks, received, parsed and collected, the users are the users queried, in order, if
      and only if the refresh gets through; otherwise nothing of the reply is used. */
  lemma UsersEndToEnd(users: seq<UserItem>, v: Value, blocks: seq<string>, len: Length)
    requires Lawful(len) && Sent(users, v, blocks)
    ensures RefreshedBy(blocks, len) == if GetsThrough(users, v, blocks) then Rows(users) else BadReply
  {
    UserColumnsAreGood();
    var rows := RowsOf(users);
    GoodUserRows(users);
    if GetsThrough(users, v, blocks) {
      EndToEnd(v, USER_COLUMNS, rows, "users", blocks, len);
      CollectsRows(Received(blocks, "users", len).value, users);
    } else {
      ResultReadable(v, USER_COLUMNS, rows);
      ReplyOutcome(v, "users", blocks, len);
    }
  }

  lemma GoodUserRows(users: seq<UserItem>)
    ensures var rows := RowsOf(users);
      && ((forall i :: 0 <= i < |rows| ==> GoodTexts(rows[i])) <==> forall i :: 0 <= i < |users| ==> GoodUser(users[i]))
      && forall i :: 0 <= i < |rows| && GoodTexts(rows[i]) ==> GoodRow(USER_COLUMNS, rows[i])
  {
    var rows := RowsOf(users);
    forall i | 0 <= i < |rows|
      ensures GoodUser(users[i]) <==> GoodTexts(rows[i])
      ensures GoodTexts(rows[i]) ==> GoodRow(USER_COLUMNS, rows[i])
    {
      GoodUserCells(users[i]);
      assert forall j :: 0 <= j < |rows[i]| && GoodTextCell(rows[i][j]) ==> GoodCell(rows[i][j]);
    }
  }

  lemma CollectsRows(table: Value, users: seq<UserItem>)
    requires Represents(table, USER_COLUMNS, RowsOf(users))
    ensures ItemsOf(table.list) == Some(users)
  {
    forall i | 0 <= i < |users| ensures RepresentsRow(table.list[i], USER_COLUMNS, CellsOf(users[i])) {
      assert RowsOf(users)[i] == CellsOf(users[i]);
    }
    RowsReadBack(table.list, users);
  }

  // --------------------------------------------------------------- the model

  /** `announced` is the row count a view derives from the insert and remove notices. */
  datatype Client = Client(users: seq<UserItem>, announced: int, ranks: map<string, int>)

  class UsersModel {
    var users: seq<UserItem>
    var ranks: map<string, int>
    var announced: int

    function State(): Client
      reads this
    {
      Client(users, announced, ranks)
    }

    constructor ()
      ensures State() == Client([], 0, map[])
    {
      users, ranks, announced := [], map[], 0;
    }

    method SetRanks(newRanks: map<string, int>)
      modifies this`ranks
      ensures ranks == newRanks
    {
      ranks := newRanks;
    }

    method InsertRows(first: int, last: int)
      modifies this`announced
      ensures announced == old(announced) + (last - first + 1)
    {
      announced := announced + (last - first + 1);
    }

    method RemoveRows(first: int, last: int)
      modifies this`announced
      ensures announced == old(announced) - (last - first + 1)
    {
      announced := announced - (last - first + 1);
    }

    /** The success branch of ReceiveRemoteData. */
    method Refresh(reply: Refreshed)
      modifies this
      ensures State() == AfterRefresh(old(State()), reply)
      ensures users == (if reply.Rows? then reply.users else old(users)) && ranks == old(ranks)
      ensures announced - |users| == old(announced - |users|)
    {
      if reply.BadReply? {
        return;
      }
      var newUsers := reply.users;
      if |users| == |newUsers| {
        users := newUsers;
      } else if |users| < |newUsers| {
        InsertRows(|users|, |users| + |newUsers| - |users| - 1);
        users := newUsers;
      } else {
        RemoveRows(|newUsers|, |users| - 1);
        users := users[..|newUsers|];
        for i := 0 to |newUsers|
          invariant |users| == |newUsers|
          invariant users[..i] == newUsers[..i]
          invariant announced == old(announced) - (old(|users|) - |newUsers|) && ranks == old(ranks)
        {
          users := users[i := newUsers[i]];
          assert users[..i + 1] == users[..i] + [newUsers[i]];
          assert newUsers[..i + 1] == newUsers[..i] + [newUsers[i]];
        }
        assert users == users[..|newUsers|] && newUsers == newUsers[..|newUsers|];
      }
    }

    /** QMap's operator[]: a missing name is entered with 0. */
    method RankId(name: string) returns (id: int)
      modifies this`ranks
      ensures id == RankOf(old(ranks), name) && ranks == old(ranks)[name := id]
      ensures id == if name in old(ranks) then old(ranks)[name] else 0
    {
      if name !in ranks {
        ranks := ranks[name := 0];
      }
      id := ranks[name];
    }

    /** The reply to a create request. */
    method UserAdded(item: UserItem, success: bool)
      modifies this
      ensures State() == if success then Added(old(State()), item) else old(State())
      ensures users == (if success then old(users) + [item] else old(users)) && ranks == old(ranks)
      ensures announced - |users| == old(announced - |users|)
    {
      if success {
        InsertRows(|users|, |users|);
        users := users + [item];
      }
    }

    /** The reply to a delete request for row `index`, which was in range when the request
        was sent. If the list has shrunk below it since, removeAt is called out of range. */
    method UserRemoved(index: nat, success: bool) returns (inRange: bool)
      modifies this
      ensures inRange <==> !success || index < old(|users|)
      ensures State() == if success && index < old(|users|) then Removed(old(State()), index) else old(State())
      ensures success && index < old(|users|) ==> users == old(users)[..index] + old(users)[index + 1..]
      ensures !success || index >= old(|users|) ==> users == old(users)
      ensures ranks == old(ranks) && announced - |users| == old(announced - |users|)
    {
      inRange := !success || index < |users|;
      if success && inRange {
        RemoveRows(index, index);
        users := users[..index] + users[index + 1..];
      }
    }
  }

  function AfterRefresh(c: Client, reply: Refreshed): Client {
    match reply
    case BadReply => c
    case Rows(users) => c.(users := users, announced := c.announced + (|users| - |c.users|))
  }

  function RankOf(ranks: map<string, int>, name: string): int { if name in ranks then ranks[name] else 0 }

  function Added(c: Client, item: UserItem): Client { c.(users := c.users + [item], announced := c.announced + 1) }

  function Removed(c: Client, index: nat): Client
    requires index < |c.users|
  {
    c.(users := c.users[..index] + c.users[index + 1..], announced := c.announced - 1)
  }

  // ----------------------------------------------------- client and server

  function UserRank(u: UserRow): int { u.rank }
  function ItemLogin(u: UserItem): string { u.login }
  function Listed(p: (UserRow, RankRow)): UserItem { UserItem(p.0.login, p.0.sname, p.0.name, p.0.pname, p.1.name) }

  /** GetUsers: User joined with UserRank. */
  function ServerUsers(t: Tables): (r: seq<UserItem>)
    ensures var j := Join(t.users, t.ranks, RankOfUser); |r| == |j| && forall i :: 0 <= i < |j| ==> r[i] == Listed(j[i])
  {
    var j := Join(t.users, t.ranks, RankOfUser);
    seq(|j|, i requires 0 <= i < |j| => Listed(j[i]))
  }

  lemma ServerUsersByRow(t: Tables)
    requires PrimaryKeys(t) && ForeignKeys(t)
    ensures |ServerUsers(t)| == |t.users|
    ensures forall i :: 0 <= i < |t.users| ==>
      exists r :: r in t.ranks && r.id == t.users[i].rank && ServerUsers(t)[i] == Listed((t.users[i], r))
    ensures Distinct(ServerUsers(t), ItemLogin)
  {
    JoinAlongKey(t.users, t.ranks, RankOfUser, UserRank, RankId);
    var j := Join(t.users, t.ranks, RankOfUser);
    forall a, b | 0 <= a < b < |ServerUsers(t)| ensures ItemLogin(ServerUsers(t)[a]) != ItemLogin(ServerUsers(t)[b]) {
      assert UserLogin(t.users[a]) != UserLogin(t.users[b]);
    }
  }

  /** The client's rank names agree with the server's ids, and no rank has id 0. */
  ghost predicate RanksAgree(ranks: map<string, int>, t: Tables) {
    && (forall r :: r in t.ranks ==> r.id != 0)
    && (forall name, r :: name in ranks && r in t.ranks && r.id == ranks[name] ==> r.name == name)
  }

  /** Rows may come in any order, so the two lists agree as multisets. */
  ghost predicate Agrees(c: Client, t: Tables) {
    && multiset(c.users) == multiset(ServerUsers(t))
    && c.announced == |c.users|
  }

  /** Rows that were there before join as before. */
  lemma OldRowsSame(t: Tables, t': Tables, u: UserRow, i: nat)
    requires PrimaryKeys(t) && ForeignKeys(t) && PrimaryKeys(t') && ForeignKeys(t')
    requires t' == t.(users := t.users + [u]) && i < |t.users|
    ensures i < |ServerUsers(t)| && i < |ServerUsers(t')| && ServerUsers(t')[i] == ServerUsers(t)[i]
  {
    ServerUsersByRow(t);
    ServerUsersByRow(t');
    assert t'.users[i] == t.users[i];
    var r :| r in t.ranks && r.id == t.users[i].rank && ServerUsers(t)[i] == Listed((t.users[i], r));
    var q :| q in t.ranks && q.id == t.users[i].rank && ServerUsers(t')[i] == Listed((t.users[i], q));
    DistinctSame(t.ranks, RankId, r, q);
  }

  /** The new row joins with the rank the client named. */
  lemma OneMoreRow(t: Tables, t': Tables, u: UserRow, item: UserItem)
    requires PrimaryKeys(t) && ForeignKeys(t) && PrimaryKeys(t') && ForeignKeys(t')
    requires t' == t.(users := t.users + [u])
    requires item.login == u.login && item.sname == u.sname && item.name == u.name && item.pname == u.pname
    requires forall r :: r in t.ranks && r.id == u.rank ==> r.name == item.rank
    ensures ServerUsers(t') == ServerUsers(t) + [item]
  {
    var n := |t.users|;
    forall i | 0 <= i < n
      ensures i < |ServerUsers(t)| && i < |ServerUsers(t')| && ServerUsers(t')[i] == ServerUsers(t)[i]
    {
      OldRowsSame(t, t', u, i);
    }
    ServerUsersByRow(t);
    ServerUsersByRow(t');
    assert t'.users[n] == u;
    var r :| r in t.ranks && r.id == u.rank && ServerUsers(t')[n] == Listed((u, r));
  }

  lemma {:induction false} WithoutOne(xs: seq<UserItem>, x: UserItem)
    requires Distinct(xs, ItemLogin) && x in xs
    ensures multiset(Filter(xs, LoginDiffers(x.login))) == multiset(xs) - multiset{x}
  {
    var rest := xs[1..];
    assert xs == [xs[0]] + rest;
    forall i, j | 0 <= i < j < |rest| ensures ItemLogin(rest[i]) != ItemLogin(rest[j]) {
      assert ItemLogin(xs[i + 1]) != ItemLogin(xs[j + 1]);
    }
    if xs[0].login == x.login {
      DistinctSame(xs, ItemLogin, xs[0], x);
      forall y | y in rest ensures y.login != x.login {
        var i :| 0 <= i < |rest| && rest[i] == y;
        assert ItemLogin(xs[0]) != ItemLogin(xs[i + 1]);
      }
      FilterAll(rest, LoginDiffers(x.login));
    } else {
      WithoutOne(rest, x);
    }
  }

  function LoginDiffers(login: string): UserItem -> bool { (u: UserItem) => u.login != login }

  lemma {:induction false} DeletedRows(users: seq<UserRow>, ranks: seq<RankRow>, login: string)
    ensures ItemsListed(Join(Filter(users, LoginIsNot(login)), ranks, RankOfUser))
         == Filter(ItemsListed(Join(users, ranks, RankOfUser)), LoginDiffers(login))
  {
    if users != [] {
      var p := Partners(users[0], ranks, RankOfUser);
      DeletedRows(users[1..], ranks, login);
      ItemsListedAppend(p, Join(users[1..], ranks, RankOfUser));
      ItemsListedAppend(p, Join(Filter(users[1..], LoginIsNot(login)), ranks, RankOfUser));
      FilterAppend(ItemsListed(p), ItemsListed(Join(users[1..], ranks, RankOfUser)), LoginDiffers(login));
      PartnersOneLogin(p, users[0], login);
    }
  }

  function ItemsListed(j: seq<(UserRow, RankRow)>): (r: seq<UserItem>)
    ensures |r| == |j| && forall i :: 0 <= i < |j| ==> r[i] == Listed(j[i])
  {
    if j == [] then [] else [Listed(j[0])] + ItemsListed(j[1..])
  }

  lemma ItemsListedAppend(a: seq<(UserRow, RankRow)>, b: seq<(UserRow, RankRow)>)
    ensures ItemsListed(a + b) == ItemsListed(a) + ItemsListed(b)
  {
  }

  lemma {:induction false} PartnersOneLogin(p: seq<(UserRow, RankRow)>, u: UserRow, login: string)
    requires forall x :: x in p ==> x.0 == u
    ensures Filter(ItemsListed(p), LoginDiffers(login)) == if u.login == login then [] else ItemsListed(p)
  {
    if p != [] {
      assert p[0] in p;
      PartnersOneLogin(p[1..], u, login);
    }
  }

  /** Deleting a listed login takes exactly its row out of the join. */
  lemma ServerDeletes(t: Tables, x: UserItem)
    requires PrimaryKeys(t) && ForeignKeys(t) && x in ServerUsers(t)
    ensures multiset(ServerUsers(DeleteUser(t, x.login))) == multiset(ServerUsers(t)) - multiset{x}
  {
    ServerUsersByRow(t);
    WithoutOne(ServerUsers(t), x);
    DeletedRows(t.users, t.ranks, x.login);
    assert ServerUsers(t) == ItemsListed(Join(t.users, t.ranks, RankOfUser));
    var t' := DeleteUser(t, x.login);
    assert ServerUsers(t') == ItemsListed(Join(t'.users, t'.ranks, RankOfUser));
  }

  lemma ClientRemoves(users: seq<UserItem>, index: nat)
    requires index < |users|
    ensures multiset(users[..index] + users[index + 1..]) == multiset(users) - multiset{users[index]}
  {
    assert users == users[..index] + [users[index]] + users[index + 1..];
  }

  lemma DeleteAgrees(c: Client, t: Tables, index: nat)
    requires PrimaryKeys(t) && ForeignKeys(t) && Agrees(c, t) && index < |c.users|
    ensures Agrees(Removed(c, index), DeleteUser(t, c.users[index].login))
  {
    var x := c.users[index];
    assert x in multiset(c.users);
    assert x in multiset(ServerUsers(t));
    ServerDeletes(t, x);
    ClientRemoves(c.users, index);
  }

  /** Agreement means the same users, looked up by login. */
  lemma SameByLogin(c: Client, t: Tables, u: UserItem)
    requires Consistent(t) && Agrees(c, t)
    ensures u in c.users <==> u in ServerUsers(t)
    ensures forall v :: v in c.users && u in c.users && v.login == u.login ==> v == u
  {
    ServerUsersByRow(t);
    assert forall x :: x in c.users <==> x in multiset(c.users);
    assert forall x :: x in ServerUsers(t) <==> x in multiset(ServerUsers(t));
    forall v | v in c.users && u in c.users && v.login == u.login ensures v == u {
      DistinctSame(ServerUsers(t), ItemLogin, u, v);
    }
  }
}
