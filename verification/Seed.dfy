/** The database the installation script leaves behind. */
module Seed {
  import opened Prelude
  import opened Schema
  import opened UsersCache

  const HASH_1: string := "80c5e536eec8387c"
  const HASH_2: string := "ccad28b8b17b9338"
  const HASH_3: string := "32244998d85918ab"
  const HASH_4: string := "f18cc9bada5d4fe9"
  const ADMIN_HASH: string := HASH_1 + HASH_2 + HASH_3 + HASH_4
  const EMPLOYEE_HASH: string := "32c9a2ec9e0c4e3a4cc93012b2e72c04b2c395578dcc80b535e951b452eaf9a3"
  const ACCOUNTANT_HASH: string := "a2c1492a15db8248ab62f9575d18753b5fda78b7ab3e89111af2ece23849a51c"

  const RANKS: seq<RankRow> := [RankRow(1, "Admin"), RankRow(2, "Employee"), RankRow(3, "Accountant")]

  const DISTRIBUTORS: seq<DistributorRow> := [
    DistributorRow(1, "AMD"), DistributorRow(2, "NVIDIA"), DistributorRow(3, "HP"), DistributorRow(4, "VIA"),
    DistributorRow(5, "ASUS"), DistributorRow(6, "Acer"), DistributorRow(7, "Lenovo"), DistributorRow(8, "DELL")]

  const TYPES: seq<TypeRow> := [
    TypeRow(1, "CPU"), TypeRow(2, "GPU"), TypeRow(3, "RAM"), TypeRow(4, "Laptop"),
    TypeRow(5, "Monitor"), TypeRow(6, "Motherboard"), TypeRow(7, "Keyboard"), TypeRow(8, "Mice")]

  function Users(admin: string, employee: string, accountant: string): seq<UserRow> {
    [UserRow("amogus", admin, "amogus_sname", "amogus_name", "amogus_pname", 1),
     UserRow("abobus", employee, "amogus_sname", "amogus_name", "amogus_pname", 2),
     UserRow("amongaust", accountant, "amogus_sname", "amogus_name", "amogus_pname", 3)]
  }

  const CUSTOMERS: seq<CustomerRow> := [
    CustomerRow(123, "c1_name", "c1_sname", "c1_pname"), CustomerRow(456, "c2_name", "c2_sname", "c2_pname"),
    CustomerRow(789, "c3_name", "c3_sname", "c3_pname")]

  const ITEMS: seq<ItemRow> := [
    ItemRow(1, "Ryzen 5 1600", 250.09, 189, 1, 1, "Ryzen 5 1600, 6 cores, 12 threads"),
    ItemRow(2, "NVIDIA GTX 1080Ti", 1058.4, 53, 2, 2, "GPU NVIDIA GTX1080Ti"),
    ItemRow(3, "Intel Core i3 9100F", 135.3, 456, 3, 1, "Intel Core i3 9100F 4 cores, 8 threads")]

  const LINES: seq<LineRow> := [LineRow(1, 1, 1, 18), LineRow(2, 2, 1, 7), LineRow(3, 3, 1, 75), LineRow(4, 1, 1, 9)]

  function Orders(now: int, expire: int): seq<OrderRow> { [OrderRow(1, 123, DateOf(now), expire, None)] }

  /** The rows of the script's INSERT and CALL statements, run at `now`. */
  function Seeded(now: int, expire: int): Tables {
    Tables(RANKS, Users(ADMIN_HASH, EMPLOYEE_HASH, ACCOUNTANT_HASH), CUSTOMERS, Orders(now, expire),
      DISTRIBUTORS, TYPES, ITEMS, LINES, 2, 4, 5)
  }

  lemma NumberedKeys()
    ensures Distinct(RANKS, RankId) && Distinct(DISTRIBUTORS, DistributorId) && Distinct(TYPES, TypeId)
    ensures Distinct(CUSTOMERS, Telephone) && Distinct(LINES, LineId)
  {
  }

  lemma UserKeys(a: string, e: string, c: string)
    ensures Distinct(Users(a, e, c), UserLogin)
    ensures forall u :: u in Users(a, e, c) ==> 1 <= u.rank <= 3
  {
    var users := Users(a, e, c);
    assert UserLogin(users[0])[1] != UserLogin(users[1])[1];
    assert |UserLogin(users[2])| != |UserLogin(users[0])| && |UserLogin(users[2])| != |UserLogin(users[1])|;
  }

  lemma ItemFacts()
    ensures Distinct(ITEMS, ItemId)
    ensures forall i :: i in ITEMS ==>
      0 <= i.count <= UINT_MAX && i.id < 4 && 1 <= i.distributorId <= 3 && 1 <= i.typeId <= 2
  {
  }

  lemma ReferredKeys()
    ensures forall k :: 1 <= k <= 3 ==>
      HasKey(RANKS, RankId, k) && HasKey(DISTRIBUTORS, DistributorId, k) && HasKey(ITEMS, ItemId, k)
    ensures forall k :: 1 <= k <= 2 ==> HasKey(TYPES, TypeId, k)
    ensures HasKey(CUSTOMERS, Telephone, 123) && HasKey(LINES, LineOrder, 1)
  {
    forall k: int | 1 <= k <= 3
      ensures HasKey(RANKS, RankId, k) && HasKey(DISTRIBUTORS, DistributorId, k) && HasKey(ITEMS, ItemId, k)
    {
      assert RankId(RANKS[k - 1]) == k && DistributorId(DISTRIBUTORS[k - 1]) == k && ItemId(ITEMS[k - 1]) == k;
    }
    forall k: int | 1 <= k <= 2 ensures HasKey(TYPES, TypeId, k) {
      assert TypeId(TYPES[k - 1]) == k;
    }
    assert Telephone(CUSTOMERS[0]) == 123 && LineOrder(LINES[0]) == 1;
  }

  lemma LineFacts()
    ensures forall l :: l in LINES ==> 0 <= l.count <= UINT_MAX && l.id < 5 && 1 <= l.itemId <= 3 && l.orderId == 1
  {
  }

  lemma OrderFacts(now: int, expire: int)
    ensures var os := Orders(now, expire);
      Distinct(os, OrderId) && HasKey(os, OrderId, 1) && forall o :: o in os ==> o.id == 1 && o.customerTel == 123
  {
    var os := Orders(now, expire);
    assert OrderId(os[0]) == 1;
  }

  lemma ConsistentByFacts(t: Tables)
    requires Distinct(t.ranks, RankId) && Distinct(t.distributors, DistributorId) && Distinct(t.types, TypeId)
    requires Distinct(t.customers, Telephone) && Distinct(t.lines, LineId) && Distinct(t.users, UserLogin)
    requires Distinct(t.items, ItemId) && Distinct(t.orders, OrderId)
    requires forall u :: u in t.users ==> 1 <= u.rank <= 3
    requires forall i :: i in t.items ==>
      0 <= i.count <= UINT_MAX && i.id < 4 && 1 <= i.distributorId <= 3 && 1 <= i.typeId <= 2
    requires forall l :: l in t.lines ==> 0 <= l.count <= UINT_MAX && l.id < 5 && 1 <= l.itemId <= 3 && l.orderId == 1
    requires forall o :: o in t.orders ==> o.id == 1 && o.customerTel == 123
    requires forall k :: 1 <= k <= 3 ==>
      HasKey(t.ranks, RankId, k) && HasKey(t.distributors, DistributorId, k) && HasKey(t.items, ItemId, k)
    requires forall k :: 1 <= k <= 2 ==> HasKey(t.types, TypeId, k)
    requires HasKey(t.customers, Telephone, 123) && HasKey(t.lines, LineOrder, 1) && HasKey(t.orders, OrderId, 1)
    requires t.nextOrder == 2 && t.nextItem == 4 && t.nextLine == 5
    ensures Consistent(t)
  {
  }

  /** Every run starts consistent. */
  lemma SeededConsistent(now: int, expire: int)
    ensures Consistent(Seeded(now, expire))
  {
    NumberedKeys();
    UserKeys(ADMIN_HASH, EMPLOYEE_HASH, ACCOUNTANT_HASH);
    ItemFacts();
    ReferredKeys();
    LineFacts();
    OrderFacts(now, expire);
    ConsistentByFacts(Seeded(now, expire));
  }

  /** The ranks the admin panel sets agree with the server's. */
  lemma PanelRanksAgree(now: int, expire: int)
    ensures RanksAgree(map["Admin" := 1, "Employee" := 2, "Accountant" := 3], Seeded(now, expire))
  {
    var ranks := map["Admin" := 1, "Employee" := 2, "Accountant" := 3];
    forall name, r | name in ranks && r in RANKS && r.id == ranks[name] ensures r.name == name {
      assert r == RANKS[0] || r == RANKS[1] || r == RANKS[2];
    }
  }
}
