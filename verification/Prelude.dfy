/** Sequences seen as tables: filters, sums, keys and nested-loop joins. */
module Prelude {

  datatype Option<+T> = None | Some(value: T)

  function Filter<T(!new)>(xs: seq<T>, p: T -> bool): (r: seq<T>)
    ensures forall x :: x in r <==> x in xs && p(x)
  {
    if xs == [] then [] else
      var rest := Filter(xs[1..], p);
      if p(xs[0]) then [xs[0]] + rest else rest
  }

  lemma {:induction false} FilterShrinks<T(!new)>(xs: seq<T>, p: T -> bool)
    ensures |Filter(xs, p)| <= |xs|
  {
    if xs != [] {
      FilterShrinks(xs[1..], p);
    }
  }

  lemma {:induction false} FilterAppend<T(!new)>(xs: seq<T>, ys: seq<T>, p: T -> bool)
    ensures Filter(xs + ys, p) == Filter(xs, p) + Filter(ys, p)
  {
    if xs == [] {
      assert xs + ys == ys;
    } else {
      assert (xs + ys)[1..] == xs[1..] + ys;
      FilterAppend(xs[1..], ys, p);
    }
  }

  /** A filter that every element passes changes nothing. */
  lemma {:induction false} FilterAll<T(!new)>(xs: seq<T>, p: T -> bool)
    requires forall x :: x in xs ==> p(x)
    ensures Filter(xs, p) == xs
  {
    if xs != [] {
      FilterAll(xs[1..], p);
    }
  }

  /** A filter that no element passes leaves nothing. */
  lemma {:induction false} FilterNone<T(!new)>(xs: seq<T>, p: T -> bool)
    requires forall x :: x in xs ==> !p(x)
    ensures Filter(xs, p) == []
  {
    if xs != [] {
      FilterNone(xs[1..], p);
    }
  }

  lemma Assoc<T>(a: seq<T>, b: seq<T>, c: seq<T>)
    ensures a + b + c == a + (b + c)
  {
  }

  // ------------------------------------------------- sequences that may be missing

  function Prepend<T>(xs: seq<T>, rest: Option<seq<T>>): Option<seq<T>> {
    match rest case None => None case Some(ys) => Some(xs + ys)
  }

  lemma PrependTwice<T>(a: seq<T>, b: seq<T>, rest: Option<seq<T>>)
    ensures Prepend(a, Prepend(b, rest)) == Prepend(a + b, rest)
  {
    if rest.Some? {
      Assoc(a, b, rest.value);
    }
  }

  lemma PrependNothing<T>(rest: Option<seq<T>>)
    ensures Prepend([], rest) == rest
  {
    if rest.Some? {
      assert [] + rest.value == rest.value;
    }
  }

  // ---------------------------------------------------------------- keys

  ghost predicate Distinct<T, K>(xs: seq<T>, key: T -> K) {
    forall i, j :: 0 <= i < j < |xs| ==> key(xs[i]) != key(xs[j])
  }

  ghost predicate HasKey<T(!new), K>(xs: seq<T>, key: T -> K, k: K) {
    exists x :: x in xs && key(x) == k
  }

  lemma DistinctSame<T, K>(xs: seq<T>, key: T -> K, x: T, y: T)
    requires Distinct(xs, key) && x in xs && y in xs && key(x) == key(y)
    ensures x == y
  {
    var i :| 0 <= i < |xs| && xs[i] == x;
    var j :| 0 <= j < |xs| && xs[j] == y;
    assert !(i < j) && !(j < i);
  }

  lemma DistinctAppend<T(!new), K>(xs: seq<T>, key: T -> K, x: T)
    requires Distinct(xs, key) && !HasKey(xs, key, key(x))
    ensures Distinct(xs + [x], key)
  {
    forall i, j | 0 <= i < j < |xs + [x]|
      ensures key((xs + [x])[i]) != key((xs + [x])[j])
    {
      assert xs[i] in xs;
    }
  }

  lemma {:induction false} DistinctFilter<T(!new), K>(xs: seq<T>, key: T -> K, p: T -> bool)
    requires Distinct(xs, key)
    ensures Distinct(Filter(xs, p), key)
  {
    if xs != [] {
      var rest := Filter(xs[1..], p);
      DistinctFilter(xs[1..], key, p);
      forall j | 0 <= j < |rest|
        ensures key(rest[j]) != key(xs[0])
      {
        assert rest[j] in xs[1..];
        var m :| 0 <= m < |xs[1..]| && xs[1..][m] == rest[j];
        assert xs[m + 1] == rest[j];
      }
    }
  }

  /** Tables whose rows keep their keys, position by position, keep them distinct. */
  lemma DistinctSameKeys<T(!new), K(!new)>(xs: seq<T>, ys: seq<T>, key: T -> K)
    requires |xs| == |ys| && forall i :: 0 <= i < |xs| ==> key(xs[i]) == key(ys[i])
    ensures Distinct(xs, key) ==> Distinct(ys, key)
    ensures forall k :: HasKey(xs, key, k) ==> HasKey(ys, key, k)
  {
    forall k | HasKey(xs, key, k) ensures HasKey(ys, key, k) {
      var x :| x in xs && key(x) == k;
      var i :| 0 <= i < |xs| && xs[i] == x;
      assert ys[i] in ys;
    }
  }

  // ---------------------------------------------------------------- sums

  function Sum<T>(xs: seq<T>, f: T -> int): int {
    if xs == [] then 0 else f(xs[0]) + Sum(xs[1..], f)
  }

  lemma {:induction false} SumAppend<T>(xs: seq<T>, ys: seq<T>, f: T -> int)
    ensures Sum(xs + ys, f) == Sum(xs, f) + Sum(ys, f)
  {
    if xs == [] {
      assert xs + ys == ys;
    } else {
      assert (xs + ys)[1..] == xs[1..] + ys;
      SumAppend(xs[1..], ys, f);
    }
  }

  lemma {:induction false} SumEqual<T, U>(xs: seq<T>, ys: seq<U>, f: T -> int, g: U -> int)
    requires |xs| == |ys| && forall i :: 0 <= i < |xs| ==> f(xs[i]) == g(ys[i])
    ensures Sum(xs, f) == Sum(ys, g)
  {
    if xs != [] {
      forall i | 0 <= i < |xs[1..]| ensures f(xs[1..][i]) == g(ys[1..][i]) {
        assert f(xs[i + 1]) == g(ys[i + 1]);
      }
      SumEqual(xs[1..], ys[1..], f, g);
    }
  }

  lemma {:induction false} SumNonNegative<T>(xs: seq<T>, f: T -> int)
    requires forall x :: x in xs ==> f(x) >= 0
    ensures Sum(xs, f) >= 0
    ensures forall x :: x in xs ==> f(x) <= Sum(xs, f)
  {
    if xs != [] {
      SumNonNegative(xs[1..], f);
      forall x | x in xs ensures f(x) <= Sum(xs, f) {
        assert x == xs[0] || x in xs[1..];
      }
    }
  }

  /** `f` where `p` holds and nothing elsewhere. */
  function Only<T>(p: T -> bool, f: T -> int): T -> int {
    (x: T) => if p(x) then f(x) else 0
  }

  /** Summing a filtered table is summing the whole table with a conditional. */
  lemma {:induction false} SumFiltered<T(!new)>(xs: seq<T>, p: T -> bool, f: T -> int)
    ensures Sum(Filter(xs, p), f) == Sum(xs, Only(p, f))
  {
    if xs != [] {
      SumFiltered(xs[1..], p, f);
    }
  }

  lemma {:induction false} SumZero<T>(xs: seq<T>, f: T -> int)
    requires forall x :: x in xs ==> f(x) == 0
    ensures Sum(xs, f) == 0
  {
    if xs != [] {
      SumZero(xs[1..], f);
    }
  }

  /** Sums that differ only at the one row keyed `k`. */
  lemma {:induction false} SumChangedAt<T, K>(xs: seq<T>, ys: seq<T>, key: T -> K, k: K, f: T -> int, x: T, y: T)
    requires |xs| == |ys| && Distinct(xs, key)
    requires forall i :: 0 <= i < |xs| ==> if key(xs[i]) == k then xs[i] == x && ys[i] == y else f(xs[i]) == f(ys[i])
    requires x in xs && key(x) == k
    ensures Sum(ys, f) == Sum(xs, f) - f(x) + f(y)
  {
    assert xs != [];
    forall i | 0 <= i < |xs[1..]|
      ensures if key(xs[1..][i]) == k then xs[1..][i] == x && ys[1..][i] == y else f(xs[1..][i]) == f(ys[1..][i])
    {
      assert xs[1..][i] == xs[i + 1] && ys[1..][i] == ys[i + 1];
    }
    if key(xs[0]) == k {
      forall i | 0 <= i < |xs[1..]| ensures f(xs[1..][i]) == f(ys[1..][i]) {
        assert key(xs[0]) != key(xs[i + 1]);
      }
      SumEqual(xs[1..], ys[1..], f, f);
    } else {
      assert x in xs[1..];
      SumChangedAt(xs[1..], ys[1..], key, k, f, x, y);
    }
  }

  // ------------------------------------------------------- sums of money

  function Total<T>(xs: seq<T>, f: T -> real): real {
    if xs == [] then 0.0 else f(xs[0]) + Total(xs[1..], f)
  }

  lemma {:induction false} TotalAppend<T>(xs: seq<T>, ys: seq<T>, f: T -> real)
    ensures Total(xs + ys, f) == Total(xs, f) + Total(ys, f)
  {
    if xs == [] {
      assert xs + ys == ys;
    } else {
      assert (xs + ys)[1..] == xs[1..] + ys;
      TotalAppend(xs[1..], ys, f);
    }
  }

  lemma {:induction false} TotalEqual<T, U>(xs: seq<T>, ys: seq<U>, f: T -> real, g: U -> real)
    requires |xs| == |ys| && forall i :: 0 <= i < |xs| ==> f(xs[i]) == g(ys[i])
    ensures Total(xs, f) == Total(ys, g)
  {
    if xs != [] {
      forall i | 0 <= i < |xs[1..]| ensures f(xs[1..][i]) == g(ys[1..][i]) {
        assert f(xs[i + 1]) == g(ys[i + 1]);
      }
      TotalEqual(xs[1..], ys[1..], f, g);
    }
  }

  function OnlyReal<T>(p: T -> bool, f: T -> real): T -> real {
    (x: T) => if p(x) then f(x) else 0.0
  }

  lemma {:induction false} TotalFiltered<T(!new)>(xs: seq<T>, p: T -> bool, f: T -> real)
    ensures Total(Filter(xs, p), f) == Total(xs, OnlyReal(p, f))
  {
    if xs != [] {
      TotalFiltered(xs[1..], p, f);
    }
  }

  lemma {:induction false} TotalPlus<T>(xs: seq<T>, f: T -> real, g: T -> real, h: T -> real)
    requires forall x :: x in xs ==> h(x) == f(x) + g(x)
    ensures Total(xs, h) == Total(xs, f) + Total(xs, g)
  {
    if xs != [] {
      TotalPlus(xs[1..], f, g, h);
    }
  }

  lemma {:induction false} TotalZero<T>(xs: seq<T>, f: T -> real)
    requires forall x :: x in xs ==> f(x) == 0.0
    ensures Total(xs, f) == 0.0
  {
    if xs != [] {
      TotalZero(xs[1..], f);
    }
  }

  /** A total with one non-zero row, singled out by its key. */
  lemma {:induction false} TotalAtKey<T, K>(xs: seq<T>, key: T -> K, x: T, f: T -> real)
    requires Distinct(xs, key) && x in xs
    requires forall y :: y in xs && key(y) != key(x) ==> f(y) == 0.0
    ensures Total(xs, f) == f(x)
  {
    if key(xs[0]) == key(x) {
      DistinctSame(xs, key, xs[0], x);
      forall y | y in xs[1..] ensures f(y) == 0.0 {
        var i :| 0 <= i < |xs[1..]| && xs[1..][i] == y;
        assert key(xs[0]) != key(xs[i + 1]);
      }
      TotalZero(xs[1..], f);
    } else {
      assert x in xs[1..];
      TotalAtKey(xs[1..], key, x, f);
    }
  }

  // --------------------------------------------------------------- joins

  /** The rows of `ys` that the join pairs with `x`, in table order. */
  function Partners<A(!new), B(!new)>(x: A, ys: seq<B>, on: (A, B) -> bool): (r: seq<(A, B)>)
    ensures forall p :: p in r <==> p.0 == x && p.1 in ys && on(x, p.1)
  {
    if ys == [] then [] else
      var rest := Partners(x, ys[1..], on);
      if on(x, ys[0]) then [(x, ys[0])] + rest else rest
  }

  /** SQL's INNER JOIN as the nested loop that defines it. */
  function Join<A(!new), B(!new)>(xs: seq<A>, ys: seq<B>, on: (A, B) -> bool): (r: seq<(A, B)>)
    ensures forall p :: p in r <==> p.0 in xs && p.1 in ys && on(p.0, p.1)
  {
    if xs == [] then [] else Partners(xs[0], ys, on) + Join(xs[1..], ys, on)
  }

  lemma {:induction false} NoPartner<A(!new), B(!new)>(x: A, ys: seq<B>, on: (A, B) -> bool)
    requires forall y :: y in ys ==> !on(x, y)
    ensures Partners(x, ys, on) == []
  {
    if ys != [] {
      NoPartner(x, ys[1..], on);
    }
  }

  /** A foreign key into a primary key has exactly one partner. */
  lemma {:induction false} OnePartner<A(!new), B(!new), K>(x: A, ys: seq<B>, on: (A, B) -> bool, fk: K,
      key: B -> K, y: B)
    requires Distinct(ys, key) && y in ys && key(y) == fk
    requires forall z :: z in ys ==> (on(x, z) <==> key(z) == fk)
    ensures Partners(x, ys, on) == [(x, y)]
  {
    if key(ys[0]) == fk {
      DistinctSame(ys, key, ys[0], y);
      forall z | z in ys[1..] ensures !on(x, z) {
        var i :| 0 <= i < |ys[1..]| && ys[1..][i] == z;
        assert key(ys[0]) != key(ys[i + 1]);
      }
      NoPartner(x, ys[1..], on);
    } else {
      assert y in ys[1..];
      OnePartner(x, ys[1..], on, fk, key, y);
    }
  }

  /** Joining along a foreign key neither drops nor duplicates rows: row `i` of
      the join is row `i` of the referring table beside the row it refers to. */
  lemma {:induction false} JoinAlongKey<A(!new), B(!new), K>(xs: seq<A>, ys: seq<B>, on: (A, B) -> bool,
      fk: A -> K, key: B -> K)
    requires Distinct(ys, key)
    requires forall x :: x in xs ==> HasKey(ys, key, fk(x))
    requires forall x, y :: x in xs && y in ys ==> (on(x, y) <==> fk(x) == key(y))
    ensures var j := Join(xs, ys, on);
            |j| == |xs| && forall i :: 0 <= i < |j| ==> j[i].0 == xs[i] && j[i].1 in ys && key(j[i].1) == fk(xs[i])
  {
    if xs != [] {
      assert xs[0] in xs;
      var y :| y in ys && key(y) == fk(xs[0]);
      OnePartner(xs[0], ys, on, fk(xs[0]), key, y);
      JoinAlongKey(xs[1..], ys, on, fk, key);
      var rest := Join(xs[1..], ys, on);
      var j := Join(xs, ys, on);
      assert j == [(xs[0], y)] + rest;
      forall i | 0 <= i < |j|
        ensures j[i].0 == xs[i] && j[i].1 in ys && key(j[i].1) == fk(xs[i])
      {
        if i > 0 {
          assert j[i] == rest[i - 1] && xs[i] == xs[1..][i - 1];
        }
      }
    }
  }
}
