/** GetExpiredOrders over a run with a non-decreasing clock. */
module Lateness {
  import opened Prelude
  import opened Schema
  import opened Integrity
  import opened StockLedger
  import opened Reports

  /** CURRENT_TIMESTAMP() is compared with midnight of the expire date, a completion
      date with the expire date itself. */
  predicate Expired(o: OrderRow, now: int) {
    match o.completion
    case Some(day) => day > o.expire
    case None => now > o.expire * SECONDS_PER_DAY
  }

  function RowExpired(now: int): ((OrderRow, CustomerRow)) -> bool {
    (r: (OrderRow, CustomerRow)) => Expired(r.0, now)
  }

  function GetExpiredOrders(t: Tables, now: int): seq<(OrderRow, CustomerRow)> {
    Filter(Join(t.orders, t.customers, CustomerOfOrder), RowExpired(now))
  }

  ghost predicate Listed(t: Tables, now: int, id: int) {
    exists r :: r in GetExpiredOrders(t, now) && r.0.id == id
  }

  lemma ListedIsExpired(t: Tables, now: int, o: OrderRow)
    requires Consistent(t) && o in t.orders
    ensures Listed(t, now, o.id) <==> Expired(o, now)
  {
    var c :| c in t.customers && Telephone(c) == o.customerTel;
    assert (o, c) in Join(t.orders, t.customers, CustomerOfOrder);
    if Listed(t, now, o.id) {
      var r :| r in GetExpiredOrders(t, now) && r.0.id == o.id;
      DistinctSame(t.orders, OrderId, r.0, o);
    }
    if Expired(o, now) {
      assert (o, c) in GetExpiredOrders(t, now);
    }
  }

  /** An order is listed if it was completed after its expire date, or is open and that day
      has begun. */
  lemma ListedInColumns(t: Tables, now: int, id: int)
    requires Consistent(t)
    ensures Listed(t, now, id) <==>
      exists o :: o in t.orders && o.id == id
        && if o.completion.Some? then o.completion.value > o.expire else now > 86400 * o.expire
  {
    if Listed(t, now, id) {
      var r :| r in GetExpiredOrders(t, now) && r.0.id == id;
      assert r.0 in t.orders;
      ListedIsExpired(t, now, r.0);
    }
    forall o | o in t.orders && o.id == id { ListedIsExpired(t, now, o); }
  }

  // ------------------------------------------------------------- one step

  /** How a surviving order row may differ after one request. */
  lemma OrderAfter(t: Tables, e: Event, o: OrderRow, p: OrderRow)
    requires Consistent(t) && o in t.orders && p in Handle(t, e.now, e.request).0.orders && p.id == o.id
    ensures p == if Completes(t, e) && e.request.orderId == o.id then o.(completion := Some(DateOf(e.now))) else o
  {
    var t' := Handle(t, e.now, e.request).0;
    if e.request.DeleteCustomerRequest? {
      DistinctSame(t.orders, OrderId, o, p);
    } else if e.request.AddOrderRequest? {
      PlacedOrders(t, e, p);
      if p in t.orders { DistinctSame(t.orders, OrderId, o, p); }
    } else if e.request.CompleteOrderRequest? {
      CompletingOrders(t, e);
      var j :| 0 <= j < |t'.orders| && t'.orders[j] == p;
      assert t.orders[j] in t.orders;
      DistinctSame(t.orders, OrderId, o, t.orders[j]);
    } else {
      OrdersUntouched(t, e);
      DistinctSame(t.orders, OrderId, o, p);
    }
  }

  lemma PlacedOrders(t: Tables, e: Event, p: OrderRow)
    requires e.request.AddOrderRequest? && p in Handle(t, e.now, e.request).0.orders
    ensures p in t.orders || p.id == t.nextOrder
  {
    AddOrderAllOrNothing(t, e.now, e.request.customerTel, e.request.expire, e.request.raw);
  }

  /** A listed order that still exists after the next request is still listed, with
      one exception: it was completed by that request on its expire date. */
  lemma LeavesOnlyOnExpireDate(t: Tables, now: int, e: Event, o: OrderRow)
    requires Consistent(t) && o in t.orders && Listed(t, now, o.id) && now <= e.now
    requires HasKey(Handle(t, e.now, e.request).0.orders, OrderId, o.id)
    ensures Listed(Handle(t, e.now, e.request).0, e.now, o.id)
       <==> !(Completes(t, e) && e.request.orderId == o.id && DateOf(e.now) == o.expire)
  {
    var t' := Handle(t, e.now, e.request).0;
    var p :| p in t'.orders && OrderId(p) == o.id;
    HandleKeepsConsistent(t, e.now, e.request);
    OrderAfter(t, e, o, p);
    ListedIsExpired(t, now, o);
    ListedIsExpired(t', e.now, p);
    if Completes(t, e) && e.request.orderId == o.id {
      assert o.completion.None?;
    }
  }

  // ------------------------------------------------------------ every run

  ghost predicate ClockRuns(es: seq<Event>) {
    forall i, j :: 0 <= i <= j < |es| ==> es[i].now <= es[j].now
  }

  /** If the order is in the table, it is late for good; and its id is not to come. */
  ghost predicate LateForGood(t: Tables, now: int, id: int) {
    && id < t.nextOrder
    && forall o :: o in t.orders && o.id == id ==>
      if o.completion.Some? then o.completion.value > o.expire else DateOf(now) > o.expire
  }

  lemma CountersGrow(t: Tables, e: Event)
    ensures t.nextOrder <= Handle(t, e.now, e.request).0.nextOrder
  {
    if e.request.AddOrderRequest? {
      AddOrderAllOrNothing(t, e.now, e.request.customerTel, e.request.expire, e.request.raw);
    } else if e.request.CompleteOrderRequest? {
      CompletingOrders(t, e);
    } else if !e.request.DeleteCustomerRequest? {
      OrdersUntouched(t, e);
    }
  }

  /** Every order of the next state was there before or is brand new. */
  lemma NoOldIdAppears(t: Tables, e: Event, p: OrderRow)
    requires Consistent(t) && p in Handle(t, e.now, e.request).0.orders
    ensures HasKey(t.orders, OrderId, p.id) || p.id >= t.nextOrder
  {
    if e.request.AddOrderRequest? {
      PlacedOrders(t, e, p);
    } else if e.request.CompleteOrderRequest? {
      CompletingOrders(t, e);
      CompletingKeepsSettled(t.orders, e.request.orderId, DateOf(e.now), p.id);
    } else if !e.request.DeleteCustomerRequest? {
      OrdersUntouched(t, e);
    }
  }

  lemma LateStep(t: Tables, now: int, e: Event, id: int)
    requires Consistent(t) && LateForGood(t, now, id) && now <= e.now
    ensures LateForGood(Handle(t, e.now, e.request).0, e.now, id)
  {
    var t' := Handle(t, e.now, e.request).0;
    CountersGrow(t, e);
    forall p | p in t'.orders && p.id == id
      ensures if p.completion.Some? then p.completion.value > p.expire else DateOf(e.now) > p.expire
    {
      NoOldIdAppears(t, e, p);
      var o :| o in t.orders && OrderId(o) == id;
      OrderAfter(t, e, o, p);
    }
  }

  lemma {:induction false} LateOverRun(ts: seq<Tables>, es: seq<Event>, id: int, m: nat, n: nat, now: int, later: int)
    requires Run(ts, es) && ClockRuns(es) && m <= n <= |es| && now <= later
    requires forall k :: m <= k < n ==> now <= es[k].now <= later
    requires LateForGood(ts[m], now, id)
    ensures LateForGood(ts[n], later, id)
  {
    if m < n {
      LateOverRun(ts, es, id, m, n - 1, now, es[n - 1].now);
      RunStaysConsistent(ts, es, n - 1);
      LateStep(ts[n - 1], es[n - 1].now, es[n - 1], id);
    }
  }

  /** Lateness is stable: listed strictly after its expire date, an order is listed at
      every later state that still has it, completed or not. */
  lemma LatenessStable(ts: seq<Tables>, es: seq<Event>, o: OrderRow, m: nat, n: nat, now: int, later: int)
    requires Run(ts, es) && ClockRuns(es) && m <= n <= |es| && now <= later
    requires forall k :: m <= k < n ==> now <= es[k].now <= later
    requires o in ts[m].orders && Listed(ts[m], now, o.id) && DateOf(now) > o.expire
    requires HasKey(ts[n].orders, OrderId, o.id)
    ensures Listed(ts[n], later, o.id)
  {
    RunStaysConsistent(ts, es, m);
    RunStaysConsistent(ts, es, n);
    ListedIsExpired(ts[m], now, o);
    forall p | p in ts[m].orders && p.id == o.id ensures p == o {
      DistinctSame(ts[m].orders, OrderId, p, o);
    }
    LateOverRun(ts, es, o.id, m, n, now, later);
    var p :| p in ts[n].orders && OrderId(p) == o.id;
    ListedIsExpired(ts[n], later, p);
  }
}
