/** The orders a host may still claim a rebate on (`app/api/orders/discountable/route.ts`).
    The query returns the caller's newest ended orders as host; those already linked to a
    used coupon or a used 8折券 draw, and those too short or unpriced to earn anything,
    are dropped, and at most twenty are listed. */
module Discountable {
  import opened Wrappers
  import opened Money
  import opened Store

  const MAX_FETCH: nat := 50
  const MAX_RETURN: nat := 20
  const DISCOUNT_PRIZE_NAME := "8折券"
  const FREE_MINUTES: int := 5

  /** The ids a used coupon or a used 8折券 draw is linked to, among `ids`. Other discount
      prizes are not looked at here. */
  function UsedIds(ids: set<string>, coupons: map<string, Coupon>, draws: map<string, Draw>): (r: set<string>)
    ensures r <= ids
    ensures forall id :: id in r <==>
              id in ids
              && ((exists k :: k in coupons && coupons[k].status == COUPON_USED && coupons[k].orderId == Some(id))
                  || (exists k :: k in draws && draws[k].status == DRAW_USED && draws[k].requestId == Some(id)
                                  && PrizeName(draws[k]) == Some(DISCOUNT_PRIZE_NAME)))
  {
    var fromCoupons := set k | k in coupons && coupons[k].status == COUPON_USED && coupons[k].orderId.Some?
                                && coupons[k].orderId.value in ids :: coupons[k].orderId.value;
    var fromDraws := set k | k in draws && draws[k].status == DRAW_USED && draws[k].requestId.Some?
                              && draws[k].requestId.value in ids && PrizeName(draws[k]) == Some(DISCOUNT_PRIZE_NAME)
                              :: draws[k].requestId.value;
    fromCoupons + fromDraws
  }

  /** The filter: not used, more than five minutes (null read as 0) and a positive unit
      price (null read as 0). */
  predicate Qualifies(o: Order, used: set<string>) {
    o.id !in used && o.totalMinutes.GetOr(0) > FREE_MINUTES && o.unitPrice.GetOr(0.0) > 0.0
  }

  /** `orders.filter(...)`, keeping the order of the list. */
  function Filter(orders: seq<Order>, used: set<string>): (r: seq<Order>)
    ensures |r| <= |orders|
    ensures forall o :: o in r <==> o in orders && Qualifies(o, used)
  {
    if orders == [] then []
    else (if Qualifies(orders[0], used) then [orders[0]] else []) + Filter(orders[1..], used)
  }

  /** The filter keeps the relative order of the list: filtering a concatenation is the
      concatenation of the filtered parts. */
  lemma {:induction false} FilterConcat(a: seq<Order>, b: seq<Order>, used: set<string>)
    ensures Filter(a + b, used) == Filter(a, used) + Filter(b, used)
  {
    if a == [] {
      assert a + b == b;
    } else {
      assert (a + b)[0] == a[0];
      assert (a + b)[1..] == a[1..] + b;
      FilterConcat(a[1..], b, used);
    }
  }

  /** The order as listed, with its charged amount `unitPrice × max(0, minutes − 5) / 60`
      to two places. */
  datatype Listed = Listed(id: string, displayNo: int, workerId: Option<string>, totalMinutes: Option<int>,
                           totalAmount: string, endedAt: Option<int>)

  function ChargedAmount(o: Order): (amount: real)
    ensures o.totalMinutes.GetOr(0) <= FREE_MINUTES ==> amount == 0.0
  {
    var billable := if o.totalMinutes.GetOr(0) - FREE_MINUTES > 0 then o.totalMinutes.GetOr(0) - FREE_MINUTES else 0;
    o.unitPrice.GetOr(0.0) * billable as real / 60.0
  }

  function ListOrder(o: Order): (l: Listed)
    ensures l.id == o.id && l.displayNo == o.displayNo && l.workerId == o.workerId
    ensures l.totalMinutes == o.totalMinutes && l.endedAt == o.endedAt
    ensures ParseDecimal(l.totalAmount) == Some(Round2(ChargedAmount(o)))
  {
    Fixed2RoundTrip(ChargedAmount(o));
    Listed(o.id, o.displayNo, o.workerId, o.totalMinutes, Fixed2(ChargedAmount(o)), o.endedAt)
  }

  function ListAll(orders: seq<Order>): (r: seq<Listed>)
    ensures |r| == |orders| && forall i :: 0 <= i < |orders| ==> r[i] == ListOrder(orders[i])
  {
    seq(|orders|, i requires 0 <= i < |orders| => ListOrder(orders[i]))
  }

  function Ids(orders: seq<Order>): set<string> {
    set o | o in orders :: o.id
  }

  /** `a` may come before `b` in `orderBy: { endedAt: 'desc' }`: later end times first, and
      an order without an end time before any other, as PostgreSQL sorts nulls in a
      descending order. */
  predicate EndedNoEarlier(a: Option<int>, b: Option<int>) {
    a.None? || (b.Some? && a.value >= b.value)
  }

  predicate NewestFirst(orders: seq<Order>) {
    forall i, j :: 0 <= i < j < |orders| ==> EndedNoEarlier(orders[i].endedAt, orders[j].endedAt)
  }

  /** `where: { hostId, status: 'ENDED' }` */
  predicate HostedEnded(o: Order, hostId: string) {
    o.hostId == Some(hostId) && o.status == ORDER_ENDED
  }

  /** `fetched` is an answer of the query `findMany({ where: { hostId, status: 'ENDED' },
      orderBy: { endedAt: 'desc' }, take: 50 })` on the orders table: distinct rows of the
      table that the caller hosted and that have ended, newest first, and only when fifty
      were taken may such an order be missing, and then it ended no later than every one
      fetched. Orders that ended at the same time may come in any order. */
  predicate FetchedFor(orders: map<string, Order>, hostId: string, fetched: seq<Order>) {
    && |fetched| <= MAX_FETCH
    && (forall i :: 0 <= i < |fetched| ==>
          fetched[i].id in orders && orders[fetched[i].id] == fetched[i] && HostedEnded(fetched[i], hostId))
    && (forall i, j :: 0 <= i < j < |fetched| ==> fetched[i].id != fetched[j].id)
    && NewestFirst(fetched)
    && (forall id :: id in orders && HostedEnded(orders[id], hostId) && id !in Ids(fetched) ==>
          |fetched| == MAX_FETCH
          && forall i :: 0 <= i < |fetched| ==> EndedNoEarlier(fetched[i].endedAt, orders[id].endedAt))
  }

  /** What `GET` answers over the orders table `orders`; `None` is the 401 for a caller
      without a session. `fetched` is the query's answer for the caller. */
  function DiscountableOrders(session: Option<string>, orders: map<string, Order>, fetched: seq<Order>,
                              coupons: map<string, Coupon>, draws: map<string, Draw>): (r: Option<seq<Listed>>)
    requires |fetched| <= MAX_FETCH
    requires session.Some? && session.value != [] ==> FetchedFor(orders, session.value, fetched)
    ensures r.None? <==> session.None? || session.value == []
    ensures fetched == [] && r.Some? ==> r.value == []
    ensures r.Some? ==>
              var eligible := Filter(fetched, UsedIds(Ids(fetched), coupons, draws));
              && |r.value| == (if |eligible| < MAX_RETURN then |eligible| else MAX_RETURN)
              && forall i :: 0 <= i < |r.value| ==> r.value[i] == ListOrder(eligible[i])
  {
    if session.None? || session.value == [] then None
    else if fetched == [] then Some([])
    else
      var eligible := Filter(fetched, UsedIds(Ids(fetched), coupons, draws));
      var kept := if |eligible| <= MAX_RETURN then eligible else eligible[..MAX_RETURN];
      Some(ListAll(kept))
  }

  /** The filter keeps the newest-first order of the list. */
  lemma {:induction false} FilterKeepsOrder(orders: seq<Order>, used: set<string>)
    requires NewestFirst(orders)
    ensures NewestFirst(Filter(orders, used))
  {
    if orders != [] {
      var rest := orders[1..];
      assert NewestFirst(rest) by {
        forall i, j | 0 <= i < j < |rest|
          ensures EndedNoEarlier(rest[i].endedAt, rest[j].endedAt)
        {
          assert rest[i] == orders[i + 1] && rest[j] == orders[j + 1];
        }
      }
      FilterKeepsOrder(rest, used);
      var tail := Filter(rest, used);
      var f := Filter(orders, used);
      if Qualifies(orders[0], used) {
        assert f == [orders[0]] + tail;
        forall i, j | 0 <= i < j < |f|
          ensures EndedNoEarlier(f[i].endedAt, f[j].endedAt)
        {
          if i == 0 {
            assert f[j] == tail[j - 1] && tail[j - 1] in rest;
            var k :| 0 <= k < |rest| && rest[k] == f[j];
            assert orders[k + 1] == f[j];
          } else {
            assert f[i] == tail[i - 1] && f[j] == tail[j - 1];
          }
        }
      } else {
        assert f == tail;
      }
    }
  }

  /** The caller's listing: each entry is an order of the table that the caller hosted,
      that has ended, and that is unused, longer than the free minutes and priced; and
      the entries come newest first. */
  lemma ListedAreCallersEnded(session: string, orders: map<string, Order>, fetched: seq<Order>,
                              coupons: map<string, Coupon>, draws: map<string, Draw>)
    requires session != [] && FetchedFor(orders, session, fetched)
    ensures var r := DiscountableOrders(Some(session), orders, fetched, coupons, draws).value;
      && (forall l :: l in r ==>
            l.id in orders && HostedEnded(orders[l.id], session)
            && Qualifies(orders[l.id], UsedIds(Ids(fetched), coupons, draws)) && l == ListOrder(orders[l.id]))
      && (forall i, j :: 0 <= i < j < |r| ==> EndedNoEarlier(r[i].endedAt, r[j].endedAt))
  {
    var used := UsedIds(Ids(fetched), coupons, draws);
    var eligible := Filter(fetched, used);
    var r := DiscountableOrders(Some(session), orders, fetched, coupons, draws).value;
    ListedAreEligible(session, orders, fetched, coupons, draws);
    forall l | l in r
      ensures l.id in orders && HostedEnded(orders[l.id], session)
              && Qualifies(orders[l.id], used) && l == ListOrder(orders[l.id])
    {
      var o :| o in fetched && Qualifies(o, used) && l == ListOrder(o);
      var k :| 0 <= k < |fetched| && fetched[k] == o;
    }
    FilterKeepsOrder(fetched, used);
    forall i, j | 0 <= i < j < |r|
      ensures EndedNoEarlier(r[i].endedAt, r[j].endedAt)
    {
      assert r[i] == ListOrder(eligible[i]) && r[j] == ListOrder(eligible[j]);
    }
  }

  /** When the query took fewer than fifty orders and fewer than twenty are listed, every
      order of the table that the caller hosted, that has ended and that qualifies is
      listed. */
  lemma AllCallersOrdersListed(session: string, orders: map<string, Order>, fetched: seq<Order>,
                               coupons: map<string, Coupon>, draws: map<string, Draw>)
    requires session != [] && FetchedFor(orders, session, fetched)
    requires |fetched| < MAX_FETCH
    requires |DiscountableOrders(Some(session), orders, fetched, coupons, draws).value| < MAX_RETURN
    ensures var r := DiscountableOrders(Some(session), orders, fetched, coupons, draws).value;
      forall id ::
        (id in orders && HostedEnded(orders[id], session) && Qualifies(orders[id], UsedIds(Ids(fetched), coupons, draws)))
        ==> ListOrder(orders[id]) in r
  {
    FewListedAreAll(session, orders, fetched, coupons, draws);
    forall id | id in orders && HostedEnded(orders[id], session)
      ensures orders[id] in fetched
    {
      assert id in Ids(fetched);
      var o :| o in fetched && o.id == id;
      var k :| 0 <= k < |fetched| && fetched[k] == o;
    }
  }

  /** Every listed order is one of the fetched orders, unused, longer than the free
      minutes and priced. */
  lemma ListedAreEligible(session: string, orders: map<string, Order>, fetched: seq<Order>,
                           coupons: map<string, Coupon>, draws: map<string, Draw>)
    requires session != [] && FetchedFor(orders, session, fetched)
    ensures var r := DiscountableOrders(Some(session), orders, fetched, coupons, draws).value;
            forall l :: l in r ==> exists o :: o in fetched && Qualifies(o, UsedIds(Ids(fetched), coupons, draws)) && l == ListOrder(o)
  {
    var used := UsedIds(Ids(fetched), coupons, draws);
    var r := DiscountableOrders(Some(session), orders, fetched, coupons, draws).value;
    PrefixEligible(fetched, used, r);
  }

  /** The listing of the first eligible orders lists only eligible orders. */
  lemma PrefixEligible(fetched: seq<Order>, used: set<string>, r: seq<Listed>)
    requires |r| <= |Filter(fetched, used)|
    requires forall i :: 0 <= i < |r| ==> r[i] == ListOrder(Filter(fetched, used)[i])
    ensures forall l :: l in r ==> exists o :: o in fetched && Qualifies(o, used) && l == ListOrder(o)
  {
    var eligible := Filter(fetched, used);
    forall l | l in r
      ensures exists o :: o in fetched && Qualifies(o, used) && l == ListOrder(o)
    {
      var i :| 0 <= i < |r| && r[i] == l;
      EligibleAt(fetched, used, i);
      var o := eligible[i];
      assert o in fetched && Qualifies(o, used) && l == ListOrder(o);
    }
  }

  lemma EligibleAt(fetched: seq<Order>, used: set<string>, i: int)
    requires 0 <= i < |Filter(fetched, used)|
    ensures Filter(fetched, used)[i] in fetched && Qualifies(Filter(fetched, used)[i], used)
  {
    assert Filter(fetched, used)[i] in Filter(fetched, used);
  }

  /** When fewer than twenty orders are listed, every fetched order that qualifies is. */
  lemma FewListedAreAll(session: string, orders: map<string, Order>, fetched: seq<Order>,
                         coupons: map<string, Coupon>, draws: map<string, Draw>)
    requires session != [] && FetchedFor(orders, session, fetched)
    requires |DiscountableOrders(Some(session), orders, fetched, coupons, draws).value| < MAX_RETURN
    ensures var r := DiscountableOrders(Some(session), orders, fetched, coupons, draws).value;
            forall o :: o in fetched && Qualifies(o, UsedIds(Ids(fetched), coupons, draws)) ==> ListOrder(o) in r
  {
    var used := UsedIds(Ids(fetched), coupons, draws);
    var eligible := Filter(fetched, used);
    var r := DiscountableOrders(Some(session), orders, fetched, coupons, draws).value;
    assert |r| == |eligible|;
    forall o | o in fetched && Qualifies(o, used)
      ensures ListOrder(o) in r
    {
      assert o in eligible;
      var i :| 0 <= i < |eligible| && eligible[i] == o;
      assert r[i] == ListOrder(o);
    }
  }

  /** An order already linked to a used coupon is never listed. */
  lemma UsedCouponExcludes(session: string, orders: map<string, Order>, fetched: seq<Order>,
                           coupons: map<string, Coupon>, draws: map<string, Draw>, k: string)
    requires session != [] && FetchedFor(orders, session, fetched)
    requires k in coupons && coupons[k].status == COUPON_USED && coupons[k].orderId.Some?
    ensures forall l :: l in DiscountableOrders(Some(session), orders, fetched, coupons, draws).value ==>
              l.id != coupons[k].orderId.value
  {
    ListedAreEligible(session, orders, fetched, coupons, draws);
    var used := UsedIds(Ids(fetched), coupons, draws);
    forall l | l in DiscountableOrders(Some(session), orders, fetched, coupons, draws).value
      ensures l.id != coupons[k].orderId.value
    {
      var o :| o in fetched && Qualifies(o, used) && l == ListOrder(o);
      assert o.id in Ids(fetched);
    }
  }
}
