/** The discount rebate of `app/api/personal/discountService.ts`: after an order has
    ended, its host spends a 9折 coupon or a discount lottery prize and is credited part
    of the fee back to their balance, with one ledger row. */
module Discount {
  import opened Wrappers
  import opened Money
  import opened Store

  const FREE_MINUTES: int := 5
  const COUPON_RATE: real := 0.1
  const COUPON_CAP: real := 20.0
  const PRIZE_DISCOUNT_80 := "8折券"
  const PRIZE_DISCOUNT_70 := "7折券"
  const PRIZE_DISCOUNT_90_LOTTERY := "特殊9折券"
  const REBATE_KIND := "优惠返利"
  const SYSTEM_COUNTERPARTY := "SYSTEM"

  /** The share of the fee given back and the largest rebate allowed. */
  datatype RateCap = RateCap(rate: real, cap: real)

  /** `DISCOUNT_PRIZE_CONFIG`: the lottery prizes that are discounts, with their terms. */
  function PrizeConfig(name: string): (r: Option<RateCap>)
    ensures r.Some? <==> name == PRIZE_DISCOUNT_70 || name == PRIZE_DISCOUNT_80 || name == PRIZE_DISCOUNT_90_LOTTERY
    ensures r.Some? ==> 0.0 < r.value.rate < 1.0 && r.value.cap > 0.0
  {
    if name == PRIZE_DISCOUNT_70 then Some(RateCap(0.3, 150.0))
    else if name == PRIZE_DISCOUNT_80 then Some(RateCap(0.2, 100.0))
    else if name == PRIZE_DISCOUNT_90_LOTTERY then Some(RateCap(0.1, 50.0))
    else None
  }

  /** The terms of the 8折 prize, the fallback for a lottery draw. */
  const DISCOUNT_80_TERMS: RateCap := RateCap(0.2, 100.0)

  const COUPON_TERMS: RateCap := RateCap(COUPON_RATE, COUPON_CAP)

  /** A draw whose prize name is a key of `DISCOUNT_PRIZE_CONFIG`. */
  predicate IsDiscountDraw(d: Draw) {
    d.prize.Some? && PrizeConfig(d.prize.value.name).Some?
  }

  /** The billable minutes' price times the rate, before rounding. */
  function FeeShare(unitPrice: real, totalMinutes: int, rate: real): real {
    unitPrice / 60.0 * (totalMinutes - FREE_MINUTES) as real * rate
  }

  /** `computeDiscountAmount`: nothing for the first five minutes or a free order,
      otherwise the rate applied to the billable minutes' price, rounded to cents and
      then capped. */
  function ComputeDiscountAmount(unitPrice: real, totalMinutes: int, terms: RateCap): (d: real)
    ensures totalMinutes <= FREE_MINUTES || unitPrice <= 0.0 ==> d == 0.0
    ensures d == 0.0 || d == terms.cap || d == Round2(FeeShare(unitPrice, totalMinutes, terms.rate))
  {
    if totalMinutes <= FREE_MINUTES then 0.0
    else
      var perMinute := unitPrice / 60.0;
      if perMinute <= 0.0 then 0.0
      else
        var discount := Round2(FeeShare(unitPrice, totalMinutes, terms.rate));
        if discount > terms.cap then terms.cap else discount
  }

  lemma MulNonNegative(a: real, b: real)
    requires a >= 0.0 && b >= 0.0
    ensures a * b >= 0.0
  {
  }

  /** The fee share of a billable order grows with its length and is never negative. */
  lemma FeeShareMonotone(unitPrice: real, m1: int, m2: int, rate: real)
    requires unitPrice > 0.0 && rate >= 0.0 && FREE_MINUTES <= m1 <= m2
    ensures 0.0 <= FeeShare(unitPrice, m1, rate) <= FeeShare(unitPrice, m2, rate)
  {
    var p := unitPrice / 60.0;
    var b1 := (m1 - FREE_MINUTES) as real;
    var b2 := (m2 - FREE_MINUTES) as real;
    MulNonNegative(p, b1);
    MulNonNegative(p * b1, rate);
    MulNonNegative(p, b2 - b1);
    assert p * b2 - p * b1 == p * (b2 - b1);
    MulNonNegative(p * b2 - p * b1, rate);
    assert p * b2 * rate - p * b1 * rate == (p * b2 - p * b1) * rate;
  }

  /** With non-negative terms the rebate is never negative and never above the cap. */
  lemma DiscountWithinCap(unitPrice: real, totalMinutes: int, terms: RateCap)
    requires terms.rate >= 0.0 && terms.cap >= 0.0
    ensures 0.0 <= ComputeDiscountAmount(unitPrice, totalMinutes, terms) <= terms.cap
  {
    if totalMinutes > FREE_MINUTES && unitPrice > 0.0 {
      var x := FeeShare(unitPrice, totalMinutes, terms.rate);
      FeeShareMonotone(unitPrice, totalMinutes, totalMinutes, terms.rate);
      CentsSign(x);
    }
  }

  /** A longer order never earns a smaller rebate. */
  lemma DiscountMonotone(unitPrice: real, m1: int, m2: int, terms: RateCap)
    requires terms.rate >= 0.0 && terms.cap >= 0.0 && m1 <= m2
    ensures ComputeDiscountAmount(unitPrice, m1, terms) <= ComputeDiscountAmount(unitPrice, m2, terms)
  {
    if m2 > FREE_MINUTES && unitPrice > 0.0 {
      var x2 := FeeShare(unitPrice, m2, terms.rate);
      FeeShareMonotone(unitPrice, m2, m2, terms.rate);
      CentsSign(x2);
      if m1 > FREE_MINUTES {
        FeeShareMonotone(unitPrice, m1, m2, terms.rate);
        CentsMonotone(FeeShare(unitPrice, m1, terms.rate), x2);
      }
    }
  }

  /** The rebate is a whole number of cents whenever the cap is. */
  lemma DiscountInCents(unitPrice: real, totalMinutes: int, terms: RateCap)
    requires Round2(terms.cap) == terms.cap
    ensures Round2(ComputeDiscountAmount(unitPrice, totalMinutes, terms)) == ComputeDiscountAmount(unitPrice, totalMinutes, terms)
  {
    var d := ComputeDiscountAmount(unitPrice, totalMinutes, terms);
    if d == 0.0 {
      CentsExact(0);
      assert 0 as real / 100.0 == 0.0;
    } else if d != terms.cap {
      Round2Idempotent(FeeShare(unitPrice, totalMinutes, terms.rate));
    }
  }


  // ---- rows the handler looks at ----

  /** A USED coupon already linked to the order, or a USED discount draw of the host whose
      requestId is the order: the rebate was already given. */
  predicate AlreadyUsed(coupons: map<string, Coupon>, draws: map<string, Draw>, orderId: string, userId: string) {
    (exists k :: k in coupons && coupons[k].orderId == Some(orderId) && coupons[k].status == COUPON_USED)
    || (exists k :: k in draws && draws[k].userId == userId && draws[k].status == DRAW_USED
          && draws[k].requestId == Some(orderId) && IsDiscountDraw(draws[k]))
  }

  predicate CouponExpiring(c: Coupon, userId: string, now: int) {
    c.discordId == userId && c.status == COUPON_ACTIVE && c.expiresAt <= now
  }

  predicate DrawExpiring(d: Draw, userId: string, now: int) {
    d.userId == userId && d.status == DRAW_UNUSED && d.expiresAt <= now && IsDiscountDraw(d)
  }

  /** The first `updateMany`: the host's ACTIVE coupons past their expiry become EXPIRED. */
  function SweepCoupons(coupons: map<string, Coupon>, userId: string, now: int): (r: map<string, Coupon>)
    ensures r.Keys == coupons.Keys
    ensures forall k :: k in r ==> r[k].status != COUPON_ACTIVE || r[k].discordId != userId || r[k].expiresAt > now
    ensures forall k :: k in r && !CouponExpiring(coupons[k], userId, now) ==> r[k] == coupons[k]
    ensures forall k :: k in r && CouponExpiring(coupons[k], userId, now) ==> r[k] == coupons[k].(status := COUPON_EXPIRED)
  {
    map k | k in coupons :: if CouponExpiring(coupons[k], userId, now) then coupons[k].(status := COUPON_EXPIRED) else coupons[k]
  }

  /** The second `updateMany`: the host's UNUSED discount draws past their expiry become
      EXPIRED; other draws are left alone. */
  function SweepDraws(draws: map<string, Draw>, userId: string, now: int): (r: map<string, Draw>)
    ensures r.Keys == draws.Keys
    ensures forall k :: k in r ==> !DrawExpiring(r[k], userId, now)
    ensures forall k :: k in r && !DrawExpiring(draws[k], userId, now) ==> r[k] == draws[k]
    ensures forall k :: k in r && DrawExpiring(draws[k], userId, now) ==> r[k] == draws[k].(status := DRAW_EXPIRED)
  {
    map k | k in draws :: if DrawExpiring(draws[k], userId, now) then draws[k].(status := DRAW_EXPIRED) else draws[k]
  }

  /** Sweeping twice is sweeping once. */
  lemma SweepIdempotent(coupons: map<string, Coupon>, draws: map<string, Draw>, userId: string, now: int)
    ensures SweepCoupons(SweepCoupons(coupons, userId, now), userId, now) == SweepCoupons(coupons, userId, now)
    ensures SweepDraws(SweepDraws(draws, userId, now), userId, now) == SweepDraws(draws, userId, now)
  {
    var c1 := SweepCoupons(coupons, userId, now);
    assert forall k :: k in c1 ==> !CouponExpiring(c1[k], userId, now);
  }

  predicate CouponEligible(c: Coupon, userId: string, now: int) {
    c.discordId == userId && c.couponType == COUPON_DISCOUNT_90 && c.status == COUPON_ACTIVE && c.expiresAt > now
  }

  predicate DrawEligible(d: Draw, userId: string, now: int) {
    d.userId == userId && d.status == DRAW_UNUSED && d.expiresAt > now && IsDiscountDraw(d)
  }

  /** An id the caller named (`targetCouponId ? … : …` treats "" as none). */
  predicate Explicit(target: Option<string>) {
    target.Some? && target.value != ""
  }

  /** Draw `a` may come first in `orderBy: [expiresAt asc, createdAt asc]`. */
  predicate DrawNoLater(a: Draw, b: Draw) {
    a.expiresAt < b.expiresAt || (a.expiresAt == b.expiresAt && a.createdAt <= b.createdAt)
  }

  /** A coupon `findFirst` may return: the named one if eligible, else one with the
      earliest issuedAt among the eligible. */
  predicate CouponChoice(coupons: map<string, Coupon>, target: Option<string>, userId: string, now: int, id: string) {
    id in coupons && CouponEligible(coupons[id], userId, now)
    && (Explicit(target) ==> id == target.value)
    && (!Explicit(target) ==> forall k :: k in coupons && CouponEligible(coupons[k], userId, now) ==> coupons[id].issuedAt <= coupons[k].issuedAt)
  }

  /** A draw `findFirst` may return: the named one if eligible, else an eligible draw that
      no other eligible draw comes before. */
  predicate DrawChoice(draws: map<string, Draw>, target: Option<string>, userId: string, now: int, id: string) {
    id in draws && DrawEligible(draws[id], userId, now)
    && (Explicit(target) ==> id == target.value)
    && (!Explicit(target) ==> forall k :: k in draws && DrawEligible(draws[k], userId, now) ==> DrawNoLater(draws[id], draws[k]))
  }

  /** Among finitely many coupons one was issued no later than all the others. */
  lemma {:induction false} EarliestCouponIn(coupons: map<string, Coupon>, ids: set<string>)
    requires ids <= coupons.Keys && ids != {}
    ensures exists id :: id in ids && forall k :: k in ids ==> coupons[id].issuedAt <= coupons[k].issuedAt
    decreases ids
  {
    var k :| k in ids;
    var rest := ids - {k};
    if rest == {} {
      forall j | j in ids
        ensures coupons[k].issuedAt <= coupons[j].issuedAt
      {
        assert j !in rest;
      }
    } else {
      EarliestCouponIn(coupons, rest);
      var m :| m in rest && forall j :: j in rest ==> coupons[m].issuedAt <= coupons[j].issuedAt;
      var best := if coupons[k].issuedAt < coupons[m].issuedAt then k else m;
      forall j | j in ids
        ensures coupons[best].issuedAt <= coupons[j].issuedAt
      {
        if j != k {
          assert j in rest;
        }
      }
      assert best in ids;
    }
  }

  /** `DrawNoLater` orders draws the way the query does, totally. */
  lemma DrawNoLaterOrder(a: Draw, b: Draw, c: Draw)
    ensures DrawNoLater(a, b) || DrawNoLater(b, a)
    ensures DrawNoLater(a, b) && DrawNoLater(b, c) ==> DrawNoLater(a, c)
  {
  }

  /** Among finitely many draws one comes no later than all the others. */
  lemma {:induction false} EarliestDrawIn(draws: map<string, Draw>, ids: set<string>)
    requires ids <= draws.Keys && ids != {}
    ensures exists id :: id in ids && forall k :: k in ids ==> DrawNoLater(draws[id], draws[k])
    decreases ids
  {
    var k :| k in ids;
    var rest := ids - {k};
    if rest == {} {
      forall j | j in ids
        ensures DrawNoLater(draws[k], draws[j])
      {
        assert j !in rest;
      }
    } else {
      EarliestDrawIn(draws, rest);
      var m :| m in rest && forall j :: j in rest ==> DrawNoLater(draws[m], draws[j]);
      var best := if DrawNoLater(draws[k], draws[m]) then k else m;
      forall j | j in ids
        ensures DrawNoLater(draws[best], draws[j])
      {
        if j != k {
          assert j in rest;
        }
        DrawNoLaterOrder(draws[best], draws[m], draws[j]);
        DrawNoLaterOrder(draws[k], draws[m], draws[j]);
      }
    }
  }

  /** The coupon query of the handler. Without a named id it finds a coupon exactly when
      the host holds an eligible one. */
  method SelectCoupon(coupons: map<string, Coupon>, target: Option<string>, userId: string, now: int)
    returns (id: Option<string>)
    ensures id.Some? ==> CouponChoice(coupons, target, userId, now, id.value)
    ensures id.None? ==> forall k :: !CouponChoice(coupons, target, userId, now, k)
    ensures id.None? && !Explicit(target) ==> forall k :: k in coupons ==> !CouponEligible(coupons[k], userId, now)
  {
    if Explicit(target) {
      var t := target.value;
      if t in coupons && CouponEligible(coupons[t], userId, now) {
        return Some(t);
      }
      return None;
    }
    if exists k :: k in coupons && CouponEligible(coupons[k], userId, now) {
      var eligible := set k | k in coupons && CouponEligible(coupons[k], userId, now);
      var w :| w in coupons && CouponEligible(coupons[w], userId, now);
      assert w in eligible;
      EarliestCouponIn(coupons, eligible);
      var k :| k in eligible && forall j :: j in eligible ==> coupons[k].issuedAt <= coupons[j].issuedAt;
      assert CouponChoice(coupons, target, userId, now, k);
      return Some(k);
    }
    return None;
  }

  /** The lottery query of the handler. Without a named id it finds a draw exactly when
      the host holds an eligible one. */
  method SelectDraw(draws: map<string, Draw>, target: Option<string>, userId: string, now: int)
    returns (id: Option<string>)
    ensures id.Some? ==> DrawChoice(draws, target, userId, now, id.value)
    ensures id.None? ==> forall k :: !DrawChoice(draws, target, userId, now, k)
    ensures id.None? && !Explicit(target) ==> forall k :: k in draws ==> !DrawEligible(draws[k], userId, now)
  {
    if Explicit(target) {
      var t := target.value;
      if t in draws && DrawEligible(draws[t], userId, now) {
        return Some(t);
      }
      return None;
    }
    if exists k :: k in draws && DrawEligible(draws[k], userId, now) {
      var eligible := set k | k in draws && DrawEligible(draws[k], userId, now);
      var w :| w in draws && DrawEligible(draws[w], userId, now);
      assert w in eligible;
      EarliestDrawIn(draws, eligible);
      var k :| k in eligible && forall j :: j in eligible ==> DrawNoLater(draws[k], draws[j]);
      assert DrawChoice(draws, target, userId, now, k);
      return Some(k);
    }
    return None;
  }

  /** The terms of a chosen lottery draw: its prize's entry, or the 8折 entry. */
  function DrawTerms(d: Draw): RateCap {
    var name := PrizeName(d);
    var found := if name.Some? && name.value != "" then PrizeConfig(name.value) else None;
    found.GetOr(DISCOUNT_80_TERMS)
  }

  /** Every discount draw is rebated on its own prize's terms. */
  lemma DrawTermsOfDiscountDraw(d: Draw)
    requires IsDiscountDraw(d)
    ensures DrawTerms(d) == PrizeConfig(d.prize.value.name).value
  {
  }

  datatype Kind = KindCoupon | KindLottery

  datatype Outcome =
    | Applied(kind: Kind, discountAmount: real, couponId: Option<string>, lotteryId: Option<string>)
    | OrderNotFound
    | NotOrderHost
    | OrderNotEnded
    | AlreadyUsedStatus
    | NoCoupon
    | NoLottery
    | NoFee
    | InsufficientData
      /** The host has no member row: `member.update` throws and the transaction,
          sweeps included, is rolled back. */
    | Failed

  /** The ledger row of a rebate. */
  function RebateEntry(userId: string, workerId: Option<string>, totalBalance: Option<real>, amount: real, now: int): (e: LedgerEntry)
    ensures e.balanceBefore + e.amountChange == e.balanceAfter
    ensures e.balanceBefore == totalBalance.GetOr(0.0) && e.amountChange == amount
    ensures e.discordId == userId && e.counterparty == workerId.GetOr(SYSTEM_COUNTERPARTY)
  {
    var before := totalBalance.GetOr(0.0);
    LedgerEntry(userId, workerId.GetOr(SYSTEM_COUNTERPARTY), before, amount, before + amount, REBATE_KIND, now)
  }

  /** The coupons after the rebate is recorded on coupon `id`. An empty id is falsy, so
      `if (kind === 'coupon' && couponId)` skips the update. */
  function UseCoupon(coupons: map<string, Coupon>, id: string, orderId: string, amount: real, now: int): (r: map<string, Coupon>)
    requires id in coupons
    ensures r.Keys == coupons.Keys
    ensures forall k :: k in r && k != id ==> r[k] == coupons[k]
    ensures id != "" ==> r[id] == coupons[id].(status := COUPON_USED, orderId := Some(orderId),
      discountAmount := Some(amount), consumedAt := Some(now))
    ensures id == "" ==> r == coupons
  {
    if id == "" then coupons
    else coupons[id := coupons[id].(consumedAt := Some(now), orderId := Some(orderId),
      discountAmount := Some(amount), status := COUPON_USED)]
  }

  /** The draws after draw `id` is spent on the order; skipped for an empty id. */
  function UseDraw(draws: map<string, Draw>, id: string, orderId: string, now: int): (r: map<string, Draw>)
    requires id in draws
    ensures r.Keys == draws.Keys
    ensures forall k :: k in r && k != id ==> r[k] == draws[k]
    ensures id != "" ==> r[id] == draws[id].(status := DRAW_USED, consumeAt := Some(now), requestId := Some(orderId))
    ensures id == "" ==> r == draws
  {
    if id == "" then draws
    else draws[id := draws[id].(status := DRAW_USED, consumeAt := Some(now), requestId := Some(orderId))]
  }

  /** The member after a rebate: balance and recharge total grow by it. */
  function CreditMember(m: Member, amount: real): Member {
    m.(recharge := Increment(m.recharge, amount), totalBalance := Increment(m.totalBalance, amount))
  }

  /** A coupon spent on an order makes every later request for that order "already used". */
  lemma CouponRebateMarksOrder(coupons: map<string, Coupon>, draws: map<string, Draw>, id: string,
                               orderId: string, userId: string, amount: real, now: int)
    requires id in coupons && id != ""
    ensures AlreadyUsed(UseCoupon(coupons, id, orderId, amount, now), draws, orderId, userId)
  {
    var used := UseCoupon(coupons, id, orderId, amount, now);
    assert used[id].orderId == Some(orderId) && used[id].status == COUPON_USED;
  }

  /** A discount draw of the host spent on an order makes every later request for that
      order "already used". */
  lemma DrawRebateMarksOrder(coupons: map<string, Coupon>, draws: map<string, Draw>, id: string,
                             orderId: string, userId: string, now: int)
    requires id in draws && id != "" && DrawEligible(draws[id], userId, now)
    ensures AlreadyUsed(coupons, UseDraw(draws, id, orderId, now), orderId, userId)
  {
    var used := UseDraw(draws, id, orderId, now);
    assert used[id].requestId == Some(orderId) && used[id].status == DRAW_USED && IsDiscountDraw(used[id]);
  }

  /** The checks made before any write, in the handler's order: the order exists, the
      caller hosted it, it has ended, and no rebate was given for it yet. `None` when
      all pass. */
  function Precheck(orders: map<string, Order>, coupons: map<string, Coupon>, draws: map<string, Draw>,
                    orderId: string, userId: string): (r: Option<Outcome>)
    ensures r == Some(OrderNotFound) <==> orderId !in orders
    ensures r == Some(NotOrderHost) <==> orderId in orders && orders[orderId].hostId != Some(userId)
    ensures r == Some(OrderNotEnded) <==> (orderId in orders && orders[orderId].hostId == Some(userId)
      && orders[orderId].status != ORDER_ENDED)
    ensures r == Some(AlreadyUsedStatus) <==> (orderId in orders && orders[orderId].hostId == Some(userId)
      && orders[orderId].status == ORDER_ENDED && AlreadyUsed(coupons, draws, orderId, userId))
    ensures r.Some? ==> r.value in {OrderNotFound, NotOrderHost, OrderNotEnded, AlreadyUsedStatus}
  {
    if orderId !in orders then Some(OrderNotFound)
    else if orders[orderId].hostId != Some(userId) then Some(NotOrderHost)
    else if orders[orderId].status != ORDER_ENDED then Some(OrderNotEnded)
    else if AlreadyUsed(coupons, draws, orderId, userId) then Some(AlreadyUsedStatus)
    else None
  }

  /** The checks before any write pass for this request. */
  ghost predicate Admitted(db: Db, orderId: string, userId: string)
    reads db
  {
    Precheck(db.orders, db.coupons, db.draws, orderId, userId).None?
  }

  /** The two `updateMany` sweeps of the transaction. */
  method SweepExpired(db: Db, userId: string, now: int)
    requires db.Valid()
    modifies db
    ensures db.Valid()
    ensures db.coupons == SweepCoupons(old(db.coupons), userId, now)
    ensures db.draws == SweepDraws(old(db.draws), userId, now)
    ensures db.members == old(db.members) && db.orders == old(db.orders) && db.ledger == old(db.ledger)
    ensures db.peiwans == old(db.peiwans) && db.payOrders == old(db.payOrders) && db.referrals == old(db.referrals)
    ensures db.recharges == old(db.recharges) && db.withdrawals == old(db.withdrawals)
  {
    db.coupons := SweepCoupons(db.coupons, userId, now);
    db.draws := SweepDraws(db.draws, userId, now);
  }

  /** The instrument row of a granted rebate is marked spent on the order. */
  method SpendInstrument(db: Db, order: Order, kind: Kind, chosen: string, amount: real, now: int)
    requires db.Valid()
    requires kind == KindCoupon ==> chosen in db.coupons
    requires kind == KindLottery ==> chosen in db.draws
    modifies db
    ensures db.Valid()
    ensures db.coupons == if kind == KindCoupon then UseCoupon(old(db.coupons), chosen, order.id, amount, now) else old(db.coupons)
    ensures db.draws == if kind == KindLottery then UseDraw(old(db.draws), chosen, order.id, now) else old(db.draws)
    ensures db.members == old(db.members) && db.ledger == old(db.ledger) && db.orders == old(db.orders)
    ensures db.peiwans == old(db.peiwans) && db.payOrders == old(db.payOrders) && db.referrals == old(db.referrals)
    ensures db.recharges == old(db.recharges) && db.withdrawals == old(db.withdrawals)
  {
    if kind == KindCoupon {
      db.coupons := UseCoupon(db.coupons, chosen, order.id, amount, now);
    } else {
      db.draws := UseDraw(db.draws, chosen, order.id, now);
    }
  }

  /** The member is credited and one balanced ledger row appended. */
  method RecordRebate(db: Db, userId: string, workerId: Option<string>, amount: real, now: int)
    requires db.Valid() && userId in db.members
    modifies db
    ensures db.Valid()
    ensures db.members == old(db.members)[userId := CreditMember(old(db.members)[userId], amount)]
    ensures db.ledger == old(db.ledger) + [RebateEntry(userId, workerId, old(db.members)[userId].totalBalance, amount, now)]
    ensures db.coupons == old(db.coupons) && db.draws == old(db.draws) && db.orders == old(db.orders)
    ensures db.peiwans == old(db.peiwans) && db.payOrders == old(db.payOrders) && db.referrals == old(db.referrals)
    ensures db.recharges == old(db.recharges) && db.withdrawals == old(db.withdrawals)
  {
    var member := db.members[userId];
    db.members := db.members[userId := CreditMember(member, amount)];
    var entry := RebateEntry(userId, workerId, member.totalBalance, amount, now);
    db.ledger := db.ledger + [entry];
    assert db.ledger[|db.ledger| - 1] == entry;
  }

  /** What the handler decides once the sweeps are done: a refusal, or the instrument
      to spend and the rebate. */
  datatype Quote = Refused(outcome: Outcome) | Granted(chosen: string, amount: real)

  /** The instrument query of this kind finds a row. */
  predicate HasInstrument(coupons: map<string, Coupon>, draws: map<string, Draw>, kind: Kind,
                          targetLotteryId: Option<string>, targetCouponId: Option<string>, userId: string, now: int)
  {
    if kind == KindCoupon then exists k :: k in coupons && CouponChoice(coupons, targetCouponId, userId, now, k)
    else exists k :: k in draws && DrawChoice(draws, targetLotteryId, userId, now, k)
  }

  /** `order.unitPrice && order.totalMinutes != null`: the order carries what the rebate needs. */
  predicate HasOrderData(order: Order) {
    order.unitPrice.Some? && order.totalMinutes.Some?
  }

  /** Whichever row the instrument query may return, the rebate on the order is positive. */
  predicate EveryChoicePays(coupons: map<string, Coupon>, draws: map<string, Draw>, order: Order, kind: Kind,
                            targetLotteryId: Option<string>, targetCouponId: Option<string>, userId: string, now: int)
  {
    HasOrderData(order) &&
    if kind == KindCoupon then ComputeDiscountAmount(order.unitPrice.value, order.totalMinutes.value, COUPON_TERMS) > 0.0
    else forall k :: k in draws && DrawChoice(draws, targetLotteryId, userId, now, k) ==>
      ComputeDiscountAmount(order.unitPrice.value, order.totalMinutes.value, DrawTerms(draws[k])) > 0.0
  }

  /** Whichever row the instrument query may return, the rebate on the order is nothing. */
  predicate NoChoicePays(coupons: map<string, Coupon>, draws: map<string, Draw>, order: Order, kind: Kind,
                         targetLotteryId: Option<string>, targetCouponId: Option<string>, userId: string, now: int)
  {
    HasOrderData(order) &&
    if kind == KindCoupon then ComputeDiscountAmount(order.unitPrice.value, order.totalMinutes.value, COUPON_TERMS) <= 0.0
    else forall k :: k in draws && DrawChoice(draws, targetLotteryId, userId, now, k) ==>
      ComputeDiscountAmount(order.unitPrice.value, order.totalMinutes.value, DrawTerms(draws[k])) <= 0.0
  }

  /** Past the instrument query the handler checks the order's data, then the fee, then
      updates the member (`isMember` says whether that row exists): `r` is what each of
      these answers, in that order. */
  predicate FeeChecked(coupons: map<string, Coupon>, draws: map<string, Draw>, order: Order, kind: Kind,
                       targetLotteryId: Option<string>, targetCouponId: Option<string>, userId: string, now: int,
                       isMember: bool, r: Outcome)
  {
    && (r.InsufficientData? <==>
          HasInstrument(coupons, draws, kind, targetLotteryId, targetCouponId, userId, now) && !HasOrderData(order))
    && (r.NoFee? ==>
          && HasInstrument(coupons, draws, kind, targetLotteryId, targetCouponId, userId, now) && HasOrderData(order)
          && !EveryChoicePays(coupons, draws, order, kind, targetLotteryId, targetCouponId, userId, now))
    && (r.Applied? || r.Failed? ==>
          && HasInstrument(coupons, draws, kind, targetLotteryId, targetCouponId, userId, now) && HasOrderData(order)
          && !NoChoicePays(coupons, draws, order, kind, targetLotteryId, targetCouponId, userId, now))
    && (HasInstrument(coupons, draws, kind, targetLotteryId, targetCouponId, userId, now) ==>
          && (NoChoicePays(coupons, draws, order, kind, targetLotteryId, targetCouponId, userId, now) ==> r.NoFee?)
          && (EveryChoicePays(coupons, draws, order, kind, targetLotteryId, targetCouponId, userId, now) ==>
                (r.Applied? <==> isMember)))
  }

  /** With a coupon, or a named draw, only one row can be chosen, so the fee check has
      one answer: the rebate pays or it does not. Only ties among unnamed draws leave
      it open. */
  lemma FeeCheckDetermined(coupons: map<string, Coupon>, draws: map<string, Draw>, order: Order, kind: Kind,
                           targetLotteryId: Option<string>, targetCouponId: Option<string>, userId: string, now: int)
    requires kind == KindCoupon || Explicit(targetLotteryId)
    requires HasInstrument(coupons, draws, kind, targetLotteryId, targetCouponId, userId, now) && HasOrderData(order)
    ensures EveryChoicePays(coupons, draws, order, kind, targetLotteryId, targetCouponId, userId, now)
        <==> !NoChoicePays(coupons, draws, order, kind, targetLotteryId, targetCouponId, userId, now)
  {
    if kind == KindLottery {
      var k :| DrawChoice(draws, targetLotteryId, userId, now, k);
      assert forall j :: DrawChoice(draws, targetLotteryId, userId, now, j) ==> j == k;
    }
  }

  /** The instrument query, the order-data check and the fee check of the handler, on the
      swept rows. */
  method QuoteRebate(coupons: map<string, Coupon>, draws: map<string, Draw>, order: Order, kind: Kind,
                     targetLotteryId: Option<string>, targetCouponId: Option<string>, userId: string, now: int)
    returns (q: Quote)
    ensures q.Refused? ==> q.outcome in {NoCoupon, NoLottery, InsufficientData, NoFee}
    ensures kind == KindCoupon ==>
      (q == Refused(NoCoupon) <==> forall k :: !CouponChoice(coupons, targetCouponId, userId, now, k))
    ensures kind == KindLottery ==>
      (q == Refused(NoLottery) <==> forall k :: !DrawChoice(draws, targetLotteryId, userId, now, k))
    ensures kind == KindCoupon ==> q != Refused(NoLottery)
    ensures kind == KindLottery ==> q != Refused(NoCoupon)
    ensures q == Refused(InsufficientData) <==>
      HasInstrument(coupons, draws, kind, targetLotteryId, targetCouponId, userId, now) && !HasOrderData(order)
    ensures q == Refused(NoFee) ==>
      && HasInstrument(coupons, draws, kind, targetLotteryId, targetCouponId, userId, now)
      && HasOrderData(order) && !EveryChoicePays(coupons, draws, order, kind, targetLotteryId, targetCouponId, userId, now)
    ensures q.Granted? ==>
      && HasInstrument(coupons, draws, kind, targetLotteryId, targetCouponId, userId, now)
      && HasOrderData(order) && !NoChoicePays(coupons, draws, order, kind, targetLotteryId, targetCouponId, userId, now)
    ensures HasInstrument(coupons, draws, kind, targetLotteryId, targetCouponId, userId, now) ==>
      && (NoChoicePays(coupons, draws, order, kind, targetLotteryId, targetCouponId, userId, now) ==> q == Refused(NoFee))
      && (EveryChoicePays(coupons, draws, order, kind, targetLotteryId, targetCouponId, userId, now) ==> q.Granted?)
    ensures q.Granted? ==> q.amount > 0.0
    ensures q.Granted? && kind == KindCoupon ==>
      && CouponChoice(coupons, targetCouponId, userId, now, q.chosen)
      && q.amount == ComputeDiscountAmount(order.unitPrice.value, order.totalMinutes.value, COUPON_TERMS)
    ensures q.Granted? && kind == KindLottery ==>
      && DrawChoice(draws, targetLotteryId, userId, now, q.chosen)
      && q.amount == ComputeDiscountAmount(order.unitPrice.value, order.totalMinutes.value, DrawTerms(draws[q.chosen]))
  {
    var chosen: string;
    var terms: RateCap;
    if kind == KindCoupon {
      var found := SelectCoupon(coupons, targetCouponId, userId, now);
      if found.None? {
        return Refused(NoCoupon);
      }
      chosen := found.value;
      terms := COUPON_TERMS;
    } else {
      var found := SelectDraw(draws, targetLotteryId, userId, now);
      if found.None? {
        return Refused(NoLottery);
      }
      chosen := found.value;
      terms := DrawTerms(draws[chosen]);
    }
    if order.unitPrice.None? || order.totalMinutes.None? {
      return Refused(InsufficientData);
    }
    var amount := ComputeDiscountAmount(order.unitPrice.value, order.totalMinutes.value, terms);
    if amount <= 0.0 {
      return Refused(NoFee);
    }
    return Granted(chosen, amount);
  }

  /** `applyDiscountForOrder` once the checks before any write have passed: the sweeps,
      the quote, and the writes of a granted rebate. */
  method Redeem(db: Db, order: Order, userId: string, kind: Kind,
                targetLotteryId: Option<string>, targetCouponId: Option<string>, now: int)
    returns (r: Outcome)
    requires db.Valid() && order.id in db.orders && db.orders[order.id] == order
    modifies db
    ensures db.Valid()
    ensures !r.Applied? ==> r in {NoCoupon, NoLottery, InsufficientData, NoFee, Failed}
    ensures r.Failed? ==> Untouched(db) && userId !in old(db.members)
    ensures kind == KindCoupon ==>
      (r == NoCoupon <==> forall k :: !CouponChoice(SweepCoupons(old(db.coupons), userId, now), targetCouponId, userId, now, k))
    ensures kind == KindLottery ==>
      (r == NoLottery <==> forall k :: !DrawChoice(SweepDraws(old(db.draws), userId, now), targetLotteryId, userId, now, k))
    ensures kind == KindCoupon ==> r != NoLottery
    ensures kind == KindLottery ==> r != NoCoupon
    // past the instrument query, the data check, then the fee check, then the member update
    ensures FeeChecked(SweepCoupons(old(db.coupons), userId, now), SweepDraws(old(db.draws), userId, now), order,
              kind, targetLotteryId, targetCouponId, userId, now, userId in old(db.members), r)
    ensures r.NoCoupon? || r.NoLottery? || r.NoFee? || r.InsufficientData? ==>
      && db.coupons == SweepCoupons(old(db.coupons), userId, now)
      && db.draws == SweepDraws(old(db.draws), userId, now)
      && db.members == old(db.members) && db.ledger == old(db.ledger)
    ensures r.Applied? ==>
      && r.kind == kind && userId in old(db.members) && r.discountAmount > 0.0
      && db.members == old(db.members)[userId := CreditMember(old(db.members)[userId], r.discountAmount)]
      && db.ledger == old(db.ledger) + [RebateEntry(userId, order.workerId,
           old(db.members)[userId].totalBalance, r.discountAmount, now)]
    ensures r.Applied? && kind == KindCoupon ==>
      && r.couponId.Some? && r.lotteryId.None?
      && CouponChoice(SweepCoupons(old(db.coupons), userId, now), targetCouponId, userId, now, r.couponId.value)
      && r.discountAmount == ComputeDiscountAmount(order.unitPrice.value, order.totalMinutes.value, COUPON_TERMS)
      && db.coupons == UseCoupon(SweepCoupons(old(db.coupons), userId, now), r.couponId.value, order.id, r.discountAmount, now)
      && db.draws == SweepDraws(old(db.draws), userId, now)
    ensures r.Applied? && kind == KindLottery ==>
      && r.lotteryId.Some? && r.couponId.None?
      && DrawChoice(SweepDraws(old(db.draws), userId, now), targetLotteryId, userId, now, r.lotteryId.value)
      && r.discountAmount == ComputeDiscountAmount(order.unitPrice.value, order.totalMinutes.value,
           DrawTerms(SweepDraws(old(db.draws), userId, now)[r.lotteryId.value]))
      && db.draws == UseDraw(SweepDraws(old(db.draws), userId, now), r.lotteryId.value, order.id, now)
      && db.coupons == SweepCoupons(old(db.coupons), userId, now)
    ensures db.orders == old(db.orders)
    ensures db.peiwans == old(db.peiwans) && db.payOrders == old(db.payOrders) && db.referrals == old(db.referrals)
    ensures db.recharges == old(db.recharges) && db.withdrawals == old(db.withdrawals)
  {
    var swept := SweepCoupons(db.coupons, userId, now);
    var sweptDraws := SweepDraws(db.draws, userId, now);
    var q := QuoteRebate(swept, sweptDraws, order, kind, targetLotteryId, targetCouponId, userId, now);
    if q.Refused? {
      SweepExpired(db, userId, now);
      return q.outcome;
    }
    if userId !in db.members {
      // the failed member update rolls the sweeps back with it
      return Failed;
    }
    SweepExpired(db, userId, now);
    SpendInstrument(db, order, kind, q.chosen, q.amount, now);
    RecordRebate(db, userId, order.workerId, q.amount, now);
    if kind == KindCoupon {
      r := Applied(kind, q.amount, Some(q.chosen), None);
    } else {
      r := Applied(kind, q.amount, None, Some(q.chosen));
    }
  }

  /** `applyDiscountForOrder`: the checks before any write, then the redemption. */
  method ApplyDiscountForOrder(db: Db, orderId: string, userId: string, kind: Kind,
                               targetLotteryId: Option<string>, targetCouponId: Option<string>, now: int)
    returns (r: Outcome)
    requires db.Valid()
    modifies db
    ensures db.Valid()
    ensures !old(Admitted(db, orderId, userId)) ==>
      Some(r) == Precheck(old(db.orders), old(db.coupons), old(db.draws), orderId, userId) && Untouched(db)
    ensures old(Admitted(db, orderId, userId)) ==> r !in {OrderNotFound, NotOrderHost, OrderNotEnded, AlreadyUsedStatus}
    ensures old(Admitted(db, orderId, userId)) && !r.Applied? ==> r in {NoCoupon, NoLottery, InsufficientData, NoFee, Failed}
    ensures r.Failed? ==> Untouched(db) && userId !in old(db.members)
    ensures old(Admitted(db, orderId, userId)) && kind == KindCoupon ==>
      (r == NoCoupon <==> forall k :: !CouponChoice(SweepCoupons(old(db.coupons), userId, now), targetCouponId, userId, now, k))
    ensures old(Admitted(db, orderId, userId)) && kind == KindLottery ==>
      (r == NoLottery <==> forall k :: !DrawChoice(SweepDraws(old(db.draws), userId, now), targetLotteryId, userId, now, k))
    ensures kind == KindCoupon ==> r != NoLottery
    ensures kind == KindLottery ==> r != NoCoupon
    ensures r !in {OrderNotFound, NotOrderHost, OrderNotEnded, AlreadyUsedStatus} ==> old(Admitted(db, orderId, userId))
    ensures r.InsufficientData? || r.NoFee? || r.Applied? ==> orderId in old(db.orders)
    // past the checks and the instrument query, the data check, then the fee check, then the member update
    ensures old(Admitted(db, orderId, userId)) ==>
      FeeChecked(SweepCoupons(old(db.coupons), userId, now), SweepDraws(old(db.draws), userId, now),
                 old(db.orders)[orderId], kind, targetLotteryId, targetCouponId, userId, now, userId in old(db.members), r)
    // a refusal after the checks leaves only the sweeps behind
    ensures r.NoCoupon? || r.NoLottery? || r.NoFee? || r.InsufficientData? ==>
      && db.coupons == SweepCoupons(old(db.coupons), userId, now)
      && db.draws == SweepDraws(old(db.draws), userId, now)
    ensures r.Applied? ==>
      && r.kind == kind && userId in old(db.members) && r.discountAmount > 0.0 && orderId in old(db.orders)
      && db.members == old(db.members)[userId := CreditMember(old(db.members)[userId], r.discountAmount)]
      && db.ledger == old(db.ledger) + [RebateEntry(userId, old(db.orders)[orderId].workerId,
           old(db.members)[userId].totalBalance, r.discountAmount, now)]
    ensures r.Applied? && kind == KindCoupon ==>
      && orderId in old(db.orders) && r.couponId.Some? && r.lotteryId.None?
      && CouponChoice(SweepCoupons(old(db.coupons), userId, now), targetCouponId, userId, now, r.couponId.value)
      && old(db.orders)[orderId].unitPrice.Some? && old(db.orders)[orderId].totalMinutes.Some?
      && r.discountAmount == ComputeDiscountAmount(old(db.orders)[orderId].unitPrice.value,
           old(db.orders)[orderId].totalMinutes.value, COUPON_TERMS)
      && db.coupons == UseCoupon(SweepCoupons(old(db.coupons), userId, now), r.couponId.value, orderId, r.discountAmount, now)
      && db.draws == SweepDraws(old(db.draws), userId, now)
    ensures r.Applied? && kind == KindLottery ==>
      && orderId in old(db.orders) && r.lotteryId.Some? && r.couponId.None?
      && DrawChoice(SweepDraws(old(db.draws), userId, now), targetLotteryId, userId, now, r.lotteryId.value)
      && r.lotteryId.value in SweepDraws(old(db.draws), userId, now)
      && old(db.orders)[orderId].unitPrice.Some? && old(db.orders)[orderId].totalMinutes.Some?
      && r.discountAmount == ComputeDiscountAmount(old(db.orders)[orderId].unitPrice.value,
           old(db.orders)[orderId].totalMinutes.value, DrawTerms(SweepDraws(old(db.draws), userId, now)[r.lotteryId.value]))
      && db.draws == UseDraw(SweepDraws(old(db.draws), userId, now), r.lotteryId.value, orderId, now)
      && db.coupons == SweepCoupons(old(db.coupons), userId, now)
    ensures !r.Applied? ==> db.members == old(db.members) && db.ledger == old(db.ledger)
    ensures db.orders == old(db.orders)
    ensures db.peiwans == old(db.peiwans) && db.payOrders == old(db.payOrders) && db.referrals == old(db.referrals)
    ensures db.recharges == old(db.recharges) && db.withdrawals == old(db.withdrawals)
    // a second request for the same order is refused
    ensures r.Applied? && (r.couponId.Some? ==> r.couponId.value != "") && (r.lotteryId.Some? ==> r.lotteryId.value != "") ==>
      Precheck(db.orders, db.coupons, db.draws, orderId, userId) == Some(AlreadyUsedStatus)
  {
    var rejected := Precheck(db.orders, db.coupons, db.draws, orderId, userId);
    if rejected.Some? {
      return rejected.value;
    }
    r := Redeem(db, db.orders[orderId], userId, kind, targetLotteryId, targetCouponId, now);
    if r.Applied? && r.couponId.Some? && r.couponId.value != "" {
      CouponRebateMarksOrder(SweepCoupons(old(db.coupons), userId, now), db.draws, r.couponId.value,
        orderId, userId, r.discountAmount, now);
    } else if r.Applied? && r.lotteryId.Some? && r.lotteryId.value != "" {
      DrawRebateMarksOrder(db.coupons, SweepDraws(old(db.draws), userId, now), r.lotteryId.value, orderId, userId, now);
    }
  }
}
