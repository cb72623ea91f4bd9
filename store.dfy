/** The database tables the money and voucher handlers read and write, held in memory:
    one map per table keyed by its unique column, and append-only sequences for the
    tables that are only ever inserted into. Each handler of the model is one atomic
    method over a `Db`, matching the `prisma.$transaction` (or sequence of calls) in the
    source. */
module Store {
  import opened Wrappers
  import opened Money

  /** The `VIPRoleOptOut` column of a member: null, a boolean, or, in rows written
      outside the application, some other text. */
  datatype OptOut = OptNull | OptBool(flag: bool) | OptText(text: string)

  /** The column's value cast to text, as `"VIPRoleOptOut"::text` reads it. */
  function OptOutText(o: OptOut): Option<string> {
    match o
    case OptNull => None
    case OptBool(b) => Some(if b then "true" else "false")
    case OptText(t) => Some(t)
  }

  /** A row of `Member`. The money columns are nullable: the source reads them with
      `?? 0`, and SQL arithmetic on a null column leaves it null. */
  datatype Member = Member(
    discordUserId: string,
    status: Option<string>,
    totalBalance: Option<real>,
    income: Option<real>,
    recharge: Option<real>,
    totalSpent: Option<real>,
    vipRoleOptOut: OptOut)

  /** A member row as `create: { discordUserId }` leaves it: every other column null. */
  function NewMember(id: string): (m: Member)
    ensures m.discordUserId == id && m.totalBalance.None? && m.income.None?
  {
    Member(id, None, None, None, None, None, OptNull)
  }

  /** `column + { increment: d }` in SQL: a null column stays null. */
  function Increment(column: Option<real>, d: real): (r: Option<real>)
    ensures r.Some? <==> column.Some?
    ensures r.Some? ==> r.value - column.value == d
  {
    match column
    case None => None
    case Some(v) => Some(v + d)
  }

  /** The value of a listing-profile column written by the admin form. Numbers are
      stored as their `toString()` text, kept here as the number they render (which may
      be `Infinity`). */
  datatype Cell = CellText(text: string) | CellBool(flag: bool) | CellNumberText(number: Num) | CellNull

  /** A row of `PEIWAN`, the listing profile of a companion. */
  datatype Peiwan = Peiwan(
    id: int,
    discordUserId: string,
    defaultQuotationCode: string,
    balance: Option<real>,
    cells: map<string, Cell>)

  /** A row of `Order`. */
  datatype Order = Order(
    id: string,
    displayNo: int,
    hostId: Option<string>,
    workerId: Option<string>,
    status: string,
    unitPrice: Option<real>,
    totalMinutes: Option<int>,
    endedAt: Option<int>)

  /** A row of `Coupon`. */
  datatype Coupon = Coupon(
    id: string,
    discordId: string,
    couponType: string,
    status: string,
    issuedAt: int,
    expiresAt: int,
    consumedAt: Option<int>,
    orderId: Option<string>,
    discountAmount: Option<real>)

  /** The prize a lottery draw won. */
  datatype Prize = Prize(name: string, prizeType: Option<string>)

  /** A row of `LotteryDraw`. */
  datatype Draw = Draw(
    id: string,
    userId: string,
    status: string,
    prize: Option<Prize>,
    expiresAt: int,
    createdAt: int,
    consumeAt: Option<int>,
    requestId: Option<string>)

  function PrizeName(d: Draw): Option<string> {
    if d.prize.Some? then Some(d.prize.value.name) else None
  }

  /** A row of `ZPayRechargeOrder`. */
  datatype PayOrder = PayOrder(
    outTradeNo: string,
    discordUserId: string,
    amount: real,
    channel: string,
    status: string,
    gatewayTradeNo: Option<string>,
    notifyPayload: Option<seq<(string, string)>>,
    paidAt: Option<int>)

  /** A row of `IndividualTransaction`, the member-facing ledger. */
  datatype LedgerEntry = LedgerEntry(
    discordId: string,
    counterparty: string,
    balanceBefore: real,
    amountChange: real,
    balanceAfter: real,
    kind: string,
    time: int)

  /** A row of `Recharge`. */
  datatype RechargeRow = RechargeRow(amount: real, toWhom: string, fromWhom: string)

  /** A row of `Withdraw`. */
  datatype WithdrawRow = WithdrawRow(discordId: string, amount: int, payoutMethod: string)

  /** A row of `Referral`. */
  datatype Referral = Referral(inviteeId: string, inviterId: string, referralType: string, createdAt: int)

  const ORDER_ENDED := "ENDED"
  const COUPON_ACTIVE := "ACTIVE"
  const COUPON_USED := "USED"
  const COUPON_EXPIRED := "EXPIRED"
  const COUPON_DISCOUNT_90 := "DISCOUNT_90"
  const DRAW_UNUSED := "UNUSED"
  const DRAW_USED := "USED"
  const DRAW_EXPIRED := "EXPIRED"
  const PAY_PAID := "PAID"
  /** The status a new recharge order starts with; only "not PAID" matters here. */
  const PAY_PENDING := "PENDING"
  const MEMBER_PEIWAN := "PEIWAN"

  /** Every ledger row balances: before plus change is after. */
  ghost predicate LedgerBalanced(ledger: seq<LedgerEntry>) {
    forall i :: 0 <= i < |ledger| ==> ledger[i].balanceBefore + ledger[i].amountChange == ledger[i].balanceAfter
  }

  ghost predicate MembersKeyed(members: map<string, Member>) {
    forall k :: k in members ==> members[k].discordUserId == k
  }

  /** Each profile under its id, and at most one profile per member. */
  ghost predicate PeiwansKeyed(peiwans: map<int, Peiwan>) {
    && (forall k :: k in peiwans ==> peiwans[k].id == k)
    && (forall a, b :: a in peiwans && b in peiwans && peiwans[a].discordUserId == peiwans[b].discordUserId ==> a == b)
  }

  ghost predicate OrdersKeyed(orders: map<string, Order>) {
    forall k :: k in orders ==> orders[k].id == k
  }

  ghost predicate CouponsKeyed(coupons: map<string, Coupon>) {
    forall k :: k in coupons ==> coupons[k].id == k
  }

  ghost predicate DrawsKeyed(draws: map<string, Draw>) {
    forall k :: k in draws ==> draws[k].id == k
  }

  ghost predicate PayOrdersKeyed(payOrders: map<string, PayOrder>) {
    forall k :: k in payOrders ==> payOrders[k].outTradeNo == k
  }

  ghost predicate ReferralsKeyed(referrals: map<string, Referral>) {
    forall k :: k in referrals ==> referrals[k].inviteeId == k
  }

  /** No table changed since the start of the request. */
  twostate predicate Untouched(db: Db)
    reads db
  {
    && db.members == old(db.members) && db.peiwans == old(db.peiwans) && db.orders == old(db.orders)
    && db.coupons == old(db.coupons) && db.draws == old(db.draws) && db.payOrders == old(db.payOrders)
    && db.referrals == old(db.referrals) && db.ledger == old(db.ledger) && db.recharges == old(db.recharges)
    && db.withdrawals == old(db.withdrawals)
  }

  class Db {
    var members: map<string, Member>
    var peiwans: map<int, Peiwan>
    var orders: map<string, Order>
    var coupons: map<string, Coupon>
    var draws: map<string, Draw>
    var payOrders: map<string, PayOrder>
    var referrals: map<string, Referral>
    var ledger: seq<LedgerEntry>
    var recharges: seq<RechargeRow>
    var withdrawals: seq<WithdrawRow>

    /** Each row sits under its own key, a member owns at most one listing profile
        (`discordUserId` is unique in `PEIWAN`), and the ledger balances. */
    ghost predicate Valid()
      reads this
    {
      && MembersKeyed(members)
      && PeiwansKeyed(peiwans)
      && OrdersKeyed(orders)
      && CouponsKeyed(coupons)
      && DrawsKeyed(draws)
      && PayOrdersKeyed(payOrders)
      && ReferralsKeyed(referrals)
      && LedgerBalanced(ledger)
    }

    constructor ()
      ensures Valid()
      ensures members == map[] && peiwans == map[] && orders == map[] && coupons == map[]
      ensures draws == map[] && payOrders == map[] && referrals == map[]
      ensures ledger == [] && recharges == [] && withdrawals == []
    {
      members := map[];
      peiwans := map[];
      orders := map[];
      coupons := map[];
      draws := map[];
      payOrders := map[];
      referrals := map[];
      ledger := [];
      recharges := [];
      withdrawals := [];
    }

    /** Insert or replace a member row (`create`, `update` or `upsert`). */
    method PutMember(m: Member)
      requires Valid()
      modifies this
      ensures Valid() && members == old(members)[m.discordUserId := m]
      ensures peiwans == old(peiwans) && orders == old(orders) && coupons == old(coupons) && draws == old(draws) && payOrders == old(payOrders)
      ensures referrals == old(referrals) && ledger == old(ledger) && recharges == old(recharges) && withdrawals == old(withdrawals)
    {
      members := members[m.discordUserId := m];
    }

    /** Insert or replace a listing profile; its owner may hold no other profile. */
    method PutPeiwan(p: Peiwan)
      requires Valid()
      requires forall k :: k in peiwans && k != p.id ==> peiwans[k].discordUserId != p.discordUserId
      modifies this
      ensures Valid() && peiwans == old(peiwans)[p.id := p]
      ensures members == old(members) && orders == old(orders) && coupons == old(coupons) && draws == old(draws) && payOrders == old(payOrders)
      ensures referrals == old(referrals) && ledger == old(ledger) && recharges == old(recharges) && withdrawals == old(withdrawals)
    {
      peiwans := peiwans[p.id := p];
    }

    method PutDraw(dr: Draw)
      requires Valid()
      modifies this
      ensures Valid() && draws == old(draws)[dr.id := dr]
      ensures members == old(members) && peiwans == old(peiwans) && orders == old(orders) && coupons == old(coupons) && payOrders == old(payOrders)
      ensures referrals == old(referrals) && ledger == old(ledger) && recharges == old(recharges) && withdrawals == old(withdrawals)
    {
      draws := draws[dr.id := dr];
    }

    method PutPayOrder(o: PayOrder)
      requires Valid()
      modifies this
      ensures Valid() && payOrders == old(payOrders)[o.outTradeNo := o]
      ensures members == old(members) && peiwans == old(peiwans) && orders == old(orders) && coupons == old(coupons) && draws == old(draws)
      ensures referrals == old(referrals) && ledger == old(ledger) && recharges == old(recharges) && withdrawals == old(withdrawals)
    {
      payOrders := payOrders[o.outTradeNo := o];
    }

    method PutReferral(r: Referral)
      requires Valid()
      modifies this
      ensures Valid() && referrals == old(referrals)[r.inviteeId := r]
      ensures members == old(members) && peiwans == old(peiwans) && orders == old(orders) && coupons == old(coupons) && draws == old(draws)
      ensures payOrders == old(payOrders) && ledger == old(ledger) && recharges == old(recharges) && withdrawals == old(withdrawals)
    {
      referrals := referrals[r.inviteeId := r];
    }

    /** Append a ledger row; only balanced rows are ever written. */
    method AppendLedger(e: LedgerEntry)
      requires Valid() && e.balanceBefore + e.amountChange == e.balanceAfter
      modifies this
      ensures Valid() && ledger == old(ledger) + [e]
      ensures members == old(members) && peiwans == old(peiwans) && orders == old(orders) && coupons == old(coupons) && draws == old(draws)
      ensures payOrders == old(payOrders) && referrals == old(referrals) && recharges == old(recharges) && withdrawals == old(withdrawals)
    {
      ledger := ledger + [e];
    }

    method AppendRecharge(r: RechargeRow)
      requires Valid()
      modifies this
      ensures Valid() && recharges == old(recharges) + [r]
      ensures members == old(members) && peiwans == old(peiwans) && orders == old(orders) && coupons == old(coupons) && draws == old(draws)
      ensures payOrders == old(payOrders) && referrals == old(referrals) && ledger == old(ledger) && withdrawals == old(withdrawals)
    {
      recharges := recharges + [r];
    }

    method AppendWithdrawal(w: WithdrawRow)
      requires Valid()
      modifies this
      ensures Valid() && withdrawals == old(withdrawals) + [w]
      ensures members == old(members) && peiwans == old(peiwans) && orders == old(orders) && coupons == old(coupons) && draws == old(draws)
      ensures payOrders == old(payOrders) && referrals == old(referrals) && ledger == old(ledger) && recharges == old(recharges)
    {
      withdrawals := withdrawals + [w];
    }

    /** `pEIWAN.findUnique({ where: { discordUserId } })`: the profile owned by `owner`. */
    method FindPeiwanByOwner(owner: string) returns (id: Option<int>)
      requires Valid()
      ensures id.Some? ==> id.value in peiwans && peiwans[id.value].discordUserId == owner
      ensures id.None? ==> forall k :: k in peiwans ==> peiwans[k].discordUserId != owner
    {
      if k :| k in peiwans && peiwans[k].discordUserId == owner {
        id := Some(k);
      } else {
        id := None;
      }
    }
  }
}
