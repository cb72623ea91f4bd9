/** The ZPay asynchronous notification (`app/api/payment/zpay/notify/route.ts`): the
    gateway calls back with the result of a recharge; the handler checks the fields, the
    MD5 signature, the trade status, the order and the amount, and then, in one
    transaction, marks the order paid, credits the member, mirrors the new balance onto a
    companion's listing profile, and writes a recharge row and a ledger row. */
module PaymentNotify {
  import opened Wrappers
  import opened Text
  import opened Money
  import opened Js
  import opened Store
  import opened ZPay

  const TRADE_SUCCESS_VALUES: set<string> := {"TRADE_SUCCESS", "SUCCESS", "PAID"}
  /** The party recorded when the gateway names no buyer or trade number. */
  const GATEWAY_PARTY := "zpay_gateway"
  const RECHARGE_KIND := "充值"

  // ---- toPlainObject: a JSON body as a record of strings ----

  /** `value.find((item) => typeof item === 'string')` */
  function FirstString(items: seq<JsValue>): (r: Option<string>)
    ensures r.Some? ==> exists i :: 0 <= i < |items| && items[i] == Str(r.value)
                          && forall j :: 0 <= j < i ==> !items[j].Str?
    ensures r.None? ==> forall i :: 0 <= i < |items| ==> !items[i].Str?
  {
    if items == [] then None
    else if items[0].Str? then
      assert items[0] == Str(items[0].s);
      Some(items[0].s)
    else
      var r := FirstString(items[1..]);
      assert r.Some? ==> exists i :: 0 <= i < |items| && items[i] == Str(r.value)
                          && forall j :: 0 <= j < i ==> !items[j].Str? by {
        if r.Some? {
          var i :| 0 <= i < |items[1..]| && items[1..][i] == Str(r.value)
                   && forall j :: 0 <= j < i ==> !items[1..][j].Str?;
          assert items[i + 1] == Str(r.value);
          forall j | 0 <= j < i + 1 ensures !items[j].Str? {
            if j > 0 { assert items[j] == items[1..][j - 1]; }
          }
        }
      }
      assert r.None? ==> forall i :: 0 <= i < |items| ==> !items[i].Str? by {
        if r.None? {
          forall i | 0 < i < |items| ensures !items[i].Str? { assert items[i] == items[1..][i - 1]; }
        }
      }
      r
  }

  /** The string one body field contributes, if any: null and undefined are dropped, a
      string is kept, an array gives its first string item unless that item is empty,
      and anything else is `String(value)`. `numberText` is JavaScript's number-to-text
      conversion. */
  function PlainValue(v: JsValue, numberText: Num -> string): (r: Option<string>)
    ensures IsNullish(v) ==> r.None?
    ensures v.Str? ==> r == Some(v.s)
    ensures v.Arr? ==> (r.Some? <==> FirstString(v.items).Some? && FirstString(v.items).value != [])
    ensures v.Arr? && r.Some? ==> r == FirstString(v.items)
    ensures v.Bool? || v.Number? || v.Obj? ==> r.Some?
  {
    match v
    case Undefined => None
    case Null => None
    case Str(s) => Some(s)
    case Arr(items) =>
      (match FirstString(items)
       case Some(s) => if s != [] then Some(s) else None
       case None => None)
    case Bool(b) => Some(if b then "true" else "false")
    case Number(n) => Some(numberText(n))
    case Obj(_) => Some("[object Object]")
  }

  /** `Object.entries` never repeats a key. */
  predicate DistinctNames(input: seq<(string, JsValue)>) {
    forall i, j :: 0 <= i < j < |input| ==> input[i].0 != input[j].0
  }

  /** The record `toPlainObject` builds from the first entries of the body. */
  function PlainEntries(input: seq<(string, JsValue)>, numberText: Num -> string): seq<(string, string)>
  {
    if input == [] then []
    else
      var n := |input| - 1;
      var prev := PlainEntries(input[..n], numberText);
      match PlainValue(input[n].1, numberText)
      case Some(s) => Assign(prev, input[n].0, s)
      case None => prev
  }

  /** Each field of the record holds exactly what its body entry contributes, and the
      record has no other field. */
  lemma {:induction false} PlainEntriesGet(input: seq<(string, JsValue)>, numberText: Num -> string)
    requires DistinctNames(input)
    ensures DistinctKeys(Lift(PlainEntries(input, numberText)))
    ensures forall i :: 0 <= i < |input| ==>
              Get(Lift(PlainEntries(input, numberText)), input[i].0) == PlainValue(input[i].1, numberText)
    ensures forall k :: (forall i :: 0 <= i < |input| ==> input[i].0 != k) ==>
              Get(Lift(PlainEntries(input, numberText)), k).None?
  {
    if input != [] {
      var n := |input| - 1;
      var prefix := input[..n];
      var prev := PlainEntries(prefix, numberText);
      var key := input[n].0;
      PlainEntriesGet(prefix, numberText);
      var r := PlainEntries(input, numberText);
      assert forall i :: 0 <= i < n ==> prefix[i] == input[i];
      match PlainValue(input[n].1, numberText)
      case Some(s) =>
        assert r == Assign(prev, key, s);
        AssignDistinct(prev, key, s);
        forall i | 0 <= i < |input|
          ensures Get(Lift(r), input[i].0) == PlainValue(input[i].1, numberText)
        {
          AssignGet(prev, key, s, input[i].0);
        }
        forall k | forall i :: 0 <= i < |input| ==> input[i].0 != k
          ensures Get(Lift(r), k).None?
        {
          AssignGet(prev, key, s, k);
          assert forall i :: 0 <= i < |prefix| ==> prefix[i].0 != k;
        }
      case None =>
        assert r == prev;
        assert forall i :: 0 <= i < |prefix| ==> prefix[i].0 != key;
    }
  }

  /** `toPlainObject(json)`, field by field. */
  method ToPlainObject(input: seq<(string, JsValue)>, numberText: Num -> string) returns (result: seq<(string, string)>)
    requires DistinctNames(input)
    ensures result == PlainEntries(input, numberText)
    ensures DistinctKeys(Lift(result))
    ensures forall i :: 0 <= i < |input| ==> Get(Lift(result), input[i].0) == PlainValue(input[i].1, numberText)
    ensures forall k :: (forall i :: 0 <= i < |input| ==> input[i].0 != k) ==> Get(Lift(result), k).None?
  {
    result := [];
    for i := 0 to |input|
      invariant result == PlainEntries(input[..i], numberText)
    {
      assert input[..i + 1][..i] == input[..i];
      match PlainValue(input[i].1, numberText)
      case Some(s) => result := Assign(result, input[i].0, s);
      case None =>
    }
    assert input[..|input|] == input;
    PlainEntriesGet(input, numberText);
  }

  // ---- handleNotify ----

  /** The record without `sign` and `sign_type`, as `delete` leaves the copy. */
  function StripSignFields(p: seq<(string, string)>): (r: seq<(string, string)>)
    ensures forall j :: 0 <= j < |r| ==> r[j] in p && !IsSignKey(r[j].0)
    ensures forall k :: Get(Lift(r), k) == if IsSignKey(k) then None else Get(Lift(p), k)
  {
    if p == [] then []
    else
      var rest := StripSignFields(p[1..]);
      var r := if IsSignKey(p[0].0) then rest else [p[0]] + rest;
      StripStep(p, rest, r);
      r
  }

  /** One step of the stripping: dropping or keeping the first field keeps every other
      key's value and removes the signature keys. */
  lemma StripStep(p: seq<(string, string)>, rest: seq<(string, string)>, r: seq<(string, string)>)
    requires p != []
    requires forall j :: 0 <= j < |rest| ==> rest[j] in p[1..] && !IsSignKey(rest[j].0)
    requires forall k :: Get(Lift(rest), k) == if IsSignKey(k) then None else Get(Lift(p[1..]), k)
    requires r == if IsSignKey(p[0].0) then rest else [p[0]] + rest
    ensures forall j :: 0 <= j < |r| ==> r[j] in p && !IsSignKey(r[j].0)
    ensures forall k :: Get(Lift(r), k) == if IsSignKey(k) then None else Get(Lift(p), k)
  {
    LiftCons(p);
    forall j | 0 <= j < |r|
      ensures r[j] in p && !IsSignKey(r[j].0)
    {
      if !IsSignKey(p[0].0) && j > 0 {
        assert r[j] == rest[j - 1];
      }
    }
    forall k
      ensures Get(Lift(r), k) == if IsSignKey(k) then None else Get(Lift(p), k)
    {
      GetCons(Lift(p), k);
      if !IsSignKey(p[0].0) {
        LiftCons(r);
        assert r[1..] == rest;
        GetCons(Lift(r), k);
      }
    }
  }

  lemma StripKeepsDistinct(p: seq<(string, string)>)
    requires DistinctKeys(Lift(p))
    ensures DistinctKeys(Lift(StripSignFields(p)))
  {
    LiftDistinct(p);
    StripKeepsKeysDistinct(p);
    LiftDistinct(StripSignFields(p));
  }

  /** No key appears twice among the pairs. */
  predicate KeysDistinct(p: seq<(string, string)>) {
    forall i, j :: 0 <= i < j < |p| ==> p[i].0 != p[j].0
  }

  lemma LiftDistinct(p: seq<(string, string)>)
    ensures DistinctKeys(Lift(p)) <==> KeysDistinct(p)
  {
    var q := Lift(p);
    assert forall i :: 0 <= i < |p| ==> q[i].0 == p[i].0;
  }

  lemma {:induction false} StripKeepsKeysDistinct(p: seq<(string, string)>)
    requires KeysDistinct(p)
    ensures KeysDistinct(StripSignFields(p))
  {
    if p != [] {
      TailDistinct(p);
      StripKeepsKeysDistinct(p[1..]);
      if !IsSignKey(p[0].0) {
        ConsDistinct(p[0], StripSignFields(p[1..]), p[1..]);
      }
    }
  }

  /** Without its first pair, a record still has distinct keys, none of them the first
      pair's key. */
  lemma TailDistinct(p: seq<(string, string)>)
    requires p != [] && KeysDistinct(p)
    ensures KeysDistinct(p[1..])
    ensures forall y :: y in p[1..] ==> y.0 != p[0].0
  {
    var tail := p[1..];
    forall i, j | 0 <= i < j < |tail|
      ensures tail[i].0 != tail[j].0
    {
      assert tail[i] == p[i + 1] && tail[j] == p[j + 1];
    }
    forall y | y in tail
      ensures y.0 != p[0].0
    {
      var m :| 0 <= m < |tail| && tail[m] == y;
      assert p[m + 1] == y;
    }
  }

  /** A pair put in front of pairs taken from a record none of whose keys is its own. */
  lemma ConsDistinct(x: (string, string), rest: seq<(string, string)>, tail: seq<(string, string)>)
    requires KeysDistinct(rest)
    requires forall j :: 0 <= j < |rest| ==> rest[j] in tail
    requires forall y :: y in tail ==> y.0 != x.0
    ensures KeysDistinct([x] + rest)
  {
    var r := [x] + rest;
    forall i, j | 0 <= i < j < |r|
      ensures r[i].0 != r[j].0
    {
      assert r[j] == rest[j - 1];
      if i > 0 {
        assert r[i] == rest[i - 1];
      }
    }
  }

  /** `params[key]` */
  function Param(params: seq<(string, string)>, key: string): Option<string> {
    Get(Lift(params), key)
  }

  /** `!!params[key]`: present and not empty. */
  predicate Present(params: seq<(string, string)>, key: string) {
    Param(params, key).Some? && Param(params, key).value != []
  }

  predicate FieldsPresent(params: seq<(string, string)>) {
    Present(params, "out_trade_no") && Present(params, "money")
  }

  function OutTradeNo(params: seq<(string, string)>): string {
    Param(params, "out_trade_no").GetOr("")
  }

  /** The signature check over the record without its signature fields. */
  predicate Signed(md5: string -> string, params: seq<(string, string)>, secret: string)
    requires DistinctKeys(Lift(params))
  {
    StripKeepsDistinct(params);
    VerifySignature(md5, Lift(StripSignFields(params)), secret, Param(params, "sign"))
  }

  /** `(params.trade_status || params.status || '').toUpperCase()` */
  function TradeStatus(params: seq<(string, string)>): (s: string)
    ensures Present(params, "trade_status") ==> s == ToUpper(Param(params, "trade_status").value)
    ensures !Present(params, "trade_status") && Present(params, "status") ==> s == ToUpper(Param(params, "status").value)
    ensures !Present(params, "trade_status") && !Present(params, "status") ==> s == []
  {
    if Present(params, "trade_status") then ToUpper(Param(params, "trade_status").value)
    else if Present(params, "status") then ToUpper(Param(params, "status").value)
    else ""
  }

  /** A status written with the long `ſ`, "trade_ſuccess", upper-cases to TRADE_SUCCESS. */
  lemma TradeStatusLongS(status: string)
    requires status == "trade_\U{17F}uccess"
    ensures TradeStatus([("trade_status", status)]) == "TRADE_SUCCESS"
  {
    assert Lift([("trade_status", status)]) == [("trade_status", Some(status))];
    assert Param([("trade_status", status)], "trade_status") == Some(status);
    LongSUpper(status, "trade_", "uccess");
  }

  /** `params.trade_no ?? params.tradeNo ?? null` */
  function GatewayTradeNo(params: seq<(string, string)>): (r: Option<string>)
    ensures Param(params, "trade_no").Some? ==> r == Param(params, "trade_no")
    ensures Param(params, "trade_no").None? ==> r == Param(params, "tradeNo")
  {
    if Param(params, "trade_no").Some? then Param(params, "trade_no") else Param(params, "tradeNo")
  }

  /** `params.buyer ?? params.openid ?? 'zpay_gateway'` */
  function Payer(params: seq<(string, string)>): (r: string)
    ensures Param(params, "buyer").Some? ==> r == Param(params, "buyer").value
    ensures Param(params, "buyer").None? && Param(params, "openid").Some? ==> r == Param(params, "openid").value
    ensures Param(params, "buyer").None? && Param(params, "openid").None? ==> r == GATEWAY_PARTY
  {
    match Param(params, "buyer")
    case Some(b) => b
    case None => Param(params, "openid").GetOr(GATEWAY_PARTY)
  }

  /** How a notification ends: the two `success` replies and the failure reasons. */
  datatype Outcome =
    | Success
    | AlreadyPaid
    | MissingFields
    | SignError
    | InvalidStatus
    | OrderNotFound
    | AmountMismatch
    | InternalError

  /** The HTTP reply: `success` with status 200, or status 400 with the reason. */
  function Reply(o: Outcome): (r: (int, string))
    ensures r.0 == 200 <==> o.Success? || o.AlreadyPaid?
    ensures r.0 == 200 || r.0 == 400
    ensures r.0 == 200 <==> r.1 == "success"
  {
    match o
    case Success => (200, "success")
    case AlreadyPaid => (200, "success")
    case MissingFields => (400, "missing_fields")
    case SignError => (400, "sign_error")
    case InvalidStatus => (400, "invalid_status")
    case OrderNotFound => (400, "order_not_found")
    case AmountMismatch => (400, "amount_mismatch")
    case InternalError => (400, "internal_error")
  }

  /** The gateway can tell every failure apart from the reply alone. */
  lemma ReplyNamesFailure(a: Outcome, b: Outcome)
    requires Reply(a) == Reply(b) && Reply(a).0 == 400
    ensures a == b
  {
  }

  /** A notification that is well formed, configured, correctly signed and reports a
      successful trade. */
  predicate Authentic(md5: string -> string, params: seq<(string, string)>, config: Result<Config, string>)
    requires DistinctKeys(Lift(params))
  {
    FieldsPresent(params) && config.Ok? && Signed(md5, params, config.value.secret)
      && TradeStatus(params) in TRADE_SUCCESS_VALUES
  }

  /** ... and whose order exists and is not paid yet. */
  predicate Payable(md5: string -> string, params: seq<(string, string)>, config: Result<Config, string>,
                    payOrders: map<string, PayOrder>)
    requires DistinctKeys(Lift(params))
  {
    Authentic(md5, params, config) && OutTradeNo(params) in payOrders
      && payOrders[OutTradeNo(params)].status != PAY_PAID
  }

  /** `new Decimal(params.money).toDecimalPlaces(2)`; `None` when the constructor throws. */
  function NotifiedAmount(params: seq<(string, string)>): (r: Option<Num>)
    ensures r.Some? <==> DecimalFromString(Param(params, "money").GetOr("")).Some?
    ensures r.Some? ==> r.value.Finite? == DecimalFromString(Param(params, "money").GetOr("")).value.Finite?
    ensures r.Some? && r.value.Finite? ==> Round2(r.value.value) == r.value.value
    ensures r.Some? && r.value.Finite? ==>
      r.value.value == Round2(DecimalFromString(Param(params, "money").GetOr("")).value.value)
  {
    match DecimalFromString(Param(params, "money").GetOr(""))
    case Some(d) =>
      Round2Idempotent(if d.Finite? then d.value else 0.0);
      Some(ToDecimalPlaces2(d))
    case None => None
  }

  /** A `money` of "0x10" is sixteen, as decimal.js reads a hexadecimal integer. */
  lemma NotifiedHexAmount()
    ensures NotifiedAmount([("money", "0x10")]) == Some(Finite(16.0))
  {
    assert Lift([("money", "0x10")]) == [("money", Some("0x10"))];
    assert Param([("money", "0x10")], "money") == Some("0x10");
    HexExamples();
    assert StripSign("0x10") == "0x10";
    CentsExact(1600);
  }

  /** What the checks decide before anything is written. */
  datatype Decision = Stop(outcome: Outcome) | Settle(order: PayOrder, amount: real)

  /** The checks of `handleNotify` in order, over the orders table as it stands. A missing
      configuration and an unparsable amount throw, which the route turns into
      `internal_error`. */
  function Screen(md5: string -> string, params: seq<(string, string)>, config: Result<Config, string>,
                  payOrders: map<string, PayOrder>): (d: Decision)
    requires DistinctKeys(Lift(params))
    ensures d == Stop(MissingFields) <==> !FieldsPresent(params)
    ensures d == Stop(SignError) <==> FieldsPresent(params) && config.Ok? && !Signed(md5, params, config.value.secret)
    ensures d == Stop(InvalidStatus) <==>
              FieldsPresent(params) && config.Ok? && Signed(md5, params, config.value.secret)
              && TradeStatus(params) !in TRADE_SUCCESS_VALUES
    ensures d == Stop(OrderNotFound) <==> Authentic(md5, params, config) && OutTradeNo(params) !in payOrders
    ensures d == Stop(AlreadyPaid) <==>
              Authentic(md5, params, config) && OutTradeNo(params) in payOrders
              && payOrders[OutTradeNo(params)].status == PAY_PAID
    ensures d == Stop(InternalError) <==>
              (FieldsPresent(params) && config.Err?)
              || (Payable(md5, params, config, payOrders) && NotifiedAmount(params).None?)
    ensures d == Stop(AmountMismatch) <==>
              Payable(md5, params, config, payOrders) && NotifiedAmount(params).Some?
              && NotifiedAmount(params).value != Finite(payOrders[OutTradeNo(params)].amount)
    ensures d.Settle? <==>
              Payable(md5, params, config, payOrders)
              && NotifiedAmount(params) == Some(Finite(payOrders[OutTradeNo(params)].amount))
    ensures d.Settle? ==> d.order == payOrders[OutTradeNo(params)] && d.amount == d.order.amount
    ensures d != Stop(Success)
  {
    if !FieldsPresent(params) then Stop(MissingFields)
    else if config.Err? then Stop(InternalError)
    else if !Signed(md5, params, config.value.secret) then Stop(SignError)
    else if TradeStatus(params) !in TRADE_SUCCESS_VALUES then Stop(InvalidStatus)
    else if OutTradeNo(params) !in payOrders then Stop(OrderNotFound)
    else
      var order := payOrders[OutTradeNo(params)];
      if order.status == PAY_PAID then Stop(AlreadyPaid)
      else match NotifiedAmount(params)
        case None => Stop(InternalError)
        case Some(a) => if a != Finite(order.amount) then Stop(AmountMismatch) else Settle(order, order.amount)
  }

  /** The order row once paid. */
  function PaidOrder(order: PayOrder, params: seq<(string, string)>, now: int): (r: PayOrder)
    ensures r.status == PAY_PAID && r.paidAt == Some(now) && r.notifyPayload == Some(params)
    ensures r.gatewayTradeNo == GatewayTradeNo(params)
    ensures r.outTradeNo == order.outTradeNo && r.discordUserId == order.discordUserId && r.amount == order.amount
    ensures r.channel == order.channel
  {
    order.(status := PAY_PAID, gatewayTradeNo := GatewayTradeNo(params), notifyPayload := Some(params), paidAt := Some(now))
  }

  /** The member row after `member.upsert`: a new member starts with the amount as both
      recharge and balance, an existing one has both incremented. */
  function Recharged(members: map<string, Member>, id: string, amount: real): (m: Member)
    requires id in members ==> members[id].discordUserId == id
    ensures m.discordUserId == id
    ensures id !in members ==>
      && m.totalBalance == Some(amount) && m.recharge == Some(amount)
      && m.income.None? && m.totalSpent.None? && m.status.None?
    ensures id in members ==>
      && (m.totalBalance.Some? <==> members[id].totalBalance.Some?)
      && (m.totalBalance.Some? ==> m.totalBalance.value == members[id].totalBalance.value + amount)
      && (m.recharge.Some? <==> members[id].recharge.Some?)
      && (m.recharge.Some? ==> m.recharge.value == members[id].recharge.value + amount)
      && m.income == members[id].income && m.totalSpent == members[id].totalSpent
      && m.status == members[id].status && m.vipRoleOptOut == members[id].vipRoleOptOut
  {
    if id in members then
      var old_ := members[id];
      old_.(recharge := Increment(old_.recharge, amount), totalBalance := Increment(old_.totalBalance, amount))
    else
      NewMember(id).(recharge := Some(amount), totalBalance := Some(amount))
  }

  /** The listing profiles after the balance of `owner`'s profile, if any, is set. */
  function MirrorBalance(peiwans: map<int, Peiwan>, owner: string, balance: Option<real>): (r: map<int, Peiwan>)
    ensures r.Keys == peiwans.Keys
    ensures forall k :: k in r && peiwans[k].discordUserId == owner ==> r[k] == peiwans[k].(balance := balance)
    ensures forall k :: k in r && peiwans[k].discordUserId != owner ==> r[k] == peiwans[k]
  {
    map k | k in peiwans :: if peiwans[k].discordUserId == owner then peiwans[k].(balance := balance) else peiwans[k]
  }

  /** The ledger row of a recharge: the balance after is the member's new balance (0 when
      null), the balance before is that minus the amount. */
  function RechargeEntry(owner: string, params: seq<(string, string)>, total: Option<real>, amount: real, now: int): (e: LedgerEntry)
    ensures e.balanceBefore + e.amountChange == e.balanceAfter
    ensures e.amountChange == amount && e.balanceAfter == total.GetOr(0.0)
    ensures e.discordId == owner && e.kind == RECHARGE_KIND && e.time == now
    ensures Param(params, "trade_no").Some? ==> e.counterparty == Param(params, "trade_no").value
    ensures Param(params, "trade_no").None? ==> e.counterparty == GATEWAY_PARTY
  {
    var after := total.GetOr(0.0);
    LedgerEntry(owner, Param(params, "trade_no").GetOr(GATEWAY_PARTY), after - amount, amount, after, RECHARGE_KIND, now)
  }

  /** `pEIWAN.update({ where: { discordUserId }, data: { balance } })` when the member owns
      a listing profile. */
  method MirrorProfileBalance(db: Db, owner: string, balance: Option<real>)
    requires db.Valid()
    modifies db
    ensures db.Valid() && db.peiwans == MirrorBalance(old(db.peiwans), owner, balance)
    ensures db.members == old(db.members) && db.orders == old(db.orders) && db.coupons == old(db.coupons)
    ensures db.draws == old(db.draws) && db.payOrders == old(db.payOrders) && db.referrals == old(db.referrals)
    ensures db.ledger == old(db.ledger) && db.recharges == old(db.recharges) && db.withdrawals == old(db.withdrawals)
  {
    var profile := db.FindPeiwanByOwner(owner);
    if profile.Some? {
      var p := db.peiwans[profile.value];
      assert p.id == profile.value;
      db.PutPeiwan(p.(balance := balance));
    }
    assert db.peiwans == MirrorBalance(old(db.peiwans), owner, balance) by {
      var mirrored := MirrorBalance(old(db.peiwans), owner, balance);
      forall k | k in old(db.peiwans) ensures db.peiwans[k] == mirrored[k] {
        if profile.Some? && k != profile.value {
          assert old(db.peiwans)[profile.value].discordUserId == owner;
        }
      }
    }
  }

  /** The transaction of a notification that passed every check. */
  method SettleRecharge(db: Db, order: PayOrder, params: seq<(string, string)>, now: int)
    requires db.Valid() && order.outTradeNo in db.payOrders && db.payOrders[order.outTradeNo] == order
    modifies db
    ensures db.Valid()
    ensures db.payOrders == old(db.payOrders)[order.outTradeNo := PaidOrder(order, params, now)]
    ensures db.members == old(db.members)[order.discordUserId := Recharged(old(db.members), order.discordUserId, order.amount)]
    ensures db.peiwans == MirrorBalance(old(db.peiwans), order.discordUserId,
                                        Recharged(old(db.members), order.discordUserId, order.amount).totalBalance)
    ensures db.recharges == old(db.recharges) + [RechargeRow(order.amount, order.discordUserId, Payer(params))]
    ensures db.ledger == old(db.ledger) + [RechargeEntry(order.discordUserId, params,
                                        Recharged(old(db.members), order.discordUserId, order.amount).totalBalance, order.amount, now)]
    ensures db.orders == old(db.orders) && db.coupons == old(db.coupons) && db.draws == old(db.draws)
    ensures db.referrals == old(db.referrals) && db.withdrawals == old(db.withdrawals)
  {
    var owner := order.discordUserId;
    var member := Recharged(db.members, owner, order.amount);
    db.PutPayOrder(PaidOrder(order, params, now));
    db.PutMember(member);
    MirrorProfileBalance(db, owner, member.totalBalance);
    db.AppendRecharge(RechargeRow(order.amount, owner, Payer(params)));
    db.AppendLedger(RechargeEntry(owner, params, member.totalBalance, order.amount, now));
  }

  /** `handleNotify` behind the route's `try`/`catch`. */
  method HandleNotify(db: Db, md5: string -> string, params: seq<(string, string)>,
                      config: Result<Config, string>, now: int) returns (outcome: Outcome)
    requires db.Valid() && DistinctKeys(Lift(params))
    modifies db
    ensures db.Valid()
    ensures Screen(md5, params, config, old(db.payOrders)).Stop? ==>
              outcome == Screen(md5, params, config, old(db.payOrders)).outcome && Untouched(db)
    ensures Screen(md5, params, config, old(db.payOrders)).Settle? ==>
              var order := old(db.payOrders)[OutTradeNo(params)];
              var member := Recharged(old(db.members), order.discordUserId, order.amount);
              && outcome == Success
              && db.payOrders == old(db.payOrders)[OutTradeNo(params) := PaidOrder(order, params, now)]
              && db.members == old(db.members)[order.discordUserId := member]
              && db.peiwans == MirrorBalance(old(db.peiwans), order.discordUserId, member.totalBalance)
              && db.recharges == old(db.recharges) + [RechargeRow(order.amount, order.discordUserId, Payer(params))]
              && db.ledger == old(db.ledger) + [RechargeEntry(order.discordUserId, params, member.totalBalance, order.amount, now)]
              && db.orders == old(db.orders) && db.coupons == old(db.coupons) && db.draws == old(db.draws)
              && db.referrals == old(db.referrals) && db.withdrawals == old(db.withdrawals)
  {
    var d := Screen(md5, params, config, db.payOrders);
    match d
    case Stop(o) =>
      outcome := o;
    case Settle(order, _) =>
      SettleRecharge(db, order, params, now);
      outcome := Success;
  }

  /** Replaying a notification that was just settled finds the order paid and changes
      nothing: the gateway's retries never credit a member twice. */
  lemma ReplayIsAlreadyPaid(md5: string -> string, params: seq<(string, string)>, config: Result<Config, string>,
                            payOrders: map<string, PayOrder>, now: int)
    requires DistinctKeys(Lift(params))
    requires Screen(md5, params, config, payOrders).Settle?
    ensures var order := payOrders[OutTradeNo(params)];
            Screen(md5, params, config, payOrders[OutTradeNo(params) := PaidOrder(order, params, now)]) == Stop(AlreadyPaid)
  {
  }
}
