/** Creating a recharge order (`app/api/recharge/order/route.ts`): the amount is checked,
    rounded to two places and stored on a new pending order under a fresh merchant order
    number; the response carries the signed payment URL whose `money` is that amount. */
module RechargeOrder {
  import opened Wrappers
  import opened Text
  import opened Money
  import opened Js
  import opened Store
  import opened ZPay
  import opened Session
  import PaymentNotify

  /** `RECHARGE_MIN_AMOUNT` when unset. */
  const DEFAULT_MIN_AMOUNT: real := 0.01
  const DEFAULT_CHANNEL := "alipay"
  const ORDER_NAME_PREFIX := "账户充值-"

  /** `parseAmount`: a string goes through `Number`, a number is taken as it is, anything
      else is `NaN`; only finite values are kept. */
  function ParseAmount(raw: JsValue): (r: Option<real>)
    ensures raw.Str? ==> r == (if StringToNumber(raw.s).Finite? then Some(StringToNumber(raw.s).value) else None)
    ensures raw.Number? ==> r == (if raw.n.Finite? then Some(raw.n.value) else None)
    ensures !raw.Str? && !raw.Number? ==> r.None?
  {
    var n := match raw
      case Str(s) => StringToNumber(s)
      case Number(v) => v
      case _ => NaN;
    if n.Finite? then Some(n.value) else None
  }

  /** An amount written as "0B101" is five, and one written "-0x10" is not a number. */
  lemma ParseAmountPrefixed(binary: string, signedHex: string)
    requires binary == "0B101" && signedHex == "-0x10"
    ensures ParseAmount(Str(binary)) == Some(5.0)
    ensures ParseAmount(Str(signedHex)) == None
  {
    StringToNumberBinary();
    StringToNumberHex();
  }

  /** `amount < MIN_AMOUNT`, where the minimum is `Number(...)` of the configured text and
      may be infinite or `NaN` (every comparison with `NaN` is false). */
  predicate BelowMinimum(amount: real, minimum: Num) {
    match minimum
    case Finite(m) => amount < m
    case Infinite(positive) => positive
    case NaN => false
  }

  /** The channel asked for when it is supported, `alipay` otherwise. */
  function Channel(body: JsValue): (c: string)
    ensures c in SUPPORTED_CHANNELS
    ensures Prop(body, "channel").Str? && Prop(body, "channel").s in SUPPORTED_CHANNELS ==> c == Prop(body, "channel").s
    ensures !(Prop(body, "channel").Str? && Prop(body, "channel").s in SUPPORTED_CHANNELS) ==> c == DEFAULT_CHANNEL
  {
    var v := Prop(body, "channel");
    if v.Str? && v.s in SUPPORTED_CHANNELS then v.s else DEFAULT_CHANNEL
  }

  datatype Outcome =
    | Unauthorized
    | Crashed
    | InvalidJson
    | InvalidAmount
    | AmountTooSmall(minimum: Num)
    | Created(orderId: string, payUrl: string, channel: string, amount: string, returnUrl: string)

  function Status(o: Outcome): (code: int)
    ensures code == 200 <==> o.Created?
    ensures code == 401 <==> o.Unauthorized?
    ensures code == 500 <==> o.Crashed?
  {
    match o
    case Unauthorized => 401
    case Crashed => 500
    case Created(_, _, _, _, _) => 200
    case _ => 400
  }

  /** A request that passed the checks. */
  datatype Checked = Checked(member: Snapshot, config: Config, amount: real, channel: string)

  /** The checks before anything is written, in the order the route makes them: a
      session, the merchant configuration (its absence throws), a JSON body (`None` when
      it is not JSON), a positive finite amount, the minimum. */
  function CheckRequest(session: Option<Snapshot>, config: Result<Config, string>, body: Option<JsValue>,
                        minimum: Num): (r: Result<Checked, Outcome>)
    ensures r == Err(Unauthorized) <==> session.None? || session.value.discordId == []
    ensures r == Err(Crashed) <==> session.Some? && session.value.discordId != [] && config.Err?
    ensures r == Err(InvalidJson) <==> session.Some? && session.value.discordId != [] && config.Ok? && body.None?
    ensures r == Err(InvalidAmount) <==>
              session.Some? && session.value.discordId != [] && config.Ok? && body.Some?
              && (ParseAmount(Prop(body.value, "amount")).None? || ParseAmount(Prop(body.value, "amount")).value <= 0.0)
    ensures r.Err? && r.error.AmountTooSmall? ==> r.error.minimum == minimum
    ensures r.Ok? ==>
              && session == Some(r.value.member) && r.value.member.discordId != [] && config == Ok(r.value.config)
              && body.Some? && ParseAmount(Prop(body.value, "amount")) == Some(r.value.amount)
              && r.value.amount > 0.0 && !BelowMinimum(r.value.amount, minimum)
              && r.value.channel == Channel(body.value)
  {
    if session.None? || session.value.discordId == [] then Err(Unauthorized)
    else if config.Err? then Err(Crashed)
    else if body.None? then Err(InvalidJson)
    else
      var amount := ParseAmount(Prop(body.value, "amount"));
      if amount.None? || amount.value <= 0.0 then Err(InvalidAmount)
      else if BelowMinimum(amount.value, minimum) then Err(AmountTooSmall(minimum))
      else Ok(Checked(session.value, config.value, amount.value, Channel(body.value)))
  }

  /** The parameters signed into the payment URL. */
  function PayParams(merchantId: string, channel: string, notifyUrl: string, returnUrl: string, outTradeNo: string,
                     username: string, money: string, siteName: string): (p: seq<(string, string)>)
    ensures DistinctKeys(Lift(p))
    ensures Get(Lift(p), "money") == Some(money) && Get(Lift(p), "out_trade_no") == Some(outTradeNo)
    ensures Get(Lift(p), "pid") == Some(merchantId) && Get(Lift(p), "type") == Some(channel)
  {
    var p := [("pid", merchantId), ("type", channel), ("notify_url", notifyUrl), ("return_url", returnUrl),
              ("out_trade_no", outTradeNo), ("name", ORDER_NAME_PREFIX + username), ("money", money),
              ("sitename", siteName)];
    assert forall i :: 0 <= i < |p| ==> Lift(p)[i].0 == p[i].0;
    assert "notify_url"[0] != "name"[1] && "return_url"[0] != "pid"[0];
    assert "out_trade_no"[0] != "notify_url"[0] && "sitename"[0] != "type"[0];
    GetAt(Lift(p), 4);
    GetAt(Lift(p), 6);
    p
  }

  /** With distinct keys, a key's value is the one at its position. */
  lemma {:induction false} GetAt(p: Params, i: int)
    requires DistinctKeys(p) && 0 <= i < |p|
    ensures Get(p, p[i].0) == p[i].1
  {
    if i > 0 {
      assert p[1..][i - 1] == p[i];
      GetAt(p[1..], i - 1);
    }
  }

  /** The pending order a request creates. */
  function NewOrder(outTradeNo: string, member: string, amount: real, channel: string): (o: PayOrder)
    ensures o.outTradeNo == outTradeNo && o.discordUserId == member && o.amount == amount && o.channel == channel
    ensures o.status != PAY_PAID && o.paidAt.None? && o.gatewayTradeNo.None?
  {
    PayOrder(outTradeNo, member, amount, channel, PAY_PENDING, None, None, None)
  }

  /** The route. The clock and `Math.random()` make the order number; the notify URL, the
      return URL for an order number, the site name and the gateway setting are the
      configured values; `md5` and `encode` are the hash and the URL escaping. */
  method CreateRechargeOrder(db: Db, session: Option<Snapshot>, config: Result<Config, string>, body: Option<JsValue>,
                             minimum: Num, clock: Clock, random: real, notifyUrl: string, returnUrlFor: string -> string,
                             siteName: string, gateway: Option<string>, md5: string -> string, encode: string -> string)
    returns (outcome: Outcome)
    requires db.Valid()
    requires clock.Valid() && 0.0 <= random < 1.0
    modifies db
    ensures db.Valid()
    ensures CheckRequest(session, config, body, minimum).Err? ==>
              outcome == CheckRequest(session, config, body, minimum).error && Untouched(db)
    ensures CheckRequest(session, config, body, minimum).Ok? ==>
              var c := CheckRequest(session, config, body, minimum).value;
              var outTradeNo := BuildOutTradeNo(clock, random, c.member.discordId);
              var amount := Round2(c.amount);
              && (outTradeNo in old(db.payOrders) ==> outcome == Crashed && Untouched(db))
              && (outTradeNo !in old(db.payOrders) ==>
                    && db.payOrders == old(db.payOrders)[outTradeNo := NewOrder(outTradeNo, c.member.discordId, amount, c.channel)]
                    && db.members == old(db.members) && db.peiwans == old(db.peiwans) && db.orders == old(db.orders)
                    && db.coupons == old(db.coupons) && db.draws == old(db.draws) && db.referrals == old(db.referrals)
                    && db.ledger == old(db.ledger) && db.recharges == old(db.recharges) && db.withdrawals == old(db.withdrawals)
                    && outcome.Created?
                    && outcome.orderId == outTradeNo && outcome.channel == c.channel
                    && outcome.amount == Fixed2(amount)
                    && outcome.returnUrl == returnUrlFor(outTradeNo)
                    && outcome.payUrl == BuildPayUrl(md5, encode,
                         PayParams(c.config.merchantId, c.channel, notifyUrl, returnUrlFor(outTradeNo), outTradeNo,
                                   c.member.username, Fixed2(amount), siteName),
                         c.config.secret, GatewayUrl(gateway)))
  {
    var checked := CheckRequest(session, config, body, minimum);
    if checked.Err? {
      return checked.error;
    }
    var c := checked.value;
    var amount := Round2(c.amount);
    var amountText := Fixed2(amount);
    var outTradeNo := BuildOutTradeNo(clock, random, c.member.discordId);
    var returnUrl := returnUrlFor(outTradeNo);
    if outTradeNo in db.payOrders {
      // the unique key of `outTradeNo` makes the insert throw
      return Crashed;
    }
    db.PutPayOrder(NewOrder(outTradeNo, c.member.discordId, amount, c.channel));
    var params := PayParams(c.config.merchantId, c.channel, notifyUrl, returnUrl, outTradeNo, c.member.username,
                            amountText, siteName);
    var payUrl := BuildPayUrl(md5, encode, params, c.config.secret, GatewayUrl(gateway));
    outcome := Created(outTradeNo, payUrl, c.channel, amountText, returnUrl);
  }

  /** The amount a created order signs is the amount it stores: the notify handler reads
      the `money` text back as exactly that amount. */
  lemma SignedMoneyMatchesStoredAmount(raw: real, params: seq<(string, string)>)
    requires PaymentNotify.Param(params, "money") == Some(Fixed2(Round2(raw)))
    ensures PaymentNotify.NotifiedAmount(params) == Some(Finite(Round2(raw)))
  {
    Fixed2DecimalRoundTrip(Round2(raw));
    Round2Idempotent(raw);
  }

  /** An authentic notification for a created, still pending order that echoes the signed
      order number and amount is settled for the stored amount. */
  lemma CreatedOrderSettles(md5: string -> string, params: seq<(string, string)>, config: Result<Config, string>,
                            payOrders: map<string, PayOrder>, outTradeNo: string, member: string, raw: real,
                            channel: string)
    requires DistinctKeys(Lift(params)) && PaymentNotify.Authentic(md5, params, config)
    requires PaymentNotify.Param(params, "out_trade_no") == Some(outTradeNo)
    requires PaymentNotify.Param(params, "money") == Some(Fixed2(Round2(raw)))
    requires outTradeNo in payOrders && payOrders[outTradeNo] == NewOrder(outTradeNo, member, Round2(raw), channel)
    ensures PaymentNotify.Screen(md5, params, config, payOrders) == PaymentNotify.Settle(payOrders[outTradeNo], Round2(raw))
  {
    SignedMoneyMatchesStoredAmount(raw, params);
  }

  /** The amount stored is the requested amount to the cent: never more than half a cent
      away, and positive whenever the request passes the default minimum. */
  lemma StoredAmountIsRounded(amount: real)
    requires amount > 0.0 && !BelowMinimum(amount, Finite(DEFAULT_MIN_AMOUNT))
    ensures Round2(amount) > 0.0
    ensures Round2(amount) - amount <= 0.005 && amount - Round2(amount) < 0.005
  {
    CentsMonotone(0.01, amount);
    CentsExact(1);
  }
}
