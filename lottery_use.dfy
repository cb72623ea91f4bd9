/** Using a lottery draw (`app/api/lottery/use/route.ts`): a gift-type draw is given to
    another member through the bot's gift webhook; a self-use draw is consumed here with a
    conditional update, and a vanity-number card is handed to the bot's rename-card
    endpoint. Only the self-use branch writes to the database. */
module LotteryUse {
  import opened Wrappers
  import opened Text
  import opened Js
  import opened Store
  import opened Targets
  import opened Bot

  const VANITY_CARD_NAMES: set<string> := {"3位数靓号卡", "4位数靓号卡", "5位数靓号卡"}
  const PRIZE_GIFT := "GIFT"
  const PRIZE_SELFUSE := "SELFUSE"
  const PRIZE_COUPON := "COUPON"
  const GIFT_NOT_CONFIGURED := "内部礼物接口未配置（INTERNAL_API_PORT/INTERNAL_API_TOKEN）"
  const GIFT_ERROR_PREFIX := "礼物接口错误"
  const RENAME_ERROR := "内部接口错误"
  const VOUCHER_SUFFIX := "代金券"
  const SELFUSE_REQUEST := "SELFUSE"

  /** `isVanityCardPrize`: a non-empty name that, trimmed, is one of the vanity cards. */
  predicate IsVanityCardPrize(name: Option<string>) {
    name.Some? && name.value != [] && Trim(name.value) in VANITY_CARD_NAMES
  }

  /** `draw.prize?.type ?? COUPON` */
  function PrizeType(d: Draw): (t: string)
    ensures d.prize.None? ==> t == PRIZE_COUPON
  {
    if d.prize.Some? then d.prize.value.prizeType.GetOr(PRIZE_COUPON) else PRIZE_COUPON
  }

  /** The gift the bot hands out for each gift voucher it knows by name. */
  const PRIZE_TO_GIFT: map<string, string> := map[
    "小蛋糕代金券" := "小蛋糕",
    "棒棒糖代金券" := "棒棒糖",
    "香水代金券" := "香水",
    "旋转木马代金券" := "旋转木马",
    "南瓜车代金券" := "南瓜车",
    "留声机代金券" := "留声机",
    "一日冠75折券" := "一日冠"]

  /** `prizeName.replace(/代金券$/, '')` */
  function StripVoucherSuffix(name: string): (r: string)
    ensures EndsWith(name, VOUCHER_SUFFIX) ==> r + VOUCHER_SUFFIX == name
    ensures !EndsWith(name, VOUCHER_SUFFIX) ==> r == name
  {
    if EndsWith(name, VOUCHER_SUFFIX) then name[..|name| - |VOUCHER_SUFFIX|] else name
  }

  /** The gift name sent to the bot: the table's entry, else the prize name without its
      trailing 代金券. */
  function GiftNameForBot(prizeName: string): (g: string)
    ensures prizeName in PRIZE_TO_GIFT ==> g == PRIZE_TO_GIFT[prizeName]
    ensures prizeName !in PRIZE_TO_GIFT ==> g == StripVoucherSuffix(prizeName)
  {
    if prizeName in PRIZE_TO_GIFT then PRIZE_TO_GIFT[prizeName] else StripVoucherSuffix(prizeName)
  }

  /** For the gift vouchers the table lists by their 代金券 name, the table and the
      suffix rule agree. */
  lemma GiftTableAgreesWithSuffix(prizeName: string)
    requires prizeName in PRIZE_TO_GIFT && EndsWith(prizeName, VOUCHER_SUFFIX)
    ensures GiftNameForBot(prizeName) == StripVoucherSuffix(prizeName)
  {
    assert !EndsWith("一日冠75折券", VOUCHER_SUFFIX) by {
      var s := "一日冠75折券";
      assert s[|s| - 2] != VOUCHER_SUFFIX[1];
    }
    assert "小蛋糕代金券"[..3] == "小蛋糕";
    assert "棒棒糖代金券"[..3] == "棒棒糖";
    assert "香水代金券"[..2] == "香水";
    assert "旋转木马代金券"[..4] == "旋转木马";
    assert "南瓜车代金券"[..3] == "南瓜车";
    assert "留声机代金券"[..3] == "留声机";
  }

  /** The JSON the gift webhook receives. */
  datatype GiftCall = GiftCall(giverId: string, receiverId: string, giftName: string, quantity: nat,
                               anonymous: bool, lotteryId: string, requestId: string)

  /** The JSON the rename-card endpoint receives. */
  datatype RenameCall = RenameCall(userId: string, voucherId: string)

  datatype Outcome =
    | Unauthorized
    | Crashed
    | BadRequest
    | NotFound
    | AlreadyUsed
    | NotGift
    | ReceiverNotFound
    | GiftFailed(message: string)
    | Gifted
    | NotSelfUse
    | NotConfigured
    | RenameFailed(status: nat, message: string)
    | Renamed
    | SelfUsed

  function Status(o: Outcome): (code: int)
    ensures !o.RenameFailed? ==> (code == 200 <==> o.Gifted? || o.Renamed? || o.SelfUsed?)
    ensures !o.RenameFailed? ==> (code == 409 <==> o.AlreadyUsed?)
    ensures o.RenameFailed? ==> code == o.status
  {
    match o
    case Unauthorized => 401
    case Crashed => 500
    case NotFound => 404
    case ReceiverNotFound => 404
    case AlreadyUsed => 409
    case NotConfigured => 500
    case RenameFailed(status, _) => status
    case Gifted => 200
    case Renamed => 200
    case SelfUsed => 200
    case _ => 400
  }

  /** What the route decides before any write: an outcome, or the self-use of a draw. */
  datatype Decision = Done(outcome: Outcome) | ConsumeDraw(id: string)

  /** The request fields: `lotteryId` and `target` when they are strings, and `mode`. */
  function StringField(body: JsValue, key: string): string {
    var v := Prop(body, key);
    if v.Str? then v.s else ""
  }

  predicate ModeIs(body: JsValue, mode: string) {
    Prop(body, "mode") == Str(mode)
  }

  /** The gift call for a draw given to `receiver`. */
  function GiftCallFor(giver: string, receiver: string, d: Draw, lotteryId: string): (c: GiftCall)
    ensures c.requestId == "GIFT:" + receiver && c.quantity == 1 && !c.anonymous
    ensures c.giverId == giver && c.receiverId == receiver && c.lotteryId == lotteryId
    ensures c.giftName == GiftNameForBot(PrizeName(d).GetOr(""))
  {
    GiftCall(giver, receiver, GiftNameForBot(PrizeName(d).GetOr("")), 1, false, lotteryId, "GIFT:" + receiver)
  }

  /** What `callGiftWebhook` and its `catch` make of a gift call. */
  function GiftResult(configured: bool, reply: Reply): (o: Outcome)
    ensures o == Gifted <==> configured && reply.Accepted?
    ensures o != Gifted ==> o.GiftFailed?
  {
    if !configured then GiftFailed(GIFT_NOT_CONFIGURED)
    else match reply
      case Accepted => Gifted
      case Rejected(_, _) => GiftFailed(ErrorWithStatus(reply, GIFT_ERROR_PREFIX))
  }

  /** What the rename-card call makes of the bot's reply; the bot's status is passed on. */
  function RenameResult(configured: bool, reply: Reply): (o: Outcome)
    ensures o == Renamed <==> configured && reply.Accepted?
    ensures !configured ==> o == NotConfigured
    ensures configured && reply.Rejected? ==> o == RenameFailed(reply.status, reply.error.GetOr(RENAME_ERROR))
  {
    if !configured then NotConfigured
    else match reply
      case Accepted => Renamed
      case Rejected(status, error) => RenameFailed(status, error.GetOr(RENAME_ERROR))
  }

  /** The checks of the route in order. `body` is the parsed body, `{}` when it is not
      JSON; `configured` says whether the internal port and token are set. */
  function Decide(members: map<string, Member>, peiwans: map<int, Peiwan>, draws: map<string, Draw>,
                  session: Option<string>, body: JsValue, configured: bool,
                  giftBot: GiftCall -> Reply, renameBot: RenameCall -> Reply): (d: Decision)
    ensures d == Done(Unauthorized) <==> session.None? || session.value == []
    ensures d == Done(Crashed) <==> session.Some? && session.value != [] && body == Null
    ensures session.Some? && session.value != [] && body != Null ==>
              var id := StringField(body, "lotteryId");
              var user := session.value;
              && (d == Done(BadRequest) <==> id == [] || !(ModeIs(body, "gift") || ModeIs(body, "selfuse")))
              && (id != [] && (ModeIs(body, "gift") || ModeIs(body, "selfuse")) ==>
                    && (d == Done(NotFound) <==> id !in draws || draws[id].userId != user)
                    && (d == Done(AlreadyUsed) <==> id in draws && draws[id].userId == user && draws[id].status != DRAW_UNUSED)
                    && (d.ConsumeDraw? ==>
                          && d.id == id && id in draws && draws[id].userId == user
                          && draws[id].status == DRAW_UNUSED && ModeIs(body, "selfuse")
                          && PrizeType(draws[id]) == PRIZE_SELFUSE && !IsVanityCardPrize(PrizeName(draws[id])))
                    && (id in draws && draws[id].userId == user && draws[id].status == DRAW_UNUSED ==>
                          var draw := draws[id];
                          var receiver := ResolveTarget(members, peiwans, StringField(body, "target"));
                          && (ModeIs(body, "gift") ==>
                                && (d == Done(NotGift) <==> PrizeType(draw) != PRIZE_GIFT)
                                && (PrizeType(draw) == PRIZE_GIFT ==>
                                      && (d == Done(ReceiverNotFound) <==> receiver.None?)
                                      && (receiver.Some? ==>
                                            d == Done(GiftResult(configured, giftBot(GiftCallFor(user, receiver.value, draw, id)))))))
                          && (ModeIs(body, "selfuse") ==>
                                && (d == Done(NotSelfUse) <==>
                                      PrizeType(draw) != PRIZE_SELFUSE && !IsVanityCardPrize(PrizeName(draw)))
                                && (IsVanityCardPrize(PrizeName(draw)) ==>
                                      d == Done(RenameResult(configured, renameBot(RenameCall(user, id)))))
                                && (d == ConsumeDraw(id) <==>
                                      PrizeType(draw) == PRIZE_SELFUSE && !IsVanityCardPrize(PrizeName(draw))))))
    ensures d == Done(Gifted) ==>
              && session.Some? && body != Null && ModeIs(body, "gift")
              && var id := StringField(body, "lotteryId");
              && id in draws && draws[id].userId == session.value && draws[id].status == DRAW_UNUSED
              && PrizeType(draws[id]) == PRIZE_GIFT
              && var receiver := ResolveTarget(members, peiwans, StringField(body, "target"));
              && receiver.Some? && configured
              && giftBot(GiftCallFor(session.value, receiver.value, draws[id], id)) == Accepted
    ensures d == Done(Renamed) ==>
              && session.Some? && body != Null && ModeIs(body, "selfuse")
              && var id := StringField(body, "lotteryId");
              && id in draws && draws[id].userId == session.value && draws[id].status == DRAW_UNUSED
              && IsVanityCardPrize(PrizeName(draws[id]))
              && configured && renameBot(RenameCall(session.value, id)) == Accepted
    ensures d != Done(SelfUsed)
  {
    if session.None? || session.value == [] then Done(Unauthorized)
    else if body == Null then Done(Crashed)
    else
      var id := StringField(body, "lotteryId");
      var user := session.value;
      if id == [] || !(ModeIs(body, "gift") || ModeIs(body, "selfuse")) then Done(BadRequest)
      else if id !in draws || draws[id].userId != user then Done(NotFound)
      else
        var draw := draws[id];
        if draw.status != DRAW_UNUSED then Done(AlreadyUsed)
        else if ModeIs(body, "gift") then
          if PrizeType(draw) != PRIZE_GIFT then Done(NotGift)
          else match ResolveTarget(members, peiwans, StringField(body, "target"))
            case None => Done(ReceiverNotFound)
            case Some(receiver) => Done(GiftResult(configured, giftBot(GiftCallFor(user, receiver, draw, id))))
        else
          var vanity := IsVanityCardPrize(PrizeName(draw));
          if PrizeType(draw) != PRIZE_SELFUSE && !vanity then Done(NotSelfUse)
          else if vanity then Done(RenameResult(configured, renameBot(RenameCall(user, id))))
          else ConsumeDraw(id)
  }

  /** `lotteryDraw.updateMany({ where: { id, status: UNUSED }, data: { status: USED,
      consumeAt: now, requestId: 'SELFUSE' } })`: the compare-and-set on the draw. */
  method ConsumeIfUnused(db: Db, id: string, now: int) returns (count: nat)
    requires db.Valid()
    modifies db
    ensures db.Valid()
    ensures count == 1 <==> id in old(db.draws) && old(db.draws)[id].status == DRAW_UNUSED
    ensures count == 0 || count == 1
    ensures count == 1 ==> db.draws == old(db.draws)[id := Consumed(old(db.draws)[id], now)]
    ensures count == 0 ==> db.draws == old(db.draws)
    ensures db.members == old(db.members) && db.peiwans == old(db.peiwans) && db.orders == old(db.orders)
    ensures db.coupons == old(db.coupons) && db.payOrders == old(db.payOrders) && db.referrals == old(db.referrals)
    ensures db.ledger == old(db.ledger) && db.recharges == old(db.recharges) && db.withdrawals == old(db.withdrawals)
  {
    if id in db.draws && db.draws[id].status == DRAW_UNUSED {
      var d := db.draws[id];
      assert d.id == id;
      db.PutDraw(Consumed(d, now));
      count := 1;
    } else {
      count := 0;
    }
  }

  /** The route. `body` is `None` when the body is not JSON (read as `{}`). */
  method UseLottery(db: Db, session: Option<string>, body: Option<JsValue>, now: int, configured: bool,
                    giftBot: GiftCall -> Reply, renameBot: RenameCall -> Reply) returns (outcome: Outcome)
    requires db.Valid()
    modifies db
    ensures db.Valid()
    ensures var d := Decide(old(db.members), old(db.peiwans), old(db.draws), session, body.GetOr(Obj(map[])),
                            configured, giftBot, renameBot);
            && (d.Done? ==> outcome == d.outcome && Untouched(db))
            && (d.ConsumeDraw? ==>
                  && outcome == SelfUsed
                  && db.draws == old(db.draws)[d.id := Consumed(old(db.draws)[d.id], now)]
                  && db.members == old(db.members) && db.peiwans == old(db.peiwans) && db.orders == old(db.orders)
                  && db.coupons == old(db.coupons) && db.payOrders == old(db.payOrders)
                  && db.referrals == old(db.referrals) && db.ledger == old(db.ledger)
                  && db.recharges == old(db.recharges) && db.withdrawals == old(db.withdrawals))
  {
    var d := Decide(db.members, db.peiwans, db.draws, session, body.GetOr(Obj(map[])), configured, giftBot, renameBot);
    match d
    case Done(o) =>
      outcome := o;
    case ConsumeDraw(id) =>
      var count := ConsumeIfUnused(db, id, now);
      if count != 1 {
        outcome := AlreadyUsed;
      } else {
        outcome := SelfUsed;
      }
  }

  /** The draw after the conditional update of a self-use. */
  function Consumed(d: Draw, now: int): (r: Draw)
    ensures r.status == DRAW_USED && r.consumeAt == Some(now) && r.requestId == Some(SELFUSE_REQUEST)
    ensures r.id == d.id && r.userId == d.userId && r.prize == d.prize
    ensures r.expiresAt == d.expiresAt && r.createdAt == d.createdAt
  {
    d.(status := DRAW_USED, consumeAt := Some(now), requestId := Some(SELFUSE_REQUEST))
  }

  /** Once a draw has been self-used, the same request is refused as already used. */
  lemma {:induction false} SelfUseOnce(members: map<string, Member>, peiwans: map<int, Peiwan>, draws: map<string, Draw>,
                                       session: Option<string>, body: JsValue, configured: bool,
                                       giftBot: GiftCall -> Reply, renameBot: RenameCall -> Reply, now: int)
    requires Decide(members, peiwans, draws, session, body, configured, giftBot, renameBot).ConsumeDraw?
    ensures var id := Decide(members, peiwans, draws, session, body, configured, giftBot, renameBot).id;
            Decide(members, peiwans, draws[id := Consumed(draws[id], now)], session, body, configured, giftBot, renameBot)
              == Done(AlreadyUsed)
  {
    var id := Decide(members, peiwans, draws, session, body, configured, giftBot, renameBot).id;
    assert id == StringField(body, "lotteryId");
  }

  /** Self-use succeeds at most once per draw: the same request made again is refused with
      409. */
  method SelfUseTwice(db: Db, session: Option<string>, body: Option<JsValue>, now: int, later: int, configured: bool,
                      giftBot: GiftCall -> Reply, renameBot: RenameCall -> Reply) returns (first: Outcome, second: Outcome)
    requires db.Valid()
    modifies db
    ensures first == SelfUsed ==> second == AlreadyUsed
  {
    ghost var members, peiwans, draws := db.members, db.peiwans, db.draws;
    first := UseLottery(db, session, body, now, configured, giftBot, renameBot);
    if first == SelfUsed {
      SelfUseOnce(members, peiwans, draws, session, body.GetOr(Obj(map[])), configured, giftBot, renameBot, now);
    }
    second := UseLottery(db, session, body, later, configured, giftBot, renameBot);
  }
}
