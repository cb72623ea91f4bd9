/** Redeeming a special voucher through the bot (`app/api/voucher/use/route.ts`): the
    prize name must be a recognised special voucher and the caller must hold a usable
    draw of it; the simple kinds go to the custom-gift or custom-tag endpoint, the others
    need a target member and go to their own endpoint. The draw is not written here: the
    bot consumes it. */
module VoucherUse {
  import opened Wrappers
  import opened Text
  import opened Js
  import opened Store
  import opened Targets
  import opened Bot
  import opened Voucher
  import Discount

  const NOT_CONFIGURED := "内部接口未配置（INTERNAL_API_PORT/INTERNAL_API_TOKEN）"
  const INTERNAL_ERROR_PREFIX := "内部接口错误"
  const CUSTOM_GIFT_PATH := "/internal/voucher/custom-gift"
  const CUSTOM_TAG_PATH := "/internal/voucher/custom-tag"
  const COMMISSION_PATH := "/internal/voucher/commission-minus1"
  const FLOW_PATH := "/internal/voucher/double-flow-5000"
  const SPEND_PATH := "/internal/voucher/double-spend-5000"

  /** The JSON the bot receives; absent fields are left out of the object. */
  datatype Payload = Payload(userId: string, targetDiscordId: Option<string>, peiwanId: Option<nat>, voucherId: string)

  /** One call to the bot's internal API. */
  datatype Call = Call(path: string, payload: Payload)

  datatype Outcome =
    | Unauthorized
    | Crashed
    | MissingPrizeName
    | UnsupportedPrize
    | Unavailable
    | TargetNotFound
    | Failed(message: string)
    | Used

  function Status(o: Outcome): (code: int)
    ensures code == 200 <==> o.Used?
    ensures code == 404 <==> o.TargetNotFound?
    ensures code == 401 <==> o.Unauthorized?
    ensures code == 500 <==> o.Crashed?
  {
    match o
    case Unauthorized => 401
    case Crashed => 500
    case TargetNotFound => 404
    case Used => 200
    case _ => 400
  }

  /** `typeof v === 'string' ? v.trim() : ''` */
  function TrimmedText(v: JsValue): (s: string)
    ensures v.Str? ==> s == Trim(v.s)
    ensures !v.Str? ==> s == []
  {
    if v.Str? then Trim(v.s) else ""
  }

  /** The body after `request.json().catch(() => ({}))`: `None` when it is not JSON. */
  function BodyOrEmpty(body: Option<JsValue>): JsValue {
    body.GetOr(Obj(map[]))
  }

  /** A draw the `findFirst` may return: the caller's, unused, of this prize, unexpired. */
  predicate Usable(d: Draw, userId: string, prizeName: string, now: int) {
    d.userId == userId && d.status == DRAW_UNUSED && PrizeName(d) == Some(prizeName) && d.expiresAt > now
  }

  /** The named draw if it is usable; without a name, a usable draw expiring first, and
      created first among those. */
  predicate Choice(draws: map<string, Draw>, lotteryId: string, userId: string, prizeName: string, now: int, id: string) {
    id in draws && Usable(draws[id], userId, prizeName, now)
    && (lotteryId != [] ==> id == lotteryId)
    && (lotteryId == [] ==> forall k :: k in draws && Usable(draws[k], userId, prizeName, now) ==> Discount.DrawNoLater(draws[id], draws[k]))
  }

  /** The two `findFirst` queries. */
  method FindUsableDraw(draws: map<string, Draw>, lotteryId: string, userId: string, prizeName: string, now: int)
    returns (id: Option<string>)
    ensures id.Some? ==> Choice(draws, lotteryId, userId, prizeName, now, id.value)
    ensures id.None? ==> forall k :: !Choice(draws, lotteryId, userId, prizeName, now, k)
    ensures id.None? && lotteryId == [] ==> forall k :: k in draws ==> !Usable(draws[k], userId, prizeName, now)
  {
    if lotteryId != [] {
      if lotteryId in draws && Usable(draws[lotteryId], userId, prizeName, now) {
        id := Some(lotteryId);
      } else {
        id := None;
      }
    } else {
      var usable := set k | k in draws && Usable(draws[k], userId, prizeName, now);
      if usable == {} {
        forall k | k in draws ensures !Usable(draws[k], userId, prizeName, now) {
          assert k !in usable;
        }
        id := None;
      } else {
        Discount.EarliestDrawIn(draws, usable);
        var k :| k in usable && forall j :: j in usable ==> Discount.DrawNoLater(draws[k], draws[j]);
        id := Some(k);
      }
    }
  }

  /** The endpoint of each kind; the simple kind depends on the prize name. */
  function Endpoint(kind: Kind, prizeName: string): (path: string)
    ensures kind == Simple ==> (path == CUSTOM_GIFT_PATH <==> prizeName == CUSTOM_GIFT)
    ensures kind == Simple && prizeName != CUSTOM_GIFT ==> path == CUSTOM_TAG_PATH
    ensures kind == Commission ==> path == COMMISSION_PATH
    ensures kind == Flow ==> path == FLOW_PATH
    ensures kind == Spend ==> path == SPEND_PATH
  {
    match kind
    case Simple => if prizeName == CUSTOM_GIFT then CUSTOM_GIFT_PATH else CUSTOM_TAG_PATH
    case Commission => COMMISSION_PATH
    case Flow => FLOW_PATH
    case Spend => SPEND_PATH
  }

  /** Each recognised prize name is sent to its own endpoint. */
  lemma EndpointsDistinct(a: string, b: string)
    requires ResolveSpecialVoucher(a).Some? && ResolveSpecialVoucher(b).Some?
    requires a != b
    ensures Endpoint(ResolveSpecialVoucher(a).value, a) != Endpoint(ResolveSpecialVoucher(b).value, b)
  {
    assert CUSTOM_GIFT_PATH[25] != CUSTOM_TAG_PATH[25];
    assert CUSTOM_GIFT_PATH[19] != COMMISSION_PATH[19] && CUSTOM_TAG_PATH[19] != COMMISSION_PATH[19];
    assert CUSTOM_GIFT_PATH[18] != FLOW_PATH[18] && CUSTOM_GIFT_PATH[18] != SPEND_PATH[18];
    assert CUSTOM_TAG_PATH[18] != FLOW_PATH[18] && CUSTOM_TAG_PATH[18] != SPEND_PATH[18];
    assert COMMISSION_PATH[18] != FLOW_PATH[18] && COMMISSION_PATH[18] != SPEND_PATH[18];
    assert FLOW_PATH[25] != SPEND_PATH[25];
  }

  /** The payload of a targeted voucher: `peiwanId` is present exactly when the typed
      target is a positive integer, whichever lookup resolved it. */
  function TargetedPayload(userId: string, targetId: string, rawTarget: string, voucherId: string): (p: Payload)
    ensures p.userId == userId && p.targetDiscordId == Some(targetId) && p.voucherId == voucherId
    ensures p.peiwanId.Some? <==> PositiveInteger(rawTarget).Some?
    ensures p.peiwanId.Some? ==> p.peiwanId == PositiveInteger(rawTarget)
  {
    Payload(userId, Some(targetId), PositiveInteger(rawTarget), voucherId)
  }

  /** What `callInternal` makes of a call: it throws without a configured port and token,
      or with the bot's error when the bot rejects the call. */
  function CallResult(configured: bool, reply: Reply): (o: Outcome)
    ensures o == Used <==> configured && reply.Accepted?
    ensures o != Used ==> o.Failed?
    ensures !configured ==> o == Failed(NOT_CONFIGURED)
  {
    if !configured then Failed(NOT_CONFIGURED)
    else match reply
      case Accepted => Used
      case Rejected(_, _) => Failed(ErrorWithStatus(reply, INTERNAL_ERROR_PREFIX))
  }

  /** The route. `session` is the caller's id, `body` the parsed body (`None` when it is
      not JSON), `configured` whether the internal port and token are set, and `bot` the
      bot's reply to each call. `call` is the call the route makes, if it gets that far. */
  method UseVoucher(db: Db, session: Option<string>, body: Option<JsValue>, now: int,
                    configured: bool, bot: Call -> Reply)
    returns (outcome: Outcome, call: Option<Call>)
    requires db.Valid()
    ensures call.Some? ==> outcome == CallResult(configured, bot(call.value))
    ensures outcome == Unauthorized <==> session.None? || session.value == []
    ensures outcome == Crashed <==> session.Some? && session.value != [] && body == Some(Null)
    ensures session.Some? && session.value != [] && body != Some(Null) ==>
              var b := BodyOrEmpty(body);
              var prizeName := TrimmedText(Prop(b, "prizeName"));
              var rawTarget := TrimmedText(Prop(b, "target"));
              var lotteryId := TrimmedText(Prop(b, "lotteryId"));
              var userId := session.value;
              && (outcome == MissingPrizeName <==> prizeName == [])
              && (outcome == UnsupportedPrize <==> prizeName != [] && ResolveSpecialVoucher(prizeName).None?)
              && (ResolveSpecialVoucher(prizeName).Some? ==>
                    var kind := ResolveSpecialVoucher(prizeName).value;
                    && (outcome == Unavailable <==> forall k :: !Choice(db.draws, lotteryId, userId, prizeName, now, k))
                    && (outcome == TargetNotFound <==>
                          (exists k :: Choice(db.draws, lotteryId, userId, prizeName, now, k))
                          && kind != Simple && ResolveTarget(db.members, db.peiwans, rawTarget).None?)
                    && (call.Some? ==>
                          && call.value.path == Endpoint(kind, prizeName)
                          && Choice(db.draws, lotteryId, userId, prizeName, now, call.value.payload.voucherId)
                          && (kind == Simple ==> call.value.payload == Payload(userId, None, None, call.value.payload.voucherId))
                          && (kind != Simple ==>
                                var target := ResolveTarget(db.members, db.peiwans, rawTarget);
                                target.Some? && call.value.payload ==
                                  TargetedPayload(userId, target.value, rawTarget, call.value.payload.voucherId))))
    ensures call.None? <==> outcome != Used && !outcome.Failed?
  {
    call := None;
    if session.None? || session.value == [] {
      return Unauthorized, None;
    }
    if body == Some(Null) {
      return Crashed, None;
    }
    var b := BodyOrEmpty(body);
    var prizeName := TrimmedText(Prop(b, "prizeName"));
    var rawTarget := TrimmedText(Prop(b, "target"));
    var lotteryId := TrimmedText(Prop(b, "lotteryId"));
    var userId := session.value;
    if prizeName == [] {
      return MissingPrizeName, None;
    }
    var special := ResolveSpecialVoucher(prizeName);
    if special.None? {
      return UnsupportedPrize, None;
    }
    var kind := special.value;
    var drawId := FindUsableDraw(db.draws, lotteryId, userId, prizeName, now);
    if drawId.None? {
      return Unavailable, None;
    }
    if kind == Simple {
      var c := Call(Endpoint(kind, prizeName), Payload(userId, None, None, drawId.value));
      return CallResult(configured, bot(c)), Some(c);
    }
    var target := ResolveTarget(db.members, db.peiwans, rawTarget);
    if target.None? {
      return TargetNotFound, None;
    }
    var c := Call(Endpoint(kind, prizeName), TargetedPayload(userId, target.value, rawTarget, drawId.value));
    outcome := CallResult(configured, bot(c));
    call := Some(c);
  }
}
