/** A member's withdrawal request (`app/api/withdraw/route.ts`): the amount and the
    payout method are validated before the database is touched; then, in one
    transaction, the member must exist and hold at least the amount in both `income` and
    `totalBalance`, both are debited by the amount and one `Withdraw` row is written. No
    ledger row is written. */
module Withdraw {
  import opened Wrappers
  import opened Text
  import opened Money
  import opened Js
  import opened Store

  /** `parseAmount`: a finite number as it is, or a string that is not blank and that
      `Number` turns into a finite number. */
  function ParseAmount(raw: JsValue): (r: Option<real>)
    ensures raw.Number? ==> (r.Some? <==> raw.n.Finite?) && (r.Some? ==> r.value == raw.n.value)
    ensures raw.Str? ==> (r.Some? <==> Trim(raw.s) != [] && StringToNumber(raw.s).Finite?)
    ensures raw.Str? && r.Some? ==> NumericLiteral(Trim(raw.s)) == Some(r.value)
    ensures !raw.Number? && !raw.Str? ==> r.None?
  {
    match raw
    case Number(n) => if n.Finite? then Some(n.value) else None
    case Str(s) => if Trim(s) != [] && StringToNumber(s).Finite? then Some(StringToNumber(s).value) else None
    case _ => None
  }

  /** Text that is a numeric literal once trimmed is accepted as that literal's value. */
  lemma ParseAmountLiteral(s: string)
    requires NumericLiteral(Trim(s)).Some?
    ensures ParseAmount(Str(s)) == NumericLiteral(Trim(s))
  {
  }

  /** An amount written as "0x10" is sixteen, as `Number` reads it. */
  lemma ParseAmountHex(s: string)
    requires s == "0x10"
    ensures ParseAmount(Str(s)) == Some(16.0)
  {
    HexExamples();
    TrimPlain(s);
    ParseAmountLiteral(s);
  }

  /** White space around the text of an amount does not change what it parses to. */
  lemma ParseAmountIgnoresSpace(s: string)
    ensures ParseAmount(Str(Trim(s))) == ParseAmount(Str(s))
  {
    TrimIdempotent(s);
    NumberOfTrimmed(s);
  }

  lemma NumberOfTrimmed(s: string)
    ensures StringToNumber(Trim(s)) == StringToNumber(s)
  {
    TrimIdempotent(s);
    assert StringToNumber(Trim(s)) == TrimmedToNumber(Trim(Trim(s)));
  }

  /** `ensureMethod`: the trimmed text of a string, the empty string for anything else. */
  function EnsureMethod(raw: JsValue): (m: string)
    ensures NoSpaceAtEnds(m)
    ensures raw.Str? ==> m == Trim(raw.s)
    ensures !raw.Str? ==> m == []
  {
    if raw.Str? then Trim(raw.s) else ""
  }

  /** A method name that went through `ensureMethod` once comes back unchanged. */
  lemma EnsureMethodIdempotent(raw: JsValue)
    ensures EnsureMethod(Str(EnsureMethod(raw))) == EnsureMethod(raw)
  {
    if raw.Str? { TrimIdempotent(raw.s); }
  }

  /** How the request ends. */
  datatype Outcome =
    | Unauthorized
    | InvalidJson
    | InvalidAmount
    | InvalidMethod
    | MemberNotFound
    | InsufficientBalance
    | Withdrawn(remainingIncome: string, remainingBalance: string)

  /** The HTTP status of each outcome. */
  function Status(o: Outcome): (code: int)
    ensures code == 200 <==> o.Withdrawn?
    ensures code == 401 <==> o.Unauthorized?
    ensures code == 404 <==> o.MemberNotFound?
    ensures code != 200 && code != 401 && code != 404 ==> code == 400
  {
    match o
    case Unauthorized => 401
    case MemberNotFound => 404
    case Withdrawn(_, _) => 200
    case _ => 400
  }

  /** A validated request. */
  datatype Request = Request(userId: string, amount: int, payoutMethod: string)

  /** `amountNumber !== null && amountNumber > 0 && Number.isInteger(amountNumber)` */
  predicate ValidAmount(a: Option<real>) {
    a.Some? && a.value > 0.0 && a.value.Floor as real == a.value
  }

  /** The checks made before the transaction: a signed-in caller, a JSON body, a positive
      whole amount and a non-blank payout method, in that order. `body` is `None` when
      the body is not JSON. */
  function CheckRequest(session: Option<string>, body: Option<JsValue>): (r: Result<Request, Outcome>)
    ensures r == Err(Unauthorized) <==> session.None? || session.value == []
    ensures r == Err(InvalidJson) <==> session.Some? && session.value != [] && body.None?
    ensures r == Err(InvalidAmount) <==>
              session.Some? && session.value != [] && body.Some?
              && !ValidAmount(ParseAmount(Prop(body.value, "amount")))
    ensures r == Err(InvalidMethod) <==>
              session.Some? && session.value != [] && body.Some?
              && ValidAmount(ParseAmount(Prop(body.value, "amount")))
              && EnsureMethod(Prop(body.value, "method")) == []
    ensures r.Ok? ==>
              && session.Some? && r.value.userId == session.value && r.value.userId != []
              && body.Some? && Some(r.value.amount as real) == ParseAmount(Prop(body.value, "amount"))
              && r.value.amount > 0
              && r.value.payoutMethod == EnsureMethod(Prop(body.value, "method")) && r.value.payoutMethod != []
  {
    if session.None? || session.value == [] then Err(Unauthorized)
    else if body.None? then Err(InvalidJson)
    else
      var amount := ParseAmount(Prop(body.value, "amount"));
      if !ValidAmount(amount) then Err(InvalidAmount)
      else
        var m := EnsureMethod(Prop(body.value, "method"));
        if m == [] then Err(InvalidMethod)
        else Ok(Request(session.value, amount.value.Floor, m))
  }

  /** `income` and `totalBalance`, null read as 0, both cover the amount. */
  predicate Covers(m: Member, amount: real) {
    m.income.GetOr(0.0) >= amount && m.totalBalance.GetOr(0.0) >= amount
  }

  /** The member row after `{ decrement: amount }` on `income` and `totalBalance`. */
  function Debited(m: Member, amount: real): (r: Member)
    ensures r.income.Some? <==> m.income.Some?
    ensures r.totalBalance.Some? <==> m.totalBalance.Some?
    ensures r.income.Some? ==> m.income.value - r.income.value == amount
    ensures r.totalBalance.Some? ==> m.totalBalance.value - r.totalBalance.value == amount
    ensures r.discordUserId == m.discordUserId && r.recharge == m.recharge && r.totalSpent == m.totalSpent
    ensures r.status == m.status && r.vipRoleOptOut == m.vipRoleOptOut
  {
    m.(income := Increment(m.income, -amount), totalBalance := Increment(m.totalBalance, -amount))
  }

  /** A positive amount can only be taken from non-null columns that hold it, so neither
      column goes below zero. */
  lemma {:induction false} DebitStaysNonNegative(m: Member, amount: real)
    requires amount > 0.0 && Covers(m, amount)
    ensures Debited(m, amount).income.Some? && Debited(m, amount).income.value >= 0.0
    ensures Debited(m, amount).totalBalance.Some? && Debited(m, amount).totalBalance.value >= 0.0
  {
    assert m.income.Some? && m.totalBalance.Some?;
  }

  /** `updatedMember.income?.toString() ?? '0'`; `decimalText` is the decimal's text. */
  function Remaining(column: Option<real>, decimalText: real -> string): string {
    match column
    case Some(v) => decimalText(v)
    case None => "0"
  }

  /** The route, with the session's user id, the parsed body and the decimal text
      conversion passed in. */
  method HandleWithdraw(db: Db, session: Option<string>, body: Option<JsValue>, decimalText: real -> string)
    returns (outcome: Outcome)
    requires db.Valid()
    modifies db
    ensures db.Valid()
    ensures CheckRequest(session, body).Err? ==> outcome == CheckRequest(session, body).error && Untouched(db)
    ensures CheckRequest(session, body).Ok? ==>
              var req := CheckRequest(session, body).value;
              var a := req.amount as real;
              && (req.userId !in old(db.members) ==> outcome == MemberNotFound && Untouched(db))
              && (req.userId in old(db.members) && !Covers(old(db.members)[req.userId], a) ==>
                    outcome == InsufficientBalance && Untouched(db))
              && (req.userId in old(db.members) && Covers(old(db.members)[req.userId], a) ==>
                    var after := Debited(old(db.members)[req.userId], a);
                    && outcome == Withdrawn(Remaining(after.income, decimalText), Remaining(after.totalBalance, decimalText))
                    && db.members == old(db.members)[req.userId := after]
                    && db.withdrawals == old(db.withdrawals) + [WithdrawRow(req.userId, req.amount, req.payoutMethod)]
                    && db.ledger == old(db.ledger) && db.recharges == old(db.recharges)
                    && db.peiwans == old(db.peiwans) && db.orders == old(db.orders) && db.coupons == old(db.coupons)
                    && db.draws == old(db.draws) && db.payOrders == old(db.payOrders) && db.referrals == old(db.referrals))
  {
    var checked := CheckRequest(session, body);
    if checked.Err? {
      return checked.error;
    }
    var req := checked.value;
    if req.userId !in db.members {
      return MemberNotFound;
    }
    var member := db.members[req.userId];
    var a := req.amount as real;
    if !Covers(member, a) {
      return InsufficientBalance;
    }
    assert member.discordUserId == req.userId;
    var after := Debited(member, a);
    db.PutMember(after);
    db.AppendWithdrawal(WithdrawRow(req.userId, req.amount, req.payoutMethod));
    outcome := Withdrawn(Remaining(after.income, decimalText), Remaining(after.totalBalance, decimalText));
  }
}
