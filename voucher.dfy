/** The special vouchers the bot redeems (`lib/voucher.ts`): each recognised prize name
    belongs to exactly one kind. */
module Voucher {
  import opened Wrappers

  datatype Kind = Simple | Commission | Flow | Spend

  const CUSTOM_GIFT := "自定义礼物券"
  const CUSTOM_TAG := "自定义tag券"
  const COMMISSION_MINUS_1 := "抽成降1%券"
  const DOUBLE_FLOW := "双倍流水5000券"
  const DOUBLE_SPEND := "双倍消费5000券"
  const SIMPLE_PRIZES: set<string> := {CUSTOM_GIFT, CUSTOM_TAG}

  /** The prize names of each kind. */
  function NamesOf(k: Kind): (names: set<string>)
    ensures names != {}
  {
    match k
    case Simple => SIMPLE_PRIZES
    case Commission => {COMMISSION_MINUS_1}
    case Flow => {DOUBLE_FLOW}
    case Spend => {DOUBLE_SPEND}
  }

  /** `resolveSpecialVoucher`: exact, case- and blank-sensitive name matching. */
  function ResolveSpecialVoucher(prizeName: string): (r: Option<Kind>)
    ensures r.Some? ==> prizeName in NamesOf(r.value)
    ensures r.None? ==> prizeName !in SIMPLE_PRIZES + {COMMISSION_MINUS_1, DOUBLE_FLOW, DOUBLE_SPEND}
  {
    if prizeName in SIMPLE_PRIZES then Some(Simple)
    else if prizeName == COMMISSION_MINUS_1 then Some(Commission)
    else if prizeName == DOUBLE_FLOW then Some(Flow)
    else if prizeName == DOUBLE_SPEND then Some(Spend)
    else None
  }

  /** A name resolves to a kind exactly when it is one of that kind's names: the kinds'
      name sets are disjoint and together are everything that resolves. */
  lemma ResolveIsNamesOf(prizeName: string, k: Kind)
    ensures ResolveSpecialVoucher(prizeName) == Some(k) <==> prizeName in NamesOf(k)
  {
    assert CUSTOM_GIFT != COMMISSION_MINUS_1 && CUSTOM_GIFT != DOUBLE_FLOW && CUSTOM_GIFT != DOUBLE_SPEND by {
      assert CUSTOM_GIFT[2] != COMMISSION_MINUS_1[2] && CUSTOM_GIFT[0] != DOUBLE_FLOW[0] && CUSTOM_GIFT[0] != DOUBLE_SPEND[0];
    }
    assert CUSTOM_TAG != COMMISSION_MINUS_1 && CUSTOM_TAG != DOUBLE_FLOW && CUSTOM_TAG != DOUBLE_SPEND by {
      assert CUSTOM_TAG[0] != COMMISSION_MINUS_1[0] && CUSTOM_TAG[0] != DOUBLE_FLOW[0] && CUSTOM_TAG[0] != DOUBLE_SPEND[0];
    }
    assert COMMISSION_MINUS_1 != DOUBLE_FLOW && COMMISSION_MINUS_1 != DOUBLE_SPEND && DOUBLE_FLOW != DOUBLE_SPEND by {
      assert COMMISSION_MINUS_1[0] != DOUBLE_FLOW[0] && COMMISSION_MINUS_1[0] != DOUBLE_SPEND[0] && DOUBLE_FLOW[2] != DOUBLE_SPEND[2];
    }
  }
}
