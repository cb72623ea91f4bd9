/** Registering a member as a companion (`lib/peiwan/registerPeiwan.ts`): in one
    transaction the member row is created if missing, marked `PEIWAN`, and its
    `VIPRoleOptOut` column is made a proper boolean; the member must already own a
    listing profile, otherwise everything is rolled back. */
module RegisterPeiwan {
  import opened Wrappers
  import opened Store

  const ERR_NO_PROFILE := "尚未在陪玩表中找到该用户，请先写入数据。"

  /** The column after the three writes: null becomes false (`?? false`), and a value
      whose text is neither `true` nor `false` is reset to false by the raw update. */
  function NormalizedOptOut(o: OptOut): (r: OptOut)
    ensures OptOutText(r) == Some("true") || OptOutText(r) == Some("false")
    ensures o.OptBool? ==> r == o
    ensures OptOutText(o) == Some("true") || OptOutText(o) == Some("false") ==> r == o
  {
    var afterUpdate := if o.OptNull? then OptBool(false) else o;
    if OptOutText(afterUpdate) == Some("true") || OptOutText(afterUpdate) == Some("false") then afterUpdate
    else OptBool(false)
  }

  /** The member row after registration. */
  function Registered(members: map<string, Member>, id: string): (m: Member)
    requires id in members ==> members[id].discordUserId == id
    ensures m.discordUserId == id && m.status == Some(MEMBER_PEIWAN)
    ensures OptOutText(m.vipRoleOptOut) == Some("true") || OptOutText(m.vipRoleOptOut) == Some("false")
    ensures id in members ==>
              var before := members[id];
              && m.totalBalance == before.totalBalance && m.income == before.income
              && m.recharge == before.recharge && m.totalSpent == before.totalSpent
              && (before.vipRoleOptOut.OptBool? ==> m.vipRoleOptOut == before.vipRoleOptOut)
    ensures id !in members ==> m.totalBalance.None? && m.income.None? && m.vipRoleOptOut == OptBool(false)
  {
    var m := if id in members then members[id] else NewMember(id);
    m.(status := Some(MEMBER_PEIWAN), vipRoleOptOut := NormalizedOptOut(m.vipRoleOptOut))
  }

  /** `registerPeiwanProfile`. The profile lookup comes last in the transaction and its
      failure rolls back the member writes, so here it is made first and nothing is
      written when it fails. */
  method RegisterPeiwanProfile(db: Db, id: string) returns (r: Result<(int, string), string>)
    requires db.Valid()
    modifies db
    ensures db.Valid()
    ensures r.Err? <==> forall k :: k in old(db.peiwans) ==> old(db.peiwans)[k].discordUserId != id
    ensures r.Err? ==> r.error == ERR_NO_PROFILE && Untouched(db)
    ensures r.Ok? ==>
              && r.value.0 in old(db.peiwans) && old(db.peiwans)[r.value.0].discordUserId == id
              && r.value.1 == old(db.peiwans)[r.value.0].defaultQuotationCode
              && db.members == old(db.members)[id := Registered(old(db.members), id)]
              && db.peiwans == old(db.peiwans) && db.orders == old(db.orders) && db.coupons == old(db.coupons)
              && db.draws == old(db.draws) && db.payOrders == old(db.payOrders) && db.referrals == old(db.referrals)
              && db.ledger == old(db.ledger) && db.recharges == old(db.recharges) && db.withdrawals == old(db.withdrawals)
  {
    var profile := db.FindPeiwanByOwner(id);
    if profile.None? {
      return Err(ERR_NO_PROFILE);
    }
    var p := db.peiwans[profile.value];
    assert p.id == profile.value;
    db.PutMember(Registered(db.members, id));
    r := Ok((p.id, p.defaultQuotationCode));
  }

  /** Registering twice changes nothing the second time. */
  lemma RegisterIdempotent(members: map<string, Member>, id: string)
    requires id in members ==> members[id].discordUserId == id
    ensures Registered(members[id := Registered(members, id)], id) == Registered(members, id)
  {
    var m := Registered(members, id);
    assert NormalizedOptOut(m.vipRoleOptOut) == m.vipRoleOptOut;
  }
}
