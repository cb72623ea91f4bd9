/** An administrator creating a listing profile (`app/api/admin/peiwan/route.ts`): the
    form is normalised with an explicit id allowed, a second profile for the same member
    or a taken id is refused, the member is marked `PEIWAN`, the profile gets the
    explicit id or one past the largest, and the member is registered as a companion. */
module AdminPeiwan {
  import opened Wrappers
  import opened Js
  import opened Store
  import Session
  import opened Admin
  import opened PeiwanPayload
  import opened RegisterPeiwan

  const ADMIN_OPTIONS := Options(true, true)
  const ERR_OWNER_TAKEN := "该 Discord ID 已存在陪玩资料"
  const ERR_ID_TAKEN := "该陪玩 ID 已被占用"

  datatype Outcome =
    | Forbidden
    | InvalidJson
    | Rejected(message: string)
    | Conflict(message: string)
    | Created(peiwanId: int)

  function Status(o: Outcome): (code: int)
    ensures code == 201 <==> o.Created?
    ensures code == 409 <==> o.Conflict?
    ensures code == 403 <==> o.Forbidden?
  {
    match o
    case Forbidden => 403
    case InvalidJson => 400
    case Rejected(_) => 400
    case Conflict(_) => 409
    case Created(_) => 201
  }

  /** `(_max.PEIWANID ?? 0) + 1`: one past the largest id in use, 1 for an empty table. */
  predicate AutoId(peiwans: map<int, Peiwan>, id: int) {
    && (|peiwans| == 0 ==> id == 1)
    && (|peiwans| != 0 ==> id - 1 in peiwans)
    && (forall k :: k in peiwans ==> k < id)
  }

  /** The aggregate over the ids, one at a time: the largest, or 0 when there is none. */
  method Largest(ids: set<int>) returns (largest: int)
    ensures ids == {} ==> largest == 0
    ensures ids != {} ==> largest in ids
    ensures forall k :: k in ids ==> k <= largest
  {
    largest := 0;
    var seen: set<int> := {};
    var todo := ids;
    while true
      invariant forall k :: k in ids <==> k in seen || k in todo
      invariant seen == {} ==> largest == 0
      invariant seen != {} ==> largest in seen
      invariant forall k :: k in seen ==> k <= largest
      decreases |todo|
    {
      if id :| id in todo {
        if seen == {} || id > largest {
          largest := id;
        }
        seen := seen + {id};
        todo := todo - {id};
      } else {
        break;
      }
    }
    assert forall k :: k in seen <==> k in ids;
    assert seen == ids;
  }

  /** `(_max.PEIWANID ?? 0) + 1` */
  method NextAutoId(peiwans: map<int, Peiwan>) returns (id: int)
    ensures AutoId(peiwans, id)
  {
    var largest := Largest(peiwans.Keys);
    if peiwans.Keys == {} {
      assert |peiwans| == 0;
    }
    id := largest + 1;
  }

  /** At most one id is the next automatic one. */
  lemma AutoIdUnique(peiwans: map<int, Peiwan>, a: int, b: int)
    requires AutoId(peiwans, a) && AutoId(peiwans, b)
    ensures a == b
  {
    if |peiwans| != 0 {
      assert a - 1 < b && b - 1 < a;
    }
  }

  predicate OwnsProfile(peiwans: map<int, Peiwan>, owner: string) {
    exists k :: k in peiwans && peiwans[k].discordUserId == owner
  }

  /** The checks before anything is written; a body that is not JSON is `None`. */
  function Screen(session: Option<Session.Snapshot>, admins: seq<string>, body: Option<JsValue>, peiwans: map<int, Peiwan>):
    (r: Result<Payload, Outcome>)
    ensures r == Err(Forbidden) <==> AdminSession(session, admins).None?
    ensures r == Err(InvalidJson) <==> AdminSession(session, admins).Some? && body.None?
    ensures r.Err? && r.error.Rejected? <==>
              AdminSession(session, admins).Some? && body.Some? && Normalize(body.value, ADMIN_OPTIONS).Err?
    ensures r.Err? && r.error.Rejected? ==> r.error.message == Normalize(body.value, ADMIN_OPTIONS).error
    ensures r == Err(Conflict(ERR_OWNER_TAKEN)) <==>
              AdminSession(session, admins).Some? && body.Some? && Normalize(body.value, ADMIN_OPTIONS).Ok?
              && OwnsProfile(peiwans, Normalize(body.value, ADMIN_OPTIONS).value.discordUserId)
    ensures r.Ok? ==>
              && AdminSession(session, admins).Some? && body.Some? && Normalize(body.value, ADMIN_OPTIONS) == Ok(r.value)
              && r.value.discordUserId != []
              && !OwnsProfile(peiwans, r.value.discordUserId)
              && (r.value.peiwanId.Some? ==> r.value.peiwanId.value > 0 && r.value.peiwanId.value !in peiwans)
    ensures r == Err(Conflict(ERR_ID_TAKEN)) <==>
              && AdminSession(session, admins).Some? && body.Some? && Normalize(body.value, ADMIN_OPTIONS).Ok?
              && !OwnsProfile(peiwans, Normalize(body.value, ADMIN_OPTIONS).value.discordUserId)
              && Normalize(body.value, ADMIN_OPTIONS).value.peiwanId.Some?
              && Normalize(body.value, ADMIN_OPTIONS).value.peiwanId.value in peiwans
    ensures r.Ok? <==>
              && AdminSession(session, admins).Some? && body.Some? && Normalize(body.value, ADMIN_OPTIONS).Ok?
              && !OwnsProfile(peiwans, Normalize(body.value, ADMIN_OPTIONS).value.discordUserId)
              && !(Normalize(body.value, ADMIN_OPTIONS).value.peiwanId.Some?
                   && Normalize(body.value, ADMIN_OPTIONS).value.peiwanId.value in peiwans)
  {
    if AdminSession(session, admins).None? then Err(Forbidden)
    else if body.None? then Err(InvalidJson)
    else match Normalize(body.value, ADMIN_OPTIONS)
      case Err(e) => Err(Rejected(e))
      case Ok(p) =>
        if OwnsProfile(peiwans, p.discordUserId) then Err(Conflict(ERR_OWNER_TAKEN))
        else if p.peiwanId.Some? && p.peiwanId.value in peiwans then Err(Conflict(ERR_ID_TAKEN))
        else Ok(p)
  }

  /** The member row after `member.upsert` with status `PEIWAN`. */
  function Upserted(members: map<string, Member>, id: string): (m: Member)
    requires id in members ==> members[id].discordUserId == id
    ensures m.discordUserId == id && m.status == Some(MEMBER_PEIWAN)
  {
    (if id in members then members[id] else NewMember(id)).(status := Some(MEMBER_PEIWAN))
  }

  /** The member row after the upsert and the registration. */
  function Enrolled(members: map<string, Member>, id: string): (m: Member)
    requires id in members ==> members[id].discordUserId == id
    ensures m.discordUserId == id && m.status == Some(MEMBER_PEIWAN)
    ensures OptOutText(m.vipRoleOptOut) == Some("true") || OptOutText(m.vipRoleOptOut) == Some("false")
  {
    Registered(members[id := Upserted(members, id)], id)
  }

  /** The new row: the id, the owner, and the columns of the form. */
  function NewProfile(id: int, p: Payload): (row: Peiwan)
    ensures row.id == id && row.discordUserId == p.discordUserId && row.defaultQuotationCode == p.defaultQuotationCode
    ensures row.cells == DataObject(p)
  {
    Peiwan(id, p.discordUserId, p.defaultQuotationCode, None, DataObject(p))
  }

  /** `POST`. The writes are separate calls, as in the source, and none of them can fail
      once the checks have passed. */
  method CreatePeiwan(db: Db, session: Option<Session.Snapshot>, admins: seq<string>, body: Option<JsValue>)
    returns (outcome: Outcome)
    requires db.Valid()
    modifies db
    ensures db.Valid()
    ensures Screen(session, admins, body, old(db.peiwans)).Err? ==>
              outcome == Screen(session, admins, body, old(db.peiwans)).error && Untouched(db)
    ensures Screen(session, admins, body, old(db.peiwans)).Ok? ==>
              var p := Screen(session, admins, body, old(db.peiwans)).value;
              && outcome.Created?
              && var id := outcome.peiwanId;
              && (p.peiwanId.Some? ==> id == p.peiwanId.value)
              && (p.peiwanId.None? ==> AutoId(old(db.peiwans), id))
              && id !in old(db.peiwans)
              && db.peiwans == old(db.peiwans)[id := NewProfile(id, p)]
              && db.members == old(db.members)[p.discordUserId := Enrolled(old(db.members), p.discordUserId)]
              && db.orders == old(db.orders) && db.coupons == old(db.coupons) && db.draws == old(db.draws)
              && db.payOrders == old(db.payOrders) && db.referrals == old(db.referrals)
              && db.ledger == old(db.ledger) && db.recharges == old(db.recharges) && db.withdrawals == old(db.withdrawals)
  {
    var screened := Screen(session, admins, body, db.peiwans);
    if screened.Err? {
      return screened.error;
    }
    var p := screened.value;
    var normalized := NormalizePeiwanPayload(body.value, ADMIN_OPTIONS);
    assert normalized == Ok(p);
    var id;
    if p.peiwanId.Some? {
      id := p.peiwanId.value;
    } else {
      id := NextAutoId(db.peiwans);
    }
    Enrol(db, p, id);
    outcome := Created(id);
  }

  /** The three writes after the checks: the member upsert, the new profile, and the
      registration, which finds the profile just written. */
  method Enrol(db: Db, p: Payload, id: int)
    requires db.Valid()
    requires !OwnsProfile(db.peiwans, p.discordUserId) && id !in db.peiwans
    modifies db
    ensures db.Valid()
    ensures db.peiwans == old(db.peiwans)[id := NewProfile(id, p)]
    ensures db.members == old(db.members)[p.discordUserId := Enrolled(old(db.members), p.discordUserId)]
    ensures db.orders == old(db.orders) && db.coupons == old(db.coupons) && db.draws == old(db.draws)
    ensures db.payOrders == old(db.payOrders) && db.referrals == old(db.referrals)
    ensures db.ledger == old(db.ledger) && db.recharges == old(db.recharges) && db.withdrawals == old(db.withdrawals)
  {
    var owner := p.discordUserId;
    ghost var before := db.members;
    db.PutMember(Upserted(db.members, owner));
    ghost var upserted := db.members;
    assert upserted == before[owner := Upserted(before, owner)];
    var cells := BuildPeiwanDataObject(p);
    db.PutPeiwan(Peiwan(id, owner, p.defaultQuotationCode, None, cells));
    assert db.peiwans[id].discordUserId == owner;
    var registered := RegisterPeiwanProfile(db, owner);
    assert registered.Ok?;
    assert db.members == upserted[owner := Registered(upserted, owner)];
    assert Registered(upserted, owner) == Enrolled(before, owner);
    UpdateTwice(before, owner, Upserted(before, owner), Enrolled(before, owner));
  }

  /** A second write to a key replaces the first. */
  lemma UpdateTwice(m: map<string, Member>, k: string, a: Member, b: Member)
    ensures m[k := a][k := b] == m[k := b]
  {
    var twice, once := m[k := a][k := b], m[k := b];
    assert forall x :: x in twice <==> x in once;
    assert forall x :: x in once ==> twice[x] == once[x];
  }

  /** The same form sent twice creates one profile: the second time its member already
      owns the profile the first one wrote, and the answer is 409. */
  lemma SecondCreateConflicts(session: Option<Session.Snapshot>, admins: seq<string>, body: Option<JsValue>,
                              peiwans: map<int, Peiwan>, id: int)
    requires Screen(session, admins, body, peiwans).Ok?
    ensures var p := Screen(session, admins, body, peiwans).value;
            Screen(session, admins, body, peiwans[id := NewProfile(id, p)]) == Err(Conflict(ERR_OWNER_TAKEN))
  {
    var p := Screen(session, admins, body, peiwans).value;
    var after := peiwans[id := NewProfile(id, p)];
    assert after[id].discordUserId == p.discordUserId;
    assert OwnsProfile(after, p.discordUserId);
  }
}
