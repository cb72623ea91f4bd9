/** The administrators' referral table (`app/api/admin/referrals/route.ts`): listing the
    referrals that match optional filters, and recording who invited whom, at most one
    inviter per invitee. */
module Referrals {
  import opened Wrappers
  import opened Text
  import opened Js
  import opened Store
  import opened Session
  import opened Admin

  /** The values of the `ReferralType` enumeration. */
  const REFERRAL_TYPES: seq<string> := ["LAOBAN", "PEIWAN"]
  const LIST_LIMIT: nat := 100

  /** `normalizeId` on a query parameter, which is a string or absent. */
  function NormalizeParam(value: Option<string>): (id: string)
    ensures value.None? ==> id == []
    ensures value.Some? ==> id == Trim(value.value)
  {
    if value.Some? then Trim(value.value) else ""
  }

  /** `normalizeId` on a body field: `value?.trim() ?? ''`. A field that is neither a
      string nor nullish has no `trim`, and the call throws (`None`). */
  function NormalizeField(value: JsValue): (id: Option<string>)
    ensures id.None? <==> !value.Str? && !IsNullish(value)
    ensures value.Str? ==> id == Some(Trim(value.s))
    ensures IsNullish(value) ==> id == Some([])
  {
    if value.Str? then Some(Trim(value.s)) else if IsNullish(value) then Some([]) else None
  }

  /** `parseReferralType` on a string: trimmed and upper-cased, then one of the types. */
  function ParseTypeText(value: Option<string>): (t: Option<string>)
    ensures t.Some? ==> t.value in REFERRAL_TYPES
    ensures t.Some? <==> value.Some? && value.value != [] && ToUpper(Trim(value.value)) in REFERRAL_TYPES
    ensures t.Some? ==> t.value == ToUpper(Trim(value.value))
  {
    if value.None? || value.value == [] then None
    else
      var upper := ToUpper(Trim(value.value));
      if upper in REFERRAL_TYPES then Some(upper) else None
  }

  /** The dotless `ı` upper-cases to `I`, so "peıwan" names the PEIWAN type. */
  lemma ParseTypeDotlessI(text: string)
    requires text == "pe\U{131}wan"
    ensures ParseTypeText(Some(text)) == Some("PEIWAN")
  {
    TrimPlain(text);
    DotlessIUpper(text, "pe", "wan");
  }

  /** The outcome of `parseReferralType` on a body field: a falsy field is `null`, any
      other non-string throws at `trim`. */
  datatype TypeField = NoType | Type(name: string) | TypeThrows

  function ParseTypeField(value: JsValue): (t: TypeField)
    ensures t.Type? ==> t.name in REFERRAL_TYPES && value.Str?
    ensures t.TypeThrows? <==> Truthy(value) && !value.Str?
  {
    if !Truthy(value) then NoType
    else if value.Str? then
      match ParseTypeText(Some(value.s))
      case Some(name) => Type(name)
      case None => NoType
    else TypeThrows
  }

  /** The `where` clause of the listing: each filter only when given. */
  datatype Filter = Filter(inviteeId: Option<string>, inviterId: Option<string>, referralType: Option<string>)

  function FilterOf(inviteeId: Option<string>, inviterId: Option<string>, referralType: Option<string>): (f: Filter)
    ensures f.inviteeId.Some? <==> NormalizeParam(inviteeId) != []
    ensures f.inviterId.Some? <==> NormalizeParam(inviterId) != []
    ensures f.referralType == ParseTypeText(referralType)
  {
    var invitee := NormalizeParam(inviteeId);
    var inviter := NormalizeParam(inviterId);
    Filter(if invitee != [] then Some(invitee) else None, if inviter != [] then Some(inviter) else None,
           ParseTypeText(referralType))
  }

  predicate Matches(f: Filter, r: Referral) {
    && (f.inviteeId.Some? ==> r.inviteeId == f.inviteeId.value)
    && (f.inviterId.Some? ==> r.inviterId == f.inviterId.value)
    && (f.referralType.Some? ==> r.referralType == f.referralType.value)
  }

  function Select(rows: seq<Referral>, f: Filter): (r: seq<Referral>)
    ensures |r| <= |rows|
    ensures forall x :: x in r <==> x in rows && Matches(f, x)
  {
    if rows == [] then []
    else (if Matches(f, rows[0]) then [rows[0]] else []) + Select(rows[1..], f)
  }

  predicate NewestFirst(rows: seq<Referral>) {
    forall i, j :: 0 <= i < j < |rows| ==> rows[i].createdAt >= rows[j].createdAt
  }

  /** The selection keeps the order of the rows. */
  lemma {:induction false} SelectKeepsOrder(rows: seq<Referral>, f: Filter)
    requires NewestFirst(rows)
    ensures NewestFirst(Select(rows, f))
  {
    if rows != [] {
      SelectKeepsOrder(rows[1..], f);
      var rest := Select(rows[1..], f);
      forall x | x in rest
        ensures rows[0].createdAt >= x.createdAt
      {
        var j :| 0 <= j < |rows[1..]| && rows[1..][j] == x;
        assert rows[j + 1] == x;
      }
    }
  }

  datatype Listing = Forbidden | Listed(referrals: seq<Referral>, total: nat)

  /** `GET`. `rows` is the whole table, newest first, as the database orders it. */
  function ListReferrals(session: Option<Snapshot>, admins: seq<string>, rows: seq<Referral>,
                         inviteeId: Option<string>, inviterId: Option<string>, referralType: Option<string>): (r: Listing)
    requires NewestFirst(rows)
    ensures r.Forbidden? <==> AdminSession(session, admins).None?
    ensures r.Listed? ==>
              var f := FilterOf(inviteeId, inviterId, referralType);
              && r.total == |Select(rows, f)|
              && |r.referrals| == (if r.total < LIST_LIMIT then r.total else LIST_LIMIT)
              && r.referrals == Select(rows, f)[..|r.referrals|]
  {
    if AdminSession(session, admins).None? then Forbidden
    else
      var matching := Select(rows, FilterOf(inviteeId, inviterId, referralType));
      Listed(if |matching| <= LIST_LIMIT then matching else matching[..LIST_LIMIT], |matching|)
  }

  /** Every listed referral matches every filter given, and the listing is newest
      first. */
  lemma ListedMatch(session: Option<Snapshot>, admins: seq<string>, rows: seq<Referral>,
                    inviteeId: Option<string>, inviterId: Option<string>, referralType: Option<string>)
    requires NewestFirst(rows)
    requires AdminSession(session, admins).Some?
    ensures var r := ListReferrals(session, admins, rows, inviteeId, inviterId, referralType);
      && NewestFirst(r.referrals)
      && forall x :: x in r.referrals ==> x in rows && Matches(FilterOf(inviteeId, inviterId, referralType), x)
  {
    var f := FilterOf(inviteeId, inviterId, referralType);
    var all := Select(rows, f);
    var r := ListReferrals(session, admins, rows, inviteeId, inviterId, referralType);
    SelectKeepsOrder(rows, f);
    forall x | x in r.referrals
      ensures x in all
    {
      var i :| 0 <= i < |r.referrals| && r.referrals[i] == x;
      assert all[i] == x;
    }
  }

  datatype Outcome =
    | Forbidden403
    | Crashed
    | MissingFields
    | SelfInvite
    | AlreadyReferred
    | InviteeNotFound
    | InviterNotFound
    | Created(referral: Referral)

  function Status(o: Outcome): (code: int)
    ensures code == 201 <==> o.Created?
    ensures code == 404 <==> o.InviteeNotFound? || o.InviterNotFound?
    ensures code == 409 <==> o.AlreadyReferred?
  {
    match o
    case Forbidden403 => 403
    case Crashed => 500
    case MissingFields => 400
    case SelfInvite => 400
    case AlreadyReferred => 409
    case InviteeNotFound => 404
    case InviterNotFound => 404
    case Created(_) => 201
  }

  /** The three body fields as `POST` reads them. */
  function InviteeField(body: JsValue): Option<string> {
    NormalizeField(Prop(body, "inviteeId"))
  }

  function InviterField(body: JsValue): Option<string> {
    NormalizeField(Prop(body, "inviterId"))
  }

  function TypeFieldOf(body: JsValue): TypeField {
    ParseTypeField(Prop(body, "type"))
  }

  /** An administrator's request whose fields were read without throwing. */
  predicate FieldsRead(session: Option<Snapshot>, admins: seq<string>, body: JsValue) {
    AdminSession(session, admins).Some?
      && InviteeField(body).Some? && InviterField(body).Some? && !TypeFieldOf(body).TypeThrows?
  }

  /** ... and that names both members and a known type. */
  predicate FieldsGiven(session: Option<Snapshot>, admins: seq<string>, body: JsValue) {
    FieldsRead(session, admins, body)
      && InviteeField(body).value != [] && InviterField(body).value != [] && TypeFieldOf(body).Type?
  }

  /** ... and whose two members differ. */
  predicate TwoMembers(session: Option<Snapshot>, admins: seq<string>, body: JsValue) {
    FieldsGiven(session, admins, body) && InviteeField(body).value != InviterField(body).value
  }

  /** What `POST` decides from the tables as they stand; `body` is `null` when the body
      is not JSON. Each outcome holds exactly when the checks before it pass and its own
      check fails, in the order the route makes them. */
  function Decide(session: Option<Snapshot>, admins: seq<string>, body: JsValue, members: map<string, Member>,
                  referrals: map<string, Referral>, now: int): (o: Outcome)
    ensures o == Forbidden403 <==> AdminSession(session, admins).None?
    ensures o == Crashed <==>
              AdminSession(session, admins).Some?
              && (InviteeField(body).None? || InviterField(body).None? || TypeFieldOf(body).TypeThrows?)
    ensures o == MissingFields <==>
              FieldsRead(session, admins, body)
              && (InviteeField(body).value == [] || InviterField(body).value == [] || TypeFieldOf(body).NoType?)
    ensures o == SelfInvite <==>
              FieldsGiven(session, admins, body) && InviteeField(body).value == InviterField(body).value
    ensures o == AlreadyReferred <==>
              TwoMembers(session, admins, body) && InviteeField(body).value in referrals
    ensures o == InviteeNotFound <==>
              TwoMembers(session, admins, body) && InviteeField(body).value !in referrals
              && InviteeField(body).value !in members
    ensures o == InviterNotFound <==>
              TwoMembers(session, admins, body) && InviteeField(body).value !in referrals
              && InviteeField(body).value in members && InviterField(body).value !in members
    ensures o.Created? <==>
              TwoMembers(session, admins, body) && InviteeField(body).value !in referrals
              && InviteeField(body).value in members && InviterField(body).value in members
    ensures o.Created? ==>
              && o.referral == Referral(InviteeField(body).value, InviterField(body).value,
                                        TypeFieldOf(body).name, now)
              && o.referral.inviteeId != [] && o.referral.inviterId != [] && o.referral.inviteeId != o.referral.inviterId
              && o.referral.referralType in REFERRAL_TYPES
              && o.referral.inviteeId !in referrals
              && o.referral.inviteeId in members && o.referral.inviterId in members
              && o.referral.createdAt == now
  {
    if AdminSession(session, admins).None? then Forbidden403
    else
      var invitee := NormalizeField(Prop(body, "inviteeId"));
      var inviter := NormalizeField(Prop(body, "inviterId"));
      var kind := ParseTypeField(Prop(body, "type"));
      if invitee.None? || inviter.None? || kind.TypeThrows? then Crashed
      else if invitee.value == [] || inviter.value == [] || kind.NoType? then MissingFields
      else if invitee.value == inviter.value then SelfInvite
      else if invitee.value in referrals then AlreadyReferred
      else if invitee.value !in members then InviteeNotFound
      else if inviter.value !in members then InviterNotFound
      else Created(Referral(invitee.value, inviter.value, kind.name, now))
  }

  /** `POST`: the referral is inserted when `Decide` creates it, and nothing is written
      otherwise. */
  method CreateReferral(db: Db, session: Option<Snapshot>, admins: seq<string>, body: JsValue, now: int)
    returns (outcome: Outcome)
    requires db.Valid()
    modifies db
    ensures db.Valid()
    ensures outcome == Decide(session, admins, body, old(db.members), old(db.referrals), now)
    ensures outcome.Created? ==> db.referrals == old(db.referrals)[outcome.referral.inviteeId := outcome.referral]
    ensures !outcome.Created? ==> db.referrals == old(db.referrals)
    ensures db.members == old(db.members) && db.peiwans == old(db.peiwans) && db.orders == old(db.orders)
    ensures db.coupons == old(db.coupons) && db.draws == old(db.draws) && db.payOrders == old(db.payOrders)
    ensures db.ledger == old(db.ledger) && db.recharges == old(db.recharges) && db.withdrawals == old(db.withdrawals)
  {
    outcome := Decide(session, admins, body, db.members, db.referrals, now);
    if outcome.Created? {
      db.PutReferral(outcome.referral);
    }
  }

  /** A second referral for the same invitee is refused: after one is created, the same
      request gets 409 and writes nothing. */
  lemma OneReferralPerInvitee(session: Option<Snapshot>, admins: seq<string>, body: JsValue,
                              members: map<string, Member>, referrals: map<string, Referral>, now: int, later: int)
    requires Decide(session, admins, body, members, referrals, now).Created?
    ensures var r := Decide(session, admins, body, members, referrals, now).referral;
            Decide(session, admins, body, members, referrals[r.inviteeId := r], later) == AlreadyReferred
  {
  }
}
