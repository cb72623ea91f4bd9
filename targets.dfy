/** Resolving the member a redemption is aimed at, as both `app/api/lottery/use/route.ts`
    and `app/api/voucher/use/route.ts` do it (each file has its own identical
    `resolveTargetDiscordId`): the trimmed text is tried as a member id first, then, when
    it is a positive integer, as the number of a listing profile. */
module Targets {
  import opened Wrappers
  import opened Text
  import opened Money
  import opened Js
  import opened Store

  /** `Number(text)` when `Number.isInteger` holds of it and it is positive. */
  function PositiveInteger(text: string): (r: Option<nat>)
    ensures r.Some? ==> r.value > 0 && StringToNumber(text) == Finite(r.value as real)
    ensures r.None? ==> !(IsInteger(StringToNumber(text)) && StringToNumber(text).value > 0.0)
  {
    var n := StringToNumber(text);
    if IsInteger(n) && n.value > 0.0 then Some(n.value.Floor) else None
  }

  /** A positive number written in decimal is recognised as that number. */
  lemma PositiveIntegerDigits(n: nat)
    requires n > 0
    ensures PositiveInteger(NatToDigits(n)) == Some(n)
  {
    StringToNumberDigits(n);
  }

  /** "0x10" names the positive integer sixteen, as `Number` reads it. */
  lemma PositiveIntegerHex()
    ensures PositiveInteger("0x10") == Some(16)
  {
    StringToNumberHex();
  }

  /** `resolveTargetDiscordId(raw)` over the member and listing-profile tables. */
  function ResolveTarget(members: map<string, Member>, peiwans: map<int, Peiwan>, raw: string): (r: Option<string>)
    ensures Trim(raw) == [] ==> r.None?
    ensures Trim(raw) != [] && Trim(raw) in members ==> r == Some(members[Trim(raw)].discordUserId)
    ensures Trim(raw) != [] && Trim(raw) !in members ==>
              var n := PositiveInteger(Trim(raw));
              && (r.Some? <==> n.Some? && n.value in peiwans && peiwans[n.value].discordUserId != [])
              && (r.Some? ==> r.value == peiwans[n.value].discordUserId)
  {
    var t := Trim(raw);
    if t == [] then None
    else if t in members then Some(members[t].discordUserId)
    else match PositiveInteger(t)
      case Some(n) => if n in peiwans && peiwans[n].discordUserId != [] then Some(peiwans[n].discordUserId) else None
      case None => None
  }

  /** A member's own id, typed with or without surrounding blanks, resolves to that
      member, even when it also reads as a profile number. */
  lemma ResolveMemberId(members: map<string, Member>, peiwans: map<int, Peiwan>, id: string, typed: string)
    requires forall k :: k in members ==> members[k].discordUserId == k
    requires id in members && id != [] && Trim(typed) == id
    ensures ResolveTarget(members, peiwans, typed) == Some(id)
  {
  }

  /** A profile number that is not also a member id resolves to the profile's owner. */
  lemma ResolveProfileNumber(members: map<string, Member>, peiwans: map<int, Peiwan>, n: nat)
    requires n > 0 && n in peiwans && peiwans[n].discordUserId != []
    requires NatToDigits(n) !in members
    ensures ResolveTarget(members, peiwans, NatToDigits(n)) == Some(peiwans[n].discordUserId)
  {
    DigitsTrim(NatToDigits(n));
    PositiveIntegerDigits(n);
  }
}
