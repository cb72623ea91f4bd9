/** The administrator allow-list (`lib/admin.ts`): the comma-separated ids of
    `ADMIN_DISCORD_IDS`, trimmed, without the empty ones; a caller is an administrator
    when its id is one of them exactly. */
module Admin {
  import opened Wrappers
  import opened Text
  import opened Session

  /** `id` is the trim of one of the pieces, and not empty. */
  predicate Listed(parts: seq<string>, id: string) {
    id != [] && exists p :: p in parts && Trim(p) == id
  }

  /** `.map(trim).filter(Boolean)` over the pieces of the setting. */
  function TrimmedNonEmpty(parts: seq<string>): (ids: seq<string>)
    ensures |ids| <= |parts|
    ensures forall id :: id in ids <==> Listed(parts, id)
  {
    if parts == [] then []
    else
      var rest := TrimmedNonEmpty(parts[1..]);
      ListedCons(parts);
      if Trim(parts[0]) == [] then rest else [Trim(parts[0])] + rest
  }

  lemma ListedCons(parts: seq<string>)
    requires parts != []
    ensures forall id :: Listed(parts, id) <==> (id != [] && id == Trim(parts[0])) || Listed(parts[1..], id)
  {
    assert forall p :: p in parts <==> p == parts[0] || p in parts[1..];
  }

  /** The allow-list; an unset setting reads as `''`. */
  function AdminIds(setting: Option<string>): (ids: seq<string>)
    ensures forall id :: id in ids ==> id != [] && NoSpaceAtEnds(id) && ',' !in id
  {
    var parts := Split(setting.GetOr(""), ',');
    var ids := TrimmedNonEmpty(parts);
    forall id | id in ids
      ensures ',' !in id
    {
      ListedHasNoComma(parts, id);
    }
    ids
  }

  lemma ListedHasNoComma(parts: seq<string>, id: string)
    requires forall i :: 0 <= i < |parts| ==> ',' !in parts[i]
    requires Listed(parts, id)
    ensures ',' !in id
  {
    var p :| p in parts && Trim(p) == id;
    TrimWithin(p);
  }

  /** The trim of a string holds only characters of the string. */
  lemma TrimWithin(s: string)
    ensures forall c :: c in Trim(s) ==> c in s
  {
    var t := Trim(s);
    var k := |s| - |TrimStart(s)|;
    assert t == s[k..k + |t|];
    forall i | 0 <= i < |t|
      ensures t[i] in s
    {
      assert t[i] == s[k + i];
    }
  }

  /** `isAdminDiscordId`: a missing or empty id is refused before the list is consulted, so
      an empty entry on the list admits nobody. */
  predicate IsAdminDiscordId(admins: seq<string>, id: Option<string>)
    ensures id.None? || id.value == [] ==> !IsAdminDiscordId(admins, id)
    ensures id.Some? && id.value != [] ==> (IsAdminDiscordId(admins, id) <==> exists i :: 0 <= i < |admins| && admins[i] == id.value)
  {
    id.Some? && id.value != [] && id.value in admins
  }

  /** Without the setting nobody is an administrator. */
  lemma NoAdminsWhenUnset(id: Option<string>)
    ensures !IsAdminDiscordId(AdminIds(None), id)
  {
    assert Split("", ',') == [""];
  }

  /** An id is an administrator exactly when it is one of the listed pieces after
      trimming; an id with white space at an end or a comma never is. */
  lemma AdminExactly(setting: string, id: string)
    ensures IsAdminDiscordId(AdminIds(Some(setting)), Some(id)) <==>
              Listed(Split(setting, ','), id)
    ensures !NoSpaceAtEnds(id) || ',' in id ==> !IsAdminDiscordId(AdminIds(Some(setting)), Some(id))
  {
    assert Some(setting).GetOr("") == setting;
  }

  /** `ensureAdminSession`: a session with an id on the list. */
  function AdminSession(session: Option<Snapshot>, admins: seq<string>): (r: Option<Snapshot>)
    ensures r.Some? <==> session.Some? && session.value.discordId != [] && session.value.discordId in admins
    ensures r.Some? ==> r == session
  {
    if session.Some? && IsAdminDiscordId(admins, Some(session.value.discordId)) then session else None
  }
}
