/** The Discord OAuth callback (`app/api/auth/callback/discord/route.ts`): the `state`
    parameter is parsed, checked against the state cookie when there is one, and on
    success the member is signed in and sent to the page they came from. The token
    exchange and the user lookup at Discord are a parameter: the user they yield, or
    `None` when either fails. */
module DiscordCallback {
  import opened Wrappers
  import opened Text
  import opened Session

  const CSRF_PREFIX := "csrf:"
  const NEXT_PREFIX := "next:"
  const ERROR_ACCESS_DENIED := "access_denied"
  const ERROR_MISSING_CODE := "missing_code"
  const ERROR_INVALID_STATE := "invalid_state"
  const ERROR_DISCORD_OAUTH := "discord_oauth"

  /** `ParsedState`: both fields optional. */
  datatype ParsedState = ParsedState(csrf: Option<string>, next: Option<string>)

  const NO_STATE := ParsedState(None, None)

  /** A segment that sets `next`: a `next:` segment or a path, unless it is a `csrf:`
      segment. */
  predicate SetsNext(segment: string) {
    !StartsWith(segment, CSRF_PREFIX) && (StartsWith(segment, NEXT_PREFIX) || StartsWith(segment, "/"))
  }

  /** The value a `next`-setting segment gives. */
  function NextValue(segment: string): string
    requires SetsNext(segment)
  {
    if StartsWith(segment, NEXT_PREFIX) then segment[|NEXT_PREFIX|..] else segment
  }

  /** One turn of the loop over the segments. */
  function ApplySegment(data: ParsedState, segment: string): ParsedState {
    if StartsWith(segment, CSRF_PREFIX) then data.(csrf := Some(segment[|CSRF_PREFIX|..]))
    else if StartsWith(segment, NEXT_PREFIX) then data.(next := Some(segment[|NEXT_PREFIX|..]))
    else if StartsWith(segment, "/") then data.(next := Some(segment))
    else data
  }

  /** The state after the loop has seen `segments`, in order. */
  function StateOf(segments: seq<string>): ParsedState
    decreases |segments|
  {
    if segments == [] then NO_STATE
    else ApplySegment(StateOf(segments[..|segments| - 1]), segments[|segments| - 1])
  }

  /** What `parseStateParam` returns. */
  function ParseState(value: Option<string>): ParsedState {
    if value.None? || value.value == [] then NO_STATE else StateOf(Split(value.value, '|'))
  }

  /** `parseStateParam`: split on `|` and let each segment set its field, later segments
      overriding earlier ones. */
  method ParseStateParam(value: Option<string>) returns (data: ParsedState)
    ensures data == ParseState(value)
  {
    data := NO_STATE;
    if value.None? || value.value == [] {
      return;
    }
    var segments := Split(value.value, '|');
    for i := 0 to |segments|
      invariant data == StateOf(segments[..i])
    {
      var segment := segments[i];
      assert segments[..i + 1][..i] == segments[..i];
      if StartsWith(segment, CSRF_PREFIX) {
        data := data.(csrf := Some(segment[|CSRF_PREFIX|..]));
      } else if StartsWith(segment, NEXT_PREFIX) {
        data := data.(next := Some(segment[|NEXT_PREFIX|..]));
      } else if StartsWith(segment, "/") {
        data := data.(next := Some(segment));
      }
    }
    assert segments[..|segments|] == segments;
  }

  /** Without a `csrf:` segment there is no `csrf`. */
  lemma {:induction false} NoCsrfSegment(segments: seq<string>)
    requires forall j :: 0 <= j < |segments| ==> !StartsWith(segments[j], CSRF_PREFIX)
    ensures StateOf(segments).csrf.None?
    decreases |segments|
  {
    if segments != [] {
      NoCsrfSegment(segments[..|segments| - 1]);
    }
  }

  /** The last `csrf:` segment sets `csrf`, whatever comes before or after it. */
  lemma {:induction false} LastCsrfWins(segments: seq<string>, i: nat)
    requires i < |segments| && StartsWith(segments[i], CSRF_PREFIX)
    requires forall j :: i < j < |segments| ==> !StartsWith(segments[j], CSRF_PREFIX)
    ensures StateOf(segments).csrf == Some(segments[i][|CSRF_PREFIX|..])
    decreases |segments|
  {
    if i < |segments| - 1 {
      var init := segments[..|segments| - 1];
      assert init[i] == segments[i];
      LastCsrfWins(init, i);
    }
  }

  /** Without a segment that sets `next` there is no `next`. */
  lemma {:induction false} NoNextSegment(segments: seq<string>)
    requires forall j :: 0 <= j < |segments| ==> !SetsNext(segments[j])
    ensures StateOf(segments).next.None?
    decreases |segments|
  {
    if segments != [] {
      NoNextSegment(segments[..|segments| - 1]);
    }
  }

  /** The last segment that sets `next` decides it. */
  lemma {:induction false} LastNextWins(segments: seq<string>, i: nat)
    requires i < |segments| && SetsNext(segments[i])
    requires forall j :: i < j < |segments| ==> !SetsNext(segments[j])
    ensures StateOf(segments).next == Some(NextValue(segments[i]))
    decreases |segments|
  {
    if i < |segments| - 1 {
      var init := segments[..|segments| - 1];
      assert init[i] == segments[i];
      LastNextWins(init, i);
    }
  }

  /** Round trip with the login route: the state `csrf:<value>` it sends parses back to
      that value and no redirect target. */
  lemma LoginStateRoundTrip(value: string)
    requires '|' !in value
    ensures ParseState(Some(CSRF_PREFIX + value)) == ParsedState(Some(value), None)
  {
    var s := CSRF_PREFIX + value;
    assert '|' !in s by {
      assert forall i :: 0 <= i < |s| ==> s[i] == if i < 5 then CSRF_PREFIX[i] else value[i - 5];
    }
    assert Split(s, '|') == [s];
    assert StateOf([s]) == ApplySegment(NO_STATE, s) by {
      assert [s][..0] == [];
    }
    assert s[|CSRF_PREFIX|..] == value;
  }

  /** The user Discord returns. */
  datatype DiscordUser = DiscordUser(id: string, username: string, globalName: Option<string>,
                                     discriminator: Option<string>, avatar: Option<string>)

  /** The query parameters the callback reads. */
  datatype Query = Query(error: Option<string>, errorDescription: Option<string>, code: Option<string>, state: Option<string>)

  /** How the callback ends: a redirect to the login page with an error code, or a signed-in
      redirect to a target. */
  datatype Exit = ErrorExit(code: string) | SignIn(target: string, session: Snapshot)

  /** The session of a Discord user: the display name when there is one, no discriminator
      for the new-style `"0"`. */
  function SessionFor(u: DiscordUser): (s: Snapshot)
    ensures s.discordId == u.id && s.avatar == u.avatar
    ensures u.globalName.Some? ==> s.username == u.globalName.value
    ensures u.globalName.None? ==> s.username == u.username
    ensures s.discriminator.Some? <==> u.discriminator.Some? && u.discriminator.value != [] && u.discriminator.value != "0"
    ensures s.discriminator.Some? ==> s.discriminator == u.discriminator
  {
    var discriminator := if u.discriminator.Some? && u.discriminator.value != [] && u.discriminator.value != "0"
                         then u.discriminator else None;
    Snapshot(u.id, u.globalName.GetOr(u.username), discriminator, u.avatar)
  }

  /** The CSRF check: only when the state cookie is set, and then the state's `csrf` must
      be equal to it. */
  predicate StateAccepted(state: ParsedState, stateCookie: Option<string>) {
    stateCookie.None? || stateCookie.value == [] || state.csrf == stateCookie
  }

  /** The redirect target: the redirect cookie when present (even when empty), else the
      state's `next`, normalised with `/profile` as the fallback. */
  function RedirectTarget(redirectCookie: Option<string>, state: ParsedState): (t: string)
    ensures StartsWith(t, "/")
    ensures redirectCookie.Some? && StartsWith(redirectCookie.value, "/") ==> t == redirectCookie.value
    ensures redirectCookie.None? && state.next.Some? && StartsWith(state.next.value, "/") ==> t == state.next.value
    ensures redirectCookie.Some? && !StartsWith(redirectCookie.value, "/") ==> t == DEFAULT_REDIRECT
  {
    NormalizeRedirectTargetStable(if redirectCookie.Some? then redirectCookie else state.next, DEFAULT_REDIRECT);
    NormalizeRedirectTarget(if redirectCookie.Some? then redirectCookie else state.next, DEFAULT_REDIRECT)
  }

  /** The checks of `GET` in order, before the response is built. `resolves` says whether
      `new URL(target, origin)` accepts a target; a path such as `//[` passes the
      normalisation but makes that constructor throw, and the `catch` answers `discord_oauth`. */
  function Decide(query: Query, stateCookie: Option<string>, redirectCookie: Option<string>,
                  discord: Option<DiscordUser>, resolves: string -> bool): (e: Exit)
    ensures query.error.Some? && query.error.value != [] ==>
              e == ErrorExit(query.errorDescription.GetOr(ERROR_ACCESS_DENIED))
    ensures e == ErrorExit(ERROR_MISSING_CODE) && query.errorDescription != Some(ERROR_MISSING_CODE) ==>
              query.code.None? || query.code.value == []
    ensures e.SignIn? <==>
              (query.error.None? || query.error.value == []) && query.code.Some? && query.code.value != []
              && StateAccepted(ParseState(query.state), stateCookie) && discord.Some?
              && resolves(RedirectTarget(redirectCookie, ParseState(query.state)))
    ensures e.SignIn? ==>
              e.session == SessionFor(discord.value) && e.target == RedirectTarget(redirectCookie, ParseState(query.state))
    ensures (query.error.None? || query.error.value == []) && (query.code.None? || query.code.value == []) ==>
              e == ErrorExit(ERROR_MISSING_CODE)
    ensures ((query.error.None? || query.error.value == []) && query.code.Some? && query.code.value != []
             && !StateAccepted(ParseState(query.state), stateCookie)) ==> e == ErrorExit(ERROR_INVALID_STATE)
    ensures ((query.error.None? || query.error.value == []) && query.code.Some? && query.code.value != []
             && StateAccepted(ParseState(query.state), stateCookie)
             && (discord.None? || !resolves(RedirectTarget(redirectCookie, ParseState(query.state)))))
            ==> e == ErrorExit(ERROR_DISCORD_OAUTH)
    ensures e.ErrorExit? ==>
              e.code in {ERROR_MISSING_CODE, ERROR_INVALID_STATE, ERROR_DISCORD_OAUTH}
              || (query.error.Some? && query.error.value != [] && e.code == query.errorDescription.GetOr(ERROR_ACCESS_DENIED))
  {
    if query.error.Some? && query.error.value != [] then ErrorExit(query.errorDescription.GetOr(ERROR_ACCESS_DENIED))
    else if query.code.None? || query.code.value == [] then ErrorExit(ERROR_MISSING_CODE)
    else
      var state := ParseState(query.state);
      if !StateAccepted(state, stateCookie) then ErrorExit(ERROR_INVALID_STATE)
      else if discord.None? then ErrorExit(ERROR_DISCORD_OAUTH)
      else
        var target := RedirectTarget(redirectCookie, state);
        if !resolves(target) then ErrorExit(ERROR_DISCORD_OAUTH)
        else SignIn(target, SessionFor(discord.value))
  }

  /** A login that went through the login route, which sent `csrf:<value>` and set the
      state cookie to `<value>`, passes the CSRF check and lands on the page the redirect
      cookie names, provided that page resolves against the origin. */
  lemma LoginCompletes(value: string, code: string, redirectCookie: Option<string>, user: DiscordUser,
                       resolves: string -> bool)
    requires '|' !in value && value != [] && code != []
    requires resolves(RedirectTarget(redirectCookie, ParsedState(Some(value), None)))
    ensures Decide(Query(None, None, Some(code), Some(CSRF_PREFIX + value)), Some(value), redirectCookie, Some(user), resolves)
              == SignIn(RedirectTarget(redirectCookie, ParsedState(Some(value), None)), SessionFor(user))
  {
    LoginStateRoundTrip(value);
  }

  /** The same login, when the redirect cookie names a path that `new URL` rejects, ends in
      `discord_oauth` and signs nobody in. */
  lemma UnresolvableTargetFails(value: string, code: string, redirectCookie: Option<string>, user: DiscordUser,
                                resolves: string -> bool)
    requires '|' !in value && value != [] && code != []
    requires !resolves(RedirectTarget(redirectCookie, ParsedState(Some(value), None)))
    ensures Decide(Query(None, None, Some(code), Some(CSRF_PREFIX + value)), Some(value), redirectCookie, Some(user), resolves)
              == ErrorExit(ERROR_DISCORD_OAUTH)
  {
    LoginStateRoundTrip(value);
  }

  /** `GET`: the response with its cookies. Every exit clears both login cookies; only a
      successful sign-in sets the session cookie, and a missing session secret turns it
      into the `discord_oauth` error. */
  method HandleCallback(query: Query, cookies: map<string, string>, discord: Option<DiscordUser>,
                        resolves: string -> bool, c: Codec, secret: Option<string>, now: int)
    returns (response: Response, exit: Exit)
    ensures fresh(response)
    ensures var d := Decide(query, CookieValue(cookies, LOGIN_STATE_COOKIE), CookieValue(cookies, LOGIN_REDIRECT_COOKIE), discord, resolves);
            exit == (if d.SignIn? && secret.None? then ErrorExit(ERROR_DISCORD_OAUTH) else d)
    ensures LOGIN_REDIRECT_COOKIE in response.cookies && response.cookies[LOGIN_REDIRECT_COOKIE] == CLEARED
    ensures LOGIN_STATE_COOKIE in response.cookies && response.cookies[LOGIN_STATE_COOKIE] == CLEARED
    ensures exit.SignIn? ==>
              SESSION_COOKIE_NAME in response.cookies
              && response.cookies[SESSION_COOKIE_NAME].value
                 == EncodeToken(Payload(exit.session, now, now + SESSION_TTL_MS), c, secret.value)
    ensures exit.ErrorExit? ==> SESSION_COOKIE_NAME !in response.cookies
  {
    response := new Response();
    exit := Decide(query, CookieValue(cookies, LOGIN_STATE_COOKIE), CookieValue(cookies, LOGIN_REDIRECT_COOKIE), discord, resolves);
    if exit.SignIn? {
      var attached := response.AttachSession(exit.session, now, c, secret);
      if !attached {
        exit := ErrorExit(ERROR_DISCORD_OAUTH);
      }
    }
    response.ClearLoginRedirect();
    response.ClearLoginState();
  }
}
