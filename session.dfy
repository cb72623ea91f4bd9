/** The signed session cookie and the login cookies (`lib/session.ts`). A token is the
    base64url text of the JSON payload, a dot, and the base64url HMAC-SHA256 of that text
    under the session secret. JSON, base64url and the HMAC are parameters (`Codec`); the
    model states what the token logic does with them. */
module Session {
  import opened Wrappers
  import opened Text

  const SESSION_COOKIE_NAME := "jinlee_session"
  const LOGIN_REDIRECT_COOKIE := "discord_login_next"
  const LOGIN_STATE_COOKIE := "discord_login_state"
  /** Seven days in milliseconds. */
  const SESSION_TTL_MS: int := 1000 * 60 * 60 * 24 * 7
  /** Ten minutes in seconds: the lifetime of the two login cookies. */
  const LOGIN_COOKIE_MAX_AGE: int := 60 * 10
  const DEFAULT_REDIRECT := "/profile"

  /** `SessionSnapshot`: what the application knows about the signed-in member. An absent
      discriminator or avatar reads as null. */
  datatype Snapshot = Snapshot(discordId: string, username: string, discriminator: Option<string>, avatar: Option<string>)

  /** `SessionPayload`: the snapshot with its issue and expiry times (milliseconds); its
      `version` is always 1 and never read. */
  datatype Payload = Payload(session: Snapshot, issuedAt: int, expiresAt: int)

  /** The encodings the token is built from. */
  datatype Codec = Codec(
    toJson: Payload -> string,
    fromJson: string -> Option<Payload>,
    base64UrlEncode: string -> string,
    base64UrlDecode: string -> string,
    hmac: (string, string) -> string)

  predicate IsBase64UrlChar(c: char) {
    ('A' <= c <= 'Z') || ('a' <= c <= 'z') || ('0' <= c <= '9') || c == '-' || c == '_'
  }

  predicate Base64UrlText(s: string) {
    forall i :: 0 <= i < |s| ==> IsBase64UrlChar(s[i])
  }

  /** What the encodings are known to do: decoding undoes encoding, and base64url text
      (the encoded payload and the HMAC digest) is a non-empty string over its alphabet. */
  ghost predicate Faithful(c: Codec) {
    && (forall p :: c.fromJson(c.base64UrlDecode(c.base64UrlEncode(c.toJson(p)))) == Some(p))
    && (forall p :: c.base64UrlEncode(c.toJson(p)) != [] && Base64UrlText(c.base64UrlEncode(c.toJson(p))))
    && (forall key, s :: c.hmac(key, s) != [] && Base64UrlText(c.hmac(key, s)))
  }

  /** `getSecret`: `SESSION_SECRET ?? NEXTAUTH_SECRET`, which must not be empty. An empty
      `SESSION_SECRET` does not fall back to `NEXTAUTH_SECRET`. */
  function SecretOf(sessionSecret: Option<string>, nextauthSecret: Option<string>): (r: Option<string>)
    ensures r.Some? ==> r.value != []
    ensures sessionSecret.Some? ==> r == (if sessionSecret.value != [] then sessionSecret else None)
    ensures sessionSecret.None? && nextauthSecret.Some? && nextauthSecret.value != [] ==> r == nextauthSecret
    ensures sessionSecret.None? && (nextauthSecret.None? || nextauthSecret.value == []) ==> r.None?
  {
    var chosen := if sessionSecret.Some? then sessionSecret else nextauthSecret;
    if chosen.Some? && chosen.value != [] then chosen else None
  }

  /** `encodeSessionToken` */
  function EncodeToken(p: Payload, c: Codec, secret: string): (t: string)
    ensures Faithful(c) ==>
              Segments(t) == (c.base64UrlEncode(c.toJson(p)), c.hmac(secret, c.base64UrlEncode(c.toJson(p))))
  {
    var encoded := c.base64UrlEncode(c.toJson(p));
    TokenSplits(encoded, c.hmac(secret, encoded));
    encoded + "." + c.hmac(secret, encoded)
  }

  /** Two base64url parts joined by a dot split back into those parts. */
  lemma TokenSplits(encoded: string, signature: string)
    ensures Base64UrlText(encoded) && Base64UrlText(signature) ==>
              Segments(encoded + "." + signature) == (encoded, signature)
  {
    if Base64UrlText(encoded) && Base64UrlText(signature) {
      Base64UrlNoDot(encoded);
      Base64UrlNoDot(signature);
      SegmentsOf(encoded, signature);
    }
  }

  /** What reading a token gives: no session, a payload, or an exception. */
  datatype Read = NoSession | Found(payload: Payload) | Threw

  /** The first two dot-separated segments of a token; a missing second segment reads as
      empty, as `undefined` is falsy. */
  function Segments(token: string): (r: (string, string))
    ensures r.0 == Split(token, '.')[0]
    ensures '.' !in r.0 && '.' !in r.1
  {
    var parts := Split(token, '.');
    (parts[0], if |parts| > 1 then parts[1] else "")
  }

  /** The part after the signature check: the JSON payload, if it parses and has not
      expired (`expiresAt < now` rejects it). */
  function ReadPayload(encoded: string, c: Codec, now: int): (r: Read)
    ensures r != Threw
    ensures r.Found? ==> r.payload.expiresAt >= now
  {
    match c.fromJson(c.base64UrlDecode(encoded))
    case None => NoSession
    case Some(p) => if p.expiresAt < now then NoSession else Found(p)
  }

  /** `decodeSessionToken` as written. The lengths are compared in UTF-16 units, and
      `timingSafeEqual` then throws when the two UTF-8 buffers differ in length. */
  function DecodeTokenAsWritten(token: Option<string>, c: Codec, secret: Option<string>, now: int): (r: Read)
    ensures token.None? || token.value == [] ==> r == NoSession
    ensures r == Threw ==> token.Some? && Segments(token.value).0 != [] && Segments(token.value).1 != []
    ensures r.Found? ==> secret.Some? && Segments(token.value).1 == c.hmac(secret.value, Segments(token.value).0)
                          && r.payload.expiresAt >= now
  {
    if token.None? || token.value == [] then NoSession
    else
      var (encoded, signature) := Segments(token.value);
      if encoded == [] || signature == [] then NoSession
      else if secret.None? then Threw
      else
        var expected := c.hmac(secret.value, encoded);
        if |Utf16(expected)| != |Utf16(signature)| then NoSession
        else if Utf8Length(expected) != Utf8Length(signature) then Threw
        else if expected != signature then NoSession
        else ReadPayload(encoded, c, now)
  }

  /** `decodeSessionToken` with the lengths compared in bytes, the unit `timingSafeEqual`
      compares in: a signature of another length is rejected, never thrown on. */
  function DecodeToken(token: Option<string>, c: Codec, secret: Option<string>, now: int): (r: Read)
    ensures r == Threw <==>
              token.Some? && Segments(token.value).0 != [] && Segments(token.value).1 != [] && secret.None?
    ensures token.None? || token.value == [] ==> r == NoSession
    ensures r.Found? ==>
              && token.Some? && secret.Some?
              && var (encoded, signature) := Segments(token.value);
              && signature == c.hmac(secret.value, encoded)
              && c.fromJson(c.base64UrlDecode(encoded)) == Some(r.payload)
              && r.payload.expiresAt >= now
  {
    if token.None? || token.value == [] then NoSession
    else
      var (encoded, signature) := Segments(token.value);
      if encoded == [] || signature == [] then NoSession
      else if secret.None? then Threw
      else
        var expected := c.hmac(secret.value, encoded);
        if Utf8Length(expected) != Utf8Length(signature) || expected != signature then NoSession
        else ReadPayload(encoded, c, now)
  }

  /** The two decoders agree on every token the code as written does not throw on. */
  lemma DecodeTokenAgrees(token: Option<string>, c: Codec, secret: Option<string>, now: int)
    requires DecodeTokenAsWritten(token, c, secret, now) != Threw
    ensures DecodeToken(token, c, secret, now) == DecodeTokenAsWritten(token, c, secret, now)
  {
  }

  /** Splitting `a.b` where neither part holds a dot gives the two parts back. */
  lemma SegmentsOf(a: string, b: string)
    requires '.' !in a && '.' !in b
    ensures Segments(a + "." + b) == (a, b)
  {
    assert Join([a, b], '.') == a + "." + b;
    SplitJoin([a, b], '.');
  }

  lemma Base64UrlNoDot(s: string)
    requires Base64UrlText(s)
    ensures '.' !in s
  {
  }

  /** A signature of the right UTF-16 length whose first character is `é` makes the code
      as written throw (a 500) instead of answering "no session", whatever the secret. */
  lemma AsWrittenThrowsOnWideSignature(c: Codec, secret: string, encoded: string, now: int)
    requires Faithful(c)
    requires encoded != [] && Base64UrlText(encoded)
    ensures var expected := c.hmac(secret, encoded);
            DecodeTokenAsWritten(Some(encoded + "." + (['é'] + expected[1..])), c, Some(secret), now) == Threw
  {
    var expected := c.hmac(secret, encoded);
    var rest := expected[1..];
    var signature := ['é'] + rest;
    assert Base64UrlText(rest);
    Base64UrlNoDot(encoded);
    Base64UrlNoDot(rest);
    assert '.' !in signature;
    SegmentsOf(encoded, signature);
    assert forall i :: 0 <= i < |expected| ==> expected[i] as int < 0x80 by {
      forall i | 0 <= i < |expected| ensures expected[i] as int < 0x80 {
        assert IsBase64UrlChar(expected[i]);
      }
    }
    assert forall i :: 0 <= i < |rest| ==> rest[i] as int < 0x80;
    AsciiLengths(expected);
    AsciiLengths(rest);
    assert signature[1..] == rest;
    assert |Utf16(signature)| == 1 + |Utf16(rest)|;
    assert Utf8Length(signature) == 2 + Utf8Length(rest);
  }

  /** With the secret configured, the corrected decoder never throws. */
  lemma DecodeTokenTotal(token: Option<string>, c: Codec, secret: string, now: int)
    ensures DecodeToken(token, c, Some(secret), now) != Threw
  {
  }

  /** Round trip: a token this module encodes decodes, under the same secret, to the
      payload it carries until the payload expires, and to no session afterwards. */
  lemma DecodeEncoded(p: Payload, c: Codec, secret: string, now: int)
    requires Faithful(c)
    ensures now <= p.expiresAt ==> DecodeToken(Some(EncodeToken(p, c, secret)), c, Some(secret), now) == Found(p)
    ensures p.expiresAt < now ==> DecodeToken(Some(EncodeToken(p, c, secret)), c, Some(secret), now) == NoSession
  {
    var encoded := c.base64UrlEncode(c.toJson(p));
    var signature := c.hmac(secret, encoded);
    Base64UrlNoDot(encoded);
    Base64UrlNoDot(signature);
    SegmentsOf(encoded, signature);
    assert c.fromJson(c.base64UrlDecode(encoded)) == Some(p);
  }

  /** What `getServerSession` gives: no session, the signed-in member, or an exception. */
  datatype Lookup = Anonymous | SignedIn(session: Snapshot) | Failed

  /** `getServerSession`, reading the request's cookies. */
  function GetServerSession(cookies: map<string, string>, c: Codec, secret: Option<string>, now: int): (r: Lookup)
    ensures r.SignedIn? <==> DecodeToken(CookieValue(cookies, SESSION_COOKIE_NAME), c, secret, now).Found?
    ensures r.SignedIn? ==> r.session == DecodeToken(CookieValue(cookies, SESSION_COOKIE_NAME), c, secret, now).payload.session
    ensures r.Failed? ==> secret.None?
  {
    match DecodeToken(CookieValue(cookies, SESSION_COOKIE_NAME), c, secret, now)
    case NoSession => Anonymous
    case Threw => Failed
    case Found(p) => SignedIn(Snapshot(p.session.discordId, p.session.username, p.session.discriminator, p.session.avatar))
  }

  /** `cookies().get(name)?.value ?? null` */
  function CookieValue(cookies: map<string, string>, name: string): (r: Option<string>)
    ensures r.Some? <==> name in cookies
    ensures r.Some? ==> r.value == cookies[name]
  {
    if name in cookies then Some(cookies[name]) else None
  }

  /** `normalizeRedirectTarget`: a value starting with `/` is kept, anything else gives the
      fallback. A value starting with `//` is kept too. */
  function NormalizeRedirectTarget(value: Option<string>, fallback: string): (r: string)
    ensures value.Some? && StartsWith(value.value, "/") ==> r == value.value
    ensures value.None? || !StartsWith(value.value, "/") ==> r == fallback
  {
    if value.None? || value.value == [] then fallback
    else if StartsWith(value.value, "/") then value.value
    else fallback
  }

  /** A path-shaped fallback makes every result path-shaped, and normalising twice is
      normalising once. */
  lemma NormalizeRedirectTargetStable(value: Option<string>, fallback: string)
    requires StartsWith(fallback, "/")
    ensures StartsWith(NormalizeRedirectTarget(value, fallback), "/")
    ensures NormalizeRedirectTarget(Some(NormalizeRedirectTarget(value, fallback)), fallback)
              == NormalizeRedirectTarget(value, fallback)
  {
  }

  /** `summarizeSession`: the four fields of the session, or null. */
  function SummarizeSession(s: Option<Snapshot>): (r: Option<Snapshot>)
    ensures r.Some? <==> s.Some?
    ensures r.Some? ==> r.value.discordId == s.value.discordId && r.value.username == s.value.username
    ensures r.Some? ==> r.value.discriminator == s.value.discriminator && r.value.avatar == s.value.avatar
  {
    match s
    case None => None
    case Some(v) => Some(Snapshot(v.discordId, v.username, v.discriminator, v.avatar))
  }

  /** A cookie the response sets. Every cookie here is `httpOnly`, `secure`, `sameSite=lax`
      with path `/`; they differ in value and lifetime. */
  datatype Cookie = Cookie(value: string, expires: Option<int>, maxAge: Option<int>)

  /** An expired, empty cookie: how the source deletes one. */
  const CLEARED: Cookie := Cookie("", Some(0), None)

  /** The cookies of an outgoing response; setting a name replaces its earlier value. */
  class Response {
    var cookies: map<string, Cookie>

    constructor ()
      ensures cookies == map[]
    {
      cookies := map[];
    }

    /** `attachSessionToResponse`: a token for the snapshot, issued now and expiring seven
        days later. Without a secret it throws before setting anything. */
    method AttachSession(session: Snapshot, now: int, c: Codec, secret: Option<string>) returns (attached: bool)
      modifies this
      ensures attached <==> secret.Some?
      ensures attached ==>
                cookies == old(cookies)[SESSION_COOKIE_NAME :=
                  Cookie(EncodeToken(Payload(session, now, now + SESSION_TTL_MS), c, secret.value),
                         Some(now + SESSION_TTL_MS), None)]
      ensures !attached ==> cookies == old(cookies)
    {
      if secret.None? {
        return false;
      }
      var payload := Payload(session, now, now + SESSION_TTL_MS);
      cookies := cookies[SESSION_COOKIE_NAME := Cookie(EncodeToken(payload, c, secret.value), Some(payload.expiresAt), None)];
      attached := true;
    }

    /** `destroySession` */
    method DestroySession()
      modifies this
      ensures cookies == old(cookies)[SESSION_COOKIE_NAME := CLEARED]
    {
      cookies := cookies[SESSION_COOKIE_NAME := CLEARED];
    }

    /** `setLoginRedirectCookie` */
    method SetLoginRedirect(target: string)
      modifies this
      ensures cookies == old(cookies)[LOGIN_REDIRECT_COOKIE := Cookie(target, None, Some(LOGIN_COOKIE_MAX_AGE))]
    {
      cookies := cookies[LOGIN_REDIRECT_COOKIE := Cookie(target, None, Some(LOGIN_COOKIE_MAX_AGE))];
    }

    /** `clearLoginRedirectCookie` */
    method ClearLoginRedirect()
      modifies this
      ensures cookies == old(cookies)[LOGIN_REDIRECT_COOKIE := CLEARED]
    {
      cookies := cookies[LOGIN_REDIRECT_COOKIE := CLEARED];
    }

    /** `setLoginStateCookie` */
    method SetLoginState(value: string)
      modifies this
      ensures cookies == old(cookies)[LOGIN_STATE_COOKIE := Cookie(value, None, Some(LOGIN_COOKIE_MAX_AGE))]
    {
      cookies := cookies[LOGIN_STATE_COOKIE := Cookie(value, None, Some(LOGIN_COOKIE_MAX_AGE))];
    }

    /** `clearLoginStateCookie` */
    method ClearLoginState()
      modifies this
      ensures cookies == old(cookies)[LOGIN_STATE_COOKIE := CLEARED]
    {
      cookies := cookies[LOGIN_STATE_COOKIE := CLEARED];
    }
  }

  /** A session cookie set by `attachSessionToResponse` signs the member in on every
      request made within seven days, and on none after. */
  lemma AttachedSessionSignsIn(session: Snapshot, issued: int, now: int, c: Codec, secret: string)
    requires Faithful(c)
    ensures var token := EncodeToken(Payload(session, issued, issued + SESSION_TTL_MS), c, secret);
            var lookup := GetServerSession(map[SESSION_COOKIE_NAME := token], c, Some(secret), now);
            && (now <= issued + SESSION_TTL_MS ==> lookup == SignedIn(session))
            && (now > issued + SESSION_TTL_MS ==> lookup == Anonymous)
  {
    DecodeEncoded(Payload(session, issued, issued + SESSION_TTL_MS), c, secret, now);
  }
}
