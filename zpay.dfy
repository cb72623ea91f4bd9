/** The ZPay gateway helpers of `lib/zpay.ts`: the canonical text a request is signed
    over, the MD5 signature and its check, the payment URL, the merchant order number,
    and the configuration lookup. MD5 itself is a parameter: any function from text to
    text. */
module ZPay {
  import opened Wrappers
  import opened Text

  const DEFAULT_GATEWAY := "https://z-pay.cn/submit.php"
  const SUPPORTED_CHANNELS: seq<string> := ["alipay", "wxpay"]
  const SIGN_TYPE_MD5 := "MD5"

  /** A `Record<string, string | undefined | null>`: its entries in insertion order, with
      `None` for a null or undefined value. */
  type Params = seq<(string, Option<string>)>

  /** An object never has the same key twice. */
  predicate DistinctKeys(p: Params) {
    forall i, j :: 0 <= i < j < |p| ==> p[i].0 != p[j].0
  }

  /** `params[key]` when it is a string; `None` when the key is missing, null or undefined. */
  function Get(p: Params, key: string): (r: Option<string>)
    ensures r.Some? ==> exists i :: 0 <= i < |p| && p[i] == (key, r)
    ensures (forall i :: 0 <= i < |p| ==> p[i].0 != key) ==> r.None?
  {
    if p == [] then None
    else if p[0].0 == key then
      assert p[0] == (key, p[0].1);
      p[0].1
    else
      var r := Get(p[1..], key);
      assert r.Some? ==> exists i :: 0 <= i < |p| && p[i] == (key, r) by {
        if r.Some? {
          var i :| 0 <= i < |p[1..]| && p[1..][i] == (key, r);
          assert p[i + 1] == (key, r);
        }
      }
      r
  }

  /** The two keys that are never signed. */
  predicate IsSignKey(key: string) {
    key == "sign" || key == "sign_type"
  }

  /** The keys `buildSignaturePayload` keeps, in insertion order. */
  function SignedKeys(p: Params): (keys: seq<string>)
    requires DistinctKeys(p)
    ensures forall k :: k in keys <==> !IsSignKey(k) && Get(p, k).Some?
    ensures Distinct(keys)
  {
    if p == [] then []
    else
      var rest := SignedKeys(p[1..]);
      assert Get(p[1..], p[0].0).None? by {
        assert forall i :: 0 <= i < |p[1..]| ==> p[1..][i].0 != p[0].0 by {
          forall i | 0 <= i < |p[1..]| ensures p[1..][i].0 != p[0].0 {
            assert p[1..][i] == p[i + 1];
          }
        }
      }
      if !IsSignKey(p[0].0) && p[0].1.Some? then [p[0].0] + rest else rest
  }

  // ---- ordering of keys ----

  /** Strict lexicographic order on character codes. */
  predicate Below(a: string, b: string) {
    if a == [] then b != []
    else if b == [] then false
    else if a[0] != b[0] then a[0] < b[0]
    else Below(a[1..], b[1..])
  }

  lemma {:induction false} BelowIrreflexive(a: string)
    ensures !Below(a, a)
  {
    if a != [] {
      BelowIrreflexive(a[1..]);
    }
  }

  lemma {:induction false} BelowTransitive(a: string, b: string, c: string)
    requires Below(a, b) && Below(b, c)
    ensures Below(a, c)
  {
    if a != [] && b != [] && c != [] && a[0] == b[0] && b[0] == c[0] {
      BelowTransitive(a[1..], b[1..], c[1..]);
    }
  }

  lemma {:induction false} BelowTotal(a: string, b: string)
    requires a != b
    ensures Below(a, b) || Below(b, a)
  {
    if a != [] && b != [] && a[0] == b[0] {
      assert a == [a[0]] + a[1..] && b == [b[0]] + b[1..];
      BelowTotal(a[1..], b[1..]);
    }
  }

  lemma BelowAsymmetric(a: string, b: string)
    requires Below(a, b)
    ensures !Below(b, a)
  {
    if Below(b, a) {
      BelowTransitive(a, b, a);
      BelowIrreflexive(a);
    }
  }

  predicate StrictlySorted(s: seq<string>) {
    forall i, j :: 0 <= i < j < |s| ==> Below(s[i], s[j])
  }

  predicate Distinct(s: seq<string>) {
    forall i, j :: 0 <= i < j < |s| ==> s[i] != s[j]
  }

  /** Puts `x` into its place in a sorted sequence. */
  function Insert(x: string, s: seq<string>): (r: seq<string>)
    requires StrictlySorted(s) && x !in s
    ensures StrictlySorted(r) && multiset(r) == multiset(s) + multiset{x}
  {
    if s == [] then [x]
    else if Below(x, s[0]) then
      assert forall j :: 0 <= j < |s| ==> Below(x, s[j]) by {
        forall j | 0 < j < |s| ensures Below(x, s[j]) { BelowTransitive(x, s[0], s[j]); }
      }
      [x] + s
    else
      BelowTotal(x, s[0]);
      var tail := Insert(x, s[1..]);
      assert x in multiset(tail);
      assert s == [s[0]] + s[1..];
      assert forall j :: 0 <= j < |tail| ==> Below(s[0], tail[j]) by {
        forall j | 0 <= j < |tail| ensures Below(s[0], tail[j]) {
          assert tail[j] in multiset(tail);
          if tail[j] != x {
            assert tail[j] in multiset(s[1..]);
            var k :| 0 <= k < |s[1..]| && s[1..][k] == tail[j];
            assert s[k + 1] == tail[j];
          }
        }
      }
      [s[0]] + tail
  }

  /** `.sort((a, b) => a.localeCompare(b))` on distinct keys. */
  function SortKeys(keys: seq<string>): (r: seq<string>)
    requires Distinct(keys)
    ensures StrictlySorted(r) && multiset(r) == multiset(keys)
  {
    if keys == [] then []
    else
      var rest := SortKeys(keys[1..]);
      assert keys == [keys[0]] + keys[1..];
      assert keys[0] !in keys[1..] by {
        forall k | 0 <= k < |keys[1..]| ensures keys[1..][k] != keys[0] {
          assert keys[1..][k] == keys[k + 1];
        }
      }
      assert keys[0] !in multiset(rest);
      Insert(keys[0], rest)
  }

  /** Two strictly sorted sequences with the same elements are the same sequence. */
  lemma {:induction false} SortedUnique(a: seq<string>, b: seq<string>)
    requires StrictlySorted(a) && StrictlySorted(b)
    requires forall x :: x in a <==> x in b
    ensures a == b
  {
    assert a != [] ==> a[0] in b;
    assert b != [] ==> b[0] in a;
    if a != [] && b != [] {
      assert a == [a[0]] + a[1..] && b == [b[0]] + b[1..];
      if a[0] != b[0] {
        assert b[0] in a && a[0] in b;
        var i :| 0 <= i < |a| && a[i] == b[0];
        var j :| 0 <= j < |b| && b[j] == a[0];
        assert i != 0 && Below(a[0], a[i]);
        assert j != 0 && Below(b[0], b[j]);
        BelowAsymmetric(a[0], b[0]);
      }
      forall x
        ensures x in a[1..] ==> x in b[1..]
        ensures x in b[1..] ==> x in a[1..]
      {
        if x in a[1..] {
          var i :| 0 <= i < |a[1..]| && a[1..][i] == x;
          assert a[i + 1] == x;
          assert x != a[0] by { assert Below(a[0], a[i + 1]); BelowIrreflexive(a[0]); }
          assert x in b;
        }
        if x in b[1..] {
          var i :| 0 <= i < |b[1..]| && b[1..][i] == x;
          assert b[i + 1] == x;
          assert x != b[0] by { assert Below(b[0], b[i + 1]); BelowIrreflexive(b[0]); }
          assert x in a;
        }
      }
      SortedUnique(a[1..], b[1..]);
    }
  }

  // ---- signing ----

  /** The `key=value` pairs of the given keys, joined by '&' with no escaping. */
  function Render(keys: seq<string>, p: Params): string {
    Join(seq(|keys|, i requires 0 <= i < |keys| => keys[i] + "=" + Get(p, keys[i]).GetOr("")), '&')
  }

  /** `buildSignaturePayload` */
  function SignaturePayload(p: Params): string
    requires DistinctKeys(p)
  {
    Render(SortKeys(SignedKeys(p)), p)
  }

  /** The sorted signed keys are determined by which keys carry a value. */
  lemma SortedKeysCanonical(p: Params, q: Params)
    requires DistinctKeys(p) && DistinctKeys(q)
    requires forall k :: !IsSignKey(k) ==> Get(p, k) == Get(q, k)
    ensures SortKeys(SignedKeys(p)) == SortKeys(SignedKeys(q))
  {
    var kp := SortKeys(SignedKeys(p));
    var kq := SortKeys(SignedKeys(q));
    forall x
      ensures x in kp <==> x in kq
    {
      assert x in kp <==> x in multiset(kp);
      assert x in multiset(kp) <==> x in SignedKeys(p);
      assert x in kq <==> x in multiset(kq);
      assert x in multiset(kq) <==> x in SignedKeys(q);
    }
    SortedUnique(kp, kq);
  }

  lemma RenderAgrees(keys: seq<string>, p: Params, q: Params)
    requires forall k :: k in keys ==> Get(p, k) == Get(q, k)
    ensures Render(keys, p) == Render(keys, q)
  {
    assert seq(|keys|, i requires 0 <= i < |keys| => keys[i] + "=" + Get(p, keys[i]).GetOr(""))
        == seq(|keys|, i requires 0 <= i < |keys| => keys[i] + "=" + Get(q, keys[i]).GetOr(""));
  }

  /** The payload depends only on the present values of the keys other than `sign` and
      `sign_type`: not on their order, not on the signature fields, and not on keys whose
      value is null or undefined. */
  lemma SignaturePayloadCanonical(p: Params, q: Params)
    requires DistinctKeys(p) && DistinctKeys(q)
    requires forall k :: !IsSignKey(k) ==> Get(p, k) == Get(q, k)
    ensures SignaturePayload(p) == SignaturePayload(q)
  {
    SortedKeysCanonical(p, q);
    var kp := SortKeys(SignedKeys(p));
    forall k | k in kp
      ensures Get(p, k) == Get(q, k)
    {
      assert k in multiset(SignedKeys(p));
    }
    RenderAgrees(kp, p, q);
  }

  /** `buildZPaySignature`: the hash of the payload followed by the secret. */
  function Signature(md5: string -> string, p: Params, secret: string): string
    requires DistinctKeys(p)
  {
    md5(SignaturePayload(p) + secret)
  }

  /** `verifyZPaySignature`: an empty or missing signature never verifies; otherwise the
      expected and the given signature are compared ignoring case. */
  function VerifySignature(md5: string -> string, p: Params, secret: string, provided: Option<string>): (ok: bool)
    requires DistinctKeys(p)
    ensures ok ==> provided.Some? && provided.value != []
    ensures ok ==> |provided.value| == |Signature(md5, p, secret)|
  {
    if provided.None? || provided.value == [] then false
    else ToLower(Signature(md5, p, secret)) == ToLower(provided.value)
  }

  /** The whole promise of `verifyZPaySignature`: a signature verifies exactly when it is
      present, not empty, and equal to the expected one once both are lower-cased. */
  lemma VerifySignatureExactly(md5: string -> string, p: Params, secret: string, provided: Option<string>)
    requires DistinctKeys(p)
    ensures VerifySignature(md5, p, secret, provided) <==>
              provided.Some? && provided.value != [] && ToLower(Signature(md5, p, secret)) == ToLower(provided.value)
  {
  }

  /** Verification does not depend on the `sign` and `sign_type` fields the request carries. */
  lemma VerifyIgnoresSignFields(md5: string -> string, p: Params, q: Params, secret: string, provided: Option<string>)
    requires DistinctKeys(p) && DistinctKeys(q)
    requires forall k :: !IsSignKey(k) ==> Get(p, k) == Get(q, k)
    ensures VerifySignature(md5, p, secret, provided) == VerifySignature(md5, q, secret, provided)
  {
    SignaturePayloadCanonical(p, q);
  }

  /** A signature verifies against itself. */
  lemma VerifyOwnSignature(md5: string -> string, p: Params, secret: string)
    requires DistinctKeys(p)
    requires Signature(md5, p, secret) != []
    ensures VerifySignature(md5, p, secret, Some(Signature(md5, p, secret)))
  {
  }

  /** A signature in ASCII, as a hexadecimal digest is, also verifies in upper case. */
  lemma VerifyUpperCaseSignature(md5: string -> string, p: Params, secret: string)
    requires DistinctKeys(p)
    requires Signature(md5, p, secret) != [] && IsAscii(Signature(md5, p, secret))
    ensures VerifySignature(md5, p, secret, Some(ToUpper(Signature(md5, p, secret))))
  {
    var s := Signature(md5, p, secret);
    assert ToLower(ToUpper(s)) == ToLower(s) by {
      forall i | 0 <= i < |s| ensures ToLower(ToUpper(s))[i] == ToLower(s)[i] {
        var c := s[i];
        assert ToUpper(s)[i] == UpperChar(c);
      }
    }
  }

  // ---- the payment URL ----

  /** `{ ...params, key: value }`: an existing key keeps its place and takes the new value,
      a new key goes last. */
  function Assign(p: seq<(string, string)>, key: string, value: string): seq<(string, string)>
  {
    if p == [] then [(key, value)]
    else if p[0].0 == key then [(key, value)] + p[1..]
    else [p[0]] + Assign(p[1..], key, value)
  }

  /** Plain string parameters as a record. */
  function Lift(p: seq<(string, string)>): (r: Params)
    ensures |r| == |p| && forall i :: 0 <= i < |p| ==> r[i] == (p[i].0, Some(p[i].1))
  {
    seq(|p|, i requires 0 <= i < |p| => (p[i].0, Some(p[i].1)))
  }

  lemma {:induction false} AssignGet(p: seq<(string, string)>, key: string, value: string, k: string)
    ensures Get(Lift(Assign(p, key, value)), k) == if k == key then Some(value) else Get(Lift(p), k)
  {
    var a := Assign(p, key, value);
    LiftCons(a);
    GetCons(Lift(a), k);
    if p == [] {
      assert a[1..] == [];
      assert Lift(a[1..]) == [] && Lift(p) == [];
    } else {
      LiftCons(p);
      GetCons(Lift(p), k);
      if p[0].0 == key {
        assert a[1..] == p[1..];
      } else {
        assert a[1..] == Assign(p[1..], key, value);
        AssignGet(p[1..], key, value, k);
      }
    }
  }

  lemma LiftCons(q: seq<(string, string)>)
    requires q != []
    ensures Lift(q) != [] && Lift(q)[0] == (q[0].0, Some(q[0].1)) && Lift(q)[1..] == Lift(q[1..])
  {
  }

  lemma GetCons(r: Params, k: string)
    requires r != []
    ensures Get(r, k) == if r[0].0 == k then r[0].1 else Get(r[1..], k)
  {
  }

  lemma {:induction false} AssignKeeps(p: seq<(string, string)>, key: string, value: string, k: string)
    requires k != key && forall i :: 0 <= i < |p| ==> p[i].0 != k
    ensures forall j :: 0 <= j < |Assign(p, key, value)| ==> Assign(p, key, value)[j].0 != k
  {
    if p != [] && p[0].0 != key {
      AssignKeeps(p[1..], key, value, k);
    }
  }

  lemma {:induction false} AssignDistinct(p: seq<(string, string)>, key: string, value: string)
    requires DistinctKeys(Lift(p))
    ensures DistinctKeys(Lift(Assign(p, key, value)))
  {
    if p == [] {
    } else if p[0].0 == key {
      var r := Assign(p, key, value);
      assert forall j :: 0 <= j < |r| ==> r[j].0 == p[j].0;
    } else {
      assert DistinctKeys(Lift(p[1..])) by {
        assert forall i :: 0 <= i < |p[1..]| ==> Lift(p[1..])[i] == Lift(p)[i + 1];
      }
      AssignDistinct(p[1..], key, value);
      assert forall i :: 0 <= i < |p[1..]| ==> p[1..][i].0 != p[0].0 by {
        forall i | 0 <= i < |p[1..]| ensures p[1..][i].0 != p[0].0 {
          assert Lift(p)[i + 1].0 != Lift(p)[0].0;
        }
      }
      AssignKeeps(p[1..], key, value, p[0].0);
      var r := Assign(p, key, value);
      var t := Assign(p[1..], key, value);
      assert r == [p[0]] + t;
      forall a, b | 0 <= a < b < |r|
        ensures Lift(r)[a].0 != Lift(r)[b].0
      {
        if a > 0 {
          assert Lift(t)[a - 1].0 != Lift(t)[b - 1].0;
        }
      }
    }
  }

  /** The query parameters of the payment URL: the request, its signature and
      `sign_type=MD5`. */
  function PayUrlParams(md5: string -> string, p: seq<(string, string)>, secret: string): (r: seq<(string, string)>)
    requires DistinctKeys(Lift(p))
    ensures DistinctKeys(Lift(r))
  {
    var sign := Signature(md5, Lift(p), secret);
    AssignDistinct(p, "sign", sign);
    AssignDistinct(Assign(p, "sign", sign), "sign_type", SIGN_TYPE_MD5);
    Assign(Assign(p, "sign", sign), "sign_type", SIGN_TYPE_MD5)
  }

  /** `buildZPayUrl`; `encode` is the `application/x-www-form-urlencoded` escaping of
      `URLSearchParams`. */
  function BuildPayUrl(md5: string -> string, encode: string -> string, p: seq<(string, string)>,
                       secret: string, gateway: string): (url: string)
    requires DistinctKeys(Lift(p))
    ensures StartsWith(url, gateway + "?")
  {
    var q := PayUrlParams(md5, p, secret);
    gateway + "?" + Join(seq(|q|, i requires 0 <= i < |q| => encode(q[i].0) + "=" + encode(q[i].1)), '&')
  }

  /** The gateway accepts what `buildZPayUrl` sends: the parameters of the URL, checked
      against the `sign` they carry with the same secret, verify. */
  lemma PayUrlVerifies(md5: string -> string, p: seq<(string, string)>, secret: string)
    requires DistinctKeys(Lift(p))
    requires Signature(md5, Lift(p), secret) != []
    ensures var q := Lift(PayUrlParams(md5, p, secret));
      Get(q, "sign") == Some(Signature(md5, Lift(p), secret))
      && Get(q, "sign_type") == Some(SIGN_TYPE_MD5)
      && VerifySignature(md5, q, secret, Get(q, "sign"))
  {
    var sign := Signature(md5, Lift(p), secret);
    var p1 := Assign(p, "sign", sign);
    var p2 := Assign(p1, "sign_type", SIGN_TYPE_MD5);
    AssignDistinct(p, "sign", sign);
    AssignDistinct(p1, "sign_type", SIGN_TYPE_MD5);
    forall k | !IsSignKey(k)
      ensures Get(Lift(p2), k) == Get(Lift(p), k)
    {
      AssignGet(p1, "sign_type", SIGN_TYPE_MD5, k);
      AssignGet(p, "sign", sign, k);
    }
    AssignGet(p1, "sign_type", SIGN_TYPE_MD5, "sign");
    AssignGet(p, "sign", sign, "sign");
    AssignGet(p1, "sign_type", SIGN_TYPE_MD5, "sign_type");
    var q := Lift(p2);
    assert DistinctKeys(q);
    SignaturePayloadCanonical(q, Lift(p));
    VerifyOwnSignature(md5, Lift(p), secret);
  }

  // ---- merchant order numbers ----

  /** The local date and time `new Date()` reads. */
  datatype Clock = Clock(year: nat, month: nat, day: nat, hours: nat, minutes: nat, seconds: nat)
  {
    predicate Valid() {
      1000 <= year <= 9999 && 1 <= month <= 12 && 1 <= day <= 31 && hours < 24 && minutes < 60 && seconds < 60
    }
  }

  /** `discordId.slice(-4)`: the last four characters, or all of a shorter id. */
  function LastFour(s: string): (r: string)
    ensures |r| == if |s| < 4 then |s| else 4
    ensures r == s[|s| - |r|..]
  {
    if |s| < 4 then s else s[|s| - 4..]
  }

  /** yyyyMMddHHmmss of the clock. */
  function Timestamp(now: Clock): (t: string)
    requires now.Valid()
    ensures |t| == 14 && AllDigits(t)
    ensures DigitsValue(t[..4]) == now.year && DigitsValue(t[4..6]) == now.month
    ensures DigitsValue(t[6..8]) == now.day && DigitsValue(t[8..10]) == now.hours
    ensures DigitsValue(t[10..12]) == now.minutes && DigitsValue(t[12..14]) == now.seconds
  {
    var y := NatToDigits(now.year);
    NatToDigitsLength(now.year, 3);
    var clock := Pad2(now.hours) + Pad2(now.minutes) + Pad2(now.seconds);
    assert clock[..2] == Pad2(now.hours) && clock[2..4] == Pad2(now.minutes) && clock[4..] == Pad2(now.seconds);
    var date := y + Pad2(now.month) + Pad2(now.day);
    assert date[..4] == y && date[4..6] == Pad2(now.month) && date[6..] == Pad2(now.day);
    var t := date + clock;
    assert t[..4] == date[..4] && t[4..6] == date[4..6] && t[6..8] == date[6..];
    assert t[8..10] == clock[..2] && t[10..12] == clock[2..4] && t[12..14] == clock[4..];
    AllDigitsConcat(y, Pad2(now.month));
    AllDigitsConcat(y + Pad2(now.month), Pad2(now.day));
    AllDigitsConcat(Pad2(now.hours), Pad2(now.minutes));
    AllDigitsConcat(Pad2(now.hours) + Pad2(now.minutes), Pad2(now.seconds));
    AllDigitsConcat(date, clock);
    t
  }

  lemma AllDigitsConcat(a: string, b: string)
    requires AllDigits(a) && AllDigits(b)
    ensures AllDigits(a + b)
  {
    assert forall i :: 0 <= i < |a + b| ==> (a + b)[i] == if i < |a| then a[i] else b[i - |a|];
  }

  /** `buildOutTradeNo`: the timestamp, a three-digit number drawn from `random`
      (`Math.random()`, in [0, 1)), and the id's last four characters. */
  function BuildOutTradeNo(now: Clock, random: real, discordId: string): (r: string)
    requires now.Valid() && 0.0 <= random < 1.0
    ensures |r| == 17 + |LastFour(discordId)|
    ensures r[..14] == Timestamp(now)
    ensures AllDigits(r[14..17]) && 100 <= DigitsValue(r[14..17]) <= 999
    ensures r[17..] == LastFour(discordId)
  {
    var draw := (random * 900.0).Floor + 100;
    assert 0 <= draw - 100 < 900 by {
      assert 0.0 <= random * 900.0 < 900.0;
    }
    var rnd := NatToDigits(draw);
    NatToDigitsLength(draw, 2);
    var r := Timestamp(now) + rnd + LastFour(discordId);
    assert r[..14] == Timestamp(now) && r[14..17] == rnd && r[17..] == LastFour(discordId);
    r
  }

  /** A number in [10^k, 10^(k+1)) is written with `k + 1` digits. */
  lemma {:induction false} NatToDigitsLength(n: nat, k: nat)
    requires Pow10(k) <= n < 10 * Pow10(k)
    ensures |NatToDigits(n)| == k + 1
  {
    if k > 0 {
      NatToDigitsLength(n / 10, k - 1);
    }
  }

  // ---- configuration ----

  /** `getZPayGatewayUrl`: the configured gateway unless unset or empty. */
  function GatewayUrl(configured: Option<string>): (url: string)
    ensures configured.Some? && configured.value != [] ==> url == configured.value
    ensures configured.None? || configured.value == [] ==> url == DEFAULT_GATEWAY
  {
    if configured.Some? && configured.value != [] then configured.value else DEFAULT_GATEWAY
  }

  datatype Config = Config(merchantId: string, secret: string)

  /** `requiredZPayConfig`: both the merchant id and the secret must be set and non-empty;
      otherwise it throws. */
  function RequiredConfig(merchantId: Option<string>, secret: Option<string>): (r: Result<Config, string>)
    ensures r.Ok? <==> merchantId.Some? && merchantId.value != [] && secret.Some? && secret.value != []
    ensures r.Ok? ==> r.value == Config(merchantId.value, secret.value)
  {
    if merchantId.None? || merchantId.value == [] || secret.None? || secret.value == [] then
      Err("ZPAY_MERCHANT_ID/ZPAY_SECRET_KEY are not configured")
    else Ok(Config(merchantId.value, secret.value))
  }
}
