/** The heart page (`app/profile/heart/page.tsx`): the fifteen heart role tiers, the tier
    a heart total has reached, the one it is heading for, and how far along it is. */
module Heart {
  import opened Wrappers
  import opened Text
  import LedgerDisplay

  datatype Tier = Tier(threshold: nat, roles: string)

  /** `HEART_ROLE_TIERS`, lowest threshold first. */
  const HEART_ROLE_TIERS: seq<Tier> := [
    Tier(131, "𝒍𝒗𝟏  ♡ 初遇锦缘 ♡ㅤ"),
    Tier(520, "𝒍𝒗𝟐  ♡ 小有默契 ♡"),
    Tier(999, "𝒍𝒗𝟑  ♡ 锦语呢喃 ♡"),
    Tier(1314, "𝒍𝒗𝟒  ♡ 心有灵犀 ♡ㅤ"),
    Tier(3344, "𝒍𝒗𝟓  ♡ 锦梦相随 ♡"),
    Tier(5210, "𝒍𝒗𝟔  ♡ 情生锦夜 ♡"),
    Tier(6666, "𝒍𝒗𝟕  ♡ 鱼跃心间 ♡"),
    Tier(9999, "𝒍𝒗𝟖  ♡ 缘定锦心 ♡"),
    Tier(13140, "𝒍𝒗𝟗  ♡ 锦瑶不负 ♡"),
    Tier(33440, "𝒍𝒗𝟏𝟎  ♡ 永结锦缘 ♡"),
    Tier(52000, "𝒍𝒗𝟏𝟏  ♡ 锦龙之契 ♡"),
    Tier(99999, "𝒍𝒗𝟏𝟐  ♡ 缘生龙梦 ♡"),
    Tier(131400, "𝒍𝒗𝟏𝟑  ♡ 锦御天心 ♡"),
    Tier(334400, "ㅤ𝒍𝒗𝟏𝟒  ♡ 锦耀星河 ♡"),
    Tier(999999, "𝒍𝒗𝟏𝟓  ♡ 锦缘永恒 ♡ㅤ")
  ]

  const TOP := |HEART_ROLE_TIERS| - 1

  predicate Ascending(tiers: seq<Tier>) {
    forall i, j :: 0 <= i < j < |tiers| ==> tiers[i].threshold < tiers[j].threshold
  }

  predicate AdjacentAscending(tiers: seq<Tier>) {
    forall i :: 0 < i < |tiers| ==> tiers[i - 1].threshold < tiers[i].threshold
  }

  lemma {:induction false} AdjacentMakesAscending(tiers: seq<Tier>)
    requires AdjacentAscending(tiers)
    ensures Ascending(tiers)
  {
    if tiers != [] {
      AdjacentMakesAscending(tiers[1..]);
      forall j | 0 < j < |tiers|
        ensures tiers[0].threshold < tiers[j].threshold
      {
        var k := 1;
        while k < j
          invariant 1 <= k <= j
          invariant tiers[0].threshold < tiers[k].threshold
        {
          k := k + 1;
        }
      }
    }
  }

  /** Each threshold is above the one before it, from 131 up to 999999. */
  lemma TiersAscending()
    ensures |HEART_ROLE_TIERS| == 15
    ensures HEART_ROLE_TIERS[0].threshold == 131 && HEART_ROLE_TIERS[TOP].threshold == 999999
    ensures Ascending(HEART_ROLE_TIERS)
  {
    AdjacentMakesAscending(HEART_ROLE_TIERS);
  }

  /** How many tiers, from the first, the loop passes before it meets a threshold above
      `total`: the tiers reached. */
  function Reached(tiers: seq<Tier>, total: int): (k: nat)
    ensures k <= |tiers|
    ensures forall i :: 0 <= i < k ==> tiers[i].threshold <= total
    ensures k < |tiers| ==> total < tiers[k].threshold
  {
    if tiers == [] || total < tiers[0].threshold then 0 else 1 + Reached(tiers[1..], total)
  }

  /** With ordered tiers, a tier is reached exactly when its threshold is at most the
      total: the reached tiers are a prefix. */
  lemma ReachedExactly(tiers: seq<Tier>, total: int, i: nat)
    requires Ascending(tiers) && i < |tiers|
    ensures tiers[i].threshold <= total <==> i < Reached(tiers, total)
  {
  }

  /** What `resolveTier` returns: the tier reached, the tier to reach next (`null` past
      the top), the share of the way to it, and the two thresholds the bar runs between. */
  datatype TierView = TierView(current: Tier, next: Option<Tier>, progress: real,
                               prevThreshold: int, nextThreshold: int)

  function Clamp(x: real): (r: real)
    ensures 0.0 <= r <= 1.0
    ensures 0.0 <= x <= 1.0 ==> r == x
  {
    if x < 0.0 then 0.0 else if x > 1.0 then 1.0 else x
  }

  /** The tier view of a total, from the tiers it reaches: the last reached tier (the
      first one when none is), the first tier not reached, and the share of the way
      from the last reached threshold (0 when none is) to the next one. */
  function TierOf(tiers: seq<Tier>, total: int): (v: TierView)
    requires tiers != []
    ensures v.current in tiers
    ensures v.next.Some? ==> v.next.value in tiers
    ensures 0.0 <= v.progress <= 1.0
  {
    var k := Reached(tiers, total);
    var current := if k == 0 then tiers[0] else tiers[k - 1];
    var next := if k < |tiers| then Some(tiers[k]) else None;
    var prev := if k == 0 then 0 else tiers[k - 1].threshold;
    var nextThreshold := if next.Some? then next.value.threshold else prev;
    var span := if nextThreshold - prev > 1 then nextThreshold - prev else 1;
    TierView(current, next, Clamp((total - prev) as real / span as real), prev, nextThreshold)
  }

  /** `resolveTier`, called with `HEART_ROLE_TIERS` as `tiers`: walks the tiers from the
      lowest, keeping the last one reached, and stops at the first one the total does
      not reach. */
  method ResolveTier(tiers: seq<Tier>, total: int) returns (v: TierView)
    requires tiers != []
    ensures v == TierOf(tiers, total)
  {
    var first := tiers[0];
    var current := first;
    var next: Option<Tier> := None;
    var prevThreshold := 0;
    var i := 0;
    while i < |tiers|
      invariant i <= Reached(tiers, total)
      invariant next.None?
      invariant current == (if i == 0 then first else tiers[i - 1])
      invariant prevThreshold == (if i == 0 then 0 else tiers[i - 1].threshold)
    {
      var tier := tiers[i];
      if total >= tier.threshold {
        current := tier;
        prevThreshold := tier.threshold;
      } else {
        next := Some(tier);
        break;
      }
      i := i + 1;
    }
    if next.None? && current == first && total < current.threshold {
      prevThreshold := 0;
      next := Some(first);
    }
    var nextThreshold := if next.Some? then next.value.threshold else prevThreshold;
    var span := if nextThreshold - prevThreshold > 1 then nextThreshold - prevThreshold else 1;
    var progress := (total - prevThreshold) as real / span as real;
    if progress < 0.0 {
      progress := 0.0;
    }
    if progress > 1.0 {
      progress := 1.0;
    }
    v := TierView(current, next, progress, prevThreshold, nextThreshold);
  }

  /** The current tier is the highest whose threshold the total reaches (the first tier
      when it reaches none), and the next tier is the lowest it does not reach; there is
      a next tier exactly below the top threshold. */
  lemma CurrentAndNext(tiers: seq<Tier>, total: int, i: nat)
    requires Ascending(tiers) && i < |tiers|
    ensures var v := TierOf(tiers, total); var t := tiers[i].threshold;
      && (t <= total ==> t <= v.current.threshold <= total)
      && (v.next.Some? <==> total < tiers[|tiers| - 1].threshold)
      && (v.next.Some? ==> total < v.next.value.threshold)
      && (v.next.Some? && total < t ==> v.next.value.threshold <= t)
  {
    ReachedExactly(tiers, total, i);
    ReachedExactly(tiers, total, |tiers| - 1);
  }

  /** Below the first threshold the first tier is both current and next; the reset in
      the source for that case never changes anything, because the loop has already made
      the first tier the next one. */
  lemma BelowFirstTier(tiers: seq<Tier>, total: int)
    requires tiers != [] && total < tiers[0].threshold
    ensures var v := TierOf(tiers, total);
      && v.current == tiers[0] && v.next == Some(tiers[0])
      && v.prevThreshold == 0 && v.nextThreshold == tiers[0].threshold
      && v.progress == (if total < 0 then 0.0 else total as real / tiers[0].threshold as real)
  {
    var t := tiers[0].threshold;
    if t > 1 && total >= 0 {
      ShareBelowOne(total as real, t as real);
    }
  }

  /** Between the first and the top threshold the bar shows the share of the way from
      the threshold reached to the next one, below 1. */
  lemma ProgressBetweenTiers(tiers: seq<Tier>, total: int)
    requires Ascending(tiers) && tiers != []
    requires tiers[0].threshold <= total < tiers[|tiers| - 1].threshold
    ensures var v := TierOf(tiers, total);
      && v.next.Some?
      && v.prevThreshold == v.current.threshold <= total < v.nextThreshold == v.next.value.threshold
      && v.progress == (total - v.prevThreshold) as real / (v.nextThreshold - v.prevThreshold) as real
      && v.progress < 1.0
  {
    var k := Reached(tiers, total);
    ReachedExactly(tiers, total, 0);
    ReachedExactly(tiers, total, |tiers| - 1);
    var prev, next := tiers[k - 1].threshold, tiers[k].threshold;
    ShareBelowOne((total - prev) as real, (next - prev) as real);
  }

  lemma ShareBelowOne(x: real, span: real)
    requires 0.0 <= x < span
    ensures 0.0 <= x / span < 1.0
  {
    assert x / span * span == x;
  }

  /** At or past the top threshold there is no next tier and the bar is measured against
      a span of 1 from the top threshold: empty exactly at it, full past it. */
  lemma TopTier(tiers: seq<Tier>, total: int)
    requires Ascending(tiers) && tiers != []
    requires tiers[|tiers| - 1].threshold <= total
    ensures var v := TierOf(tiers, total);
      && v.current == tiers[|tiers| - 1] && v.next.None?
      && v.prevThreshold == v.nextThreshold == tiers[|tiers| - 1].threshold
      && v.progress == (if total == tiers[|tiers| - 1].threshold then 0.0 else 1.0)
  {
    ReachedExactly(tiers, total, |tiers| - 1);
  }

  /** `formatNumber` for the integer totals and thresholds of the page: `'0'` for a
      missing value, otherwise the number with comma groups and no fraction. */
  function FormatCount(value: Option<int>): (r: string)
    ensures r != []
    ensures value.None? ==> r == "0"
  {
    match value
    case None => "0"
    case Some(n) =>
      var digits := NatToDigits(if n < 0 then -n else n);
      (if n < 0 then "-" else "") + LedgerDisplay.Grouped(digits)
  }

  /** The text of a count reads back, without its separators and sign, as its digits. */
  lemma FormatCountReadBack(n: int)
    ensures var r := FormatCount(Some(n));
      && (r[0] == '-' <==> n < 0)
      && var body := if n < 0 then r[1..] else r;
         AllDigits(LedgerDisplay.Ungroup(body)) && DigitsValue(LedgerDisplay.Ungroup(body)) == (if n < 0 then -n else n)
  {
    var digits := NatToDigits(if n < 0 then -n else n);
    assert ',' !in digits by {
      forall i | 0 <= i < |digits|
        ensures digits[i] != ','
      {
        assert IsDigit(digits[i]);
      }
    }
    LedgerDisplay.UngroupGrouped(digits);
    var g := LedgerDisplay.Grouped(digits);
    assert g[0] != '-' by {
      GroupedStartsWithDigit(digits);
    }
    var r := FormatCount(Some(n));
    if n < 0 {
      assert r == "-" + g;
      assert r[1..] == g;
    } else {
      assert r == g;
    }
    assert LedgerDisplay.Ungroup(g) == digits;
  }

  lemma {:induction false} GroupedStartsWithDigit(d: string)
    requires d != [] && AllDigits(d)
    ensures LedgerDisplay.Grouped(d) != [] && LedgerDisplay.Grouped(d)[0] == d[0]
    decreases |d|
  {
    if |d| > 3 {
      var head := d[..|d| - 3];
      assert AllDigits(head) by {
        forall i | 0 <= i < |head|
          ensures IsDigit(head[i])
        {
          assert head[i] == d[i];
        }
      }
      GroupedStartsWithDigit(head);
    }
  }

  /** `resolveDisplayName`: the server nickname, unless it is missing or empty, else the
      Discord id. */
  function DisplayName(serverDisplayName: Option<string>, discordUserId: string): (r: string)
    ensures r == discordUserId || (serverDisplayName == Some(r) && r != [])
    ensures r == [] ==> discordUserId == []
  {
    match serverDisplayName
    case Some(name) => if name != [] then name else discordUserId
    case None => discordUserId
  }
}
