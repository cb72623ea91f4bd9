/** The public companion listing (`GET /api/peiwan`, `app/api/peiwan/route.ts`): the
    query's page, page size, filters and seed are normalised; the matching profiles
    (never a blocked member's) are read in id order, shuffled by the seed, and one page
    of them is returned with the number of matches. */
module PeiwanListing {
  import opened Wrappers
  import opened Text
  import opened Money
  import opened Js
  import opened PeiwanConstants
  import opened Shuffle

  const MAX_PAGE_SIZE: int := 50
  const DEFAULT_PAGE: int := 1
  const DEFAULT_PAGE_SIZE: int := 12

  /** Members whose profiles are never listed. */
  const BLOCKED_DISCORD_IDS: seq<string> :=
    ["734159747367829636", "525770714574225408", "1439777142899474433", "1440688775129862189"]

  /** `value ? Number.parseInt(value, 10) : fallback`, with NaN as `None`. */
  function ParsedOr(value: Option<string>, fallback: int): (r: Option<int>)
    ensures value.None? || value.value == [] ==> r == Some(fallback)
    ensures value.Some? && value.value != [] ==> r == ParseInt(value.value)
  {
    if value.Some? && value.value != [] then ParseInt(value.value) else Some(fallback)
  }

  /** `normalizePage`: NaN or below 1 gives the fallback. */
  function NormalizePage(value: Option<string>, fallback: int): (page: int)
    ensures page == fallback || page >= 1
    ensures fallback >= 1 ==> page >= 1
  {
    var parsed := ParsedOr(value, fallback);
    if parsed.None? || parsed.value < 1 then fallback else parsed.value
  }

  /** `normalizePageSize`: as `normalizePage`, then at most 50. */
  function NormalizePageSize(value: Option<string>, fallback: int): (size: int)
    ensures 1 <= fallback <= MAX_PAGE_SIZE ==> 1 <= size <= MAX_PAGE_SIZE
    ensures size == fallback || 1 <= size <= MAX_PAGE_SIZE
  {
    var parsed := ParsedOr(value, fallback);
    if parsed.None? || parsed.value < 1 then fallback
    else if parsed.value < MAX_PAGE_SIZE then parsed.value else MAX_PAGE_SIZE
  }

  /** The decimal text of a page number is read back as that page. */
  lemma PageReadBack(n: nat, fallback: int)
    requires n >= 1
    ensures NormalizePage(Some(NatToDigits(n)), fallback) == n
  {
    var text := NatToDigits(n);
    ParseIntDigits(n);
    assert ParsedOr(Some(text), fallback) == Some(n);
  }

  /** The decimal text of a page size is read back clamped to 50. */
  lemma PageSizeReadBack(n: nat, fallback: int)
    requires n >= 1
    ensures NormalizePageSize(Some(NatToDigits(n)), fallback) == if n < MAX_PAGE_SIZE then n else MAX_PAGE_SIZE
  {
    ParseIntDigits(n);
    PageSizeOfParsed(NatToDigits(n), n, fallback);
  }

  lemma PageSizeOfParsed(text: string, n: int, fallback: int)
    requires text != [] && ParseInt(text) == Some(n) && n >= 1
    ensures NormalizePageSize(Some(text), fallback) == if n < MAX_PAGE_SIZE then n else MAX_PAGE_SIZE
  {
    assert ParsedOr(Some(text), fallback) == Some(n);
  }

  /** Text that does not start with a digit, a sign or white space gives the fallback. */
  lemma GarbageGivesFallback(s: string, fallback: int)
    requires s != [] && !IsDigit(s[0]) && !IsSpace(s[0]) && s[0] != '-' && s[0] != '+'
    ensures NormalizePage(Some(s), fallback) == fallback
    ensures NormalizePageSize(Some(s), fallback) == fallback
  {
    assert TrimStart(s) == s;
    assert StripSign(s) == s;
    assert SpanDigits(s) == 0;
  }

  /** `normalizeEnum`: a non-empty value from the allowed list, otherwise no filter. */
  function NormalizeEnum(value: Option<string>, allowed: seq<string>): (r: Option<string>)
    ensures r.Some? <==> value.Some? && value.value != [] && value.value in allowed
    ensures r.Some? ==> r == value
  {
    if value.Some? && value.value != [] && value.value in allowed then value else None
  }

  /** The trimmed pieces that name a known game tag, in order, repeats kept. */
  function KnownGames(parts: seq<string>): (games: seq<string>)
    ensures |games| <= |parts|
    ensures forall g :: g in games <==> g in GAME_TAGS && exists p :: p in parts && Trim(p) == g
  {
    if parts == [] then []
    else
      var rest := KnownGames(parts[1..]);
      assert forall p :: p in parts <==> p == parts[0] || p in parts[1..];
      if Trim(parts[0]) in GAME_TAGS then [Trim(parts[0])] + rest else rest
  }

  /** `parseGames`: nothing for a missing or empty value. */
  function ParseGames(value: Option<string>): (games: seq<string>)
    ensures forall g :: g in games ==> g in GAME_TAGS
    ensures value.None? || value.value == [] ==> games == []
    ensures value.Some? && value.value != [] ==>
              forall g :: g in games <==> g in GAME_TAGS && exists p :: p in Split(value.value, ',') && Trim(p) == g
  {
    if value.None? || value.value == [] then [] else KnownGames(Split(value.value, ','))
  }

  /** A name made of ASCII letters and digits. */
  predicate Word(t: string) {
    t != [] && forall i :: 0 <= i < |t| ==> WordChar(t[i])
  }

  predicate WordChar(c: char) {
    'a' <= c <= 'z' || 'A' <= c <= 'Z' || '0' <= c <= '9'
  }

  lemma GameTagsAreWords()
    ensures forall t :: t in GAME_TAGS ==> Word(t)
  {
    FirstTagsAreWords();
    LastTagsAreWords();
  }

  lemma FirstTagsAreWords()
    ensures Word("LOL") && Word("CSGO") && Word("Valorant") && Word("Naraka") && Word("OW2") && Word("APEX")
    ensures Word("deltaForce") && Word("marvel")
  {
  }

  lemma LastTagsAreWords()
    ensures Word("singer") && Word("PUBG") && Word("TFT") && Word("R6")
    ensures Word("tarkov") && Word("chat") && Word("steam") && Word("DOTA") && Word("COD")
  {
  }

  /** A word is its own trim and holds no comma. */
  lemma WordIsPlain(t: string)
    requires Word(t)
    ensures Trim(t) == t && ',' !in t
  {
    assert WordChar(t[0]) && WordChar(t[|t| - 1]);
    TrimPlain(t);
  }

  /** `KnownGames` keeps a list of tags as it is. */
  lemma {:induction false} KnownGamesKeepsTags(tags: seq<string>)
    requires forall t :: t in tags ==> t in GAME_TAGS
    ensures KnownGames(tags) == tags
  {
    if tags != [] {
      GameTagsAreWords();
      assert tags[0] in tags;
      WordIsPlain(tags[0]);
      KnownGamesKeepsTags(tags[1..]);
    }
  }

  /** The filter's games, written as the listing page writes them (joined by commas),
      are read back in the same order with repeats. */
  lemma ParseGamesJoin(tags: seq<string>)
    requires tags != []
    requires forall t :: t in tags ==> t in GAME_TAGS
    ensures ParseGames(Some(Join(tags, ','))) == tags
  {
    GameTagsAreWords();
    forall i | 0 <= i < |tags|
      ensures ',' !in tags[i] && tags[i] != []
    {
      assert tags[i] in tags;
      WordIsPlain(tags[i]);
    }
    SplitJoin(tags, ',');
    JoinNonEmpty(tags);
    KnownGamesKeepsTags(tags);
  }

  /** A join whose first piece is not empty is not empty. */
  lemma JoinNonEmpty(tags: seq<string>)
    requires tags != [] && tags[0] != []
    ensures Join(tags, ',') != []
  {
    if |tags| > 1 {
      assert |Join(tags, ',')| >= |tags[0]|;
    }
  }

  /** `parseBoolean` */
  predicate ParseBoolean(value: Option<string>) {
    value == Some("true") || value == Some("1")
  }

  /** The `gender` parameter as a sex filter. */
  function SexFilter(gender: Option<string>): (sex: Option<string>)
    ensures sex.Some? <==> gender == Some("female") || gender == Some("male")
    ensures sex.Some? ==> sex.value in SEX_OPTIONS
    ensures gender == Some("female") ==> sex == Some(SEX_FEMALE)
    ensures gender == Some("male") ==> sex == Some(SEX_MALE)
  {
    if gender == Some("female") then Some(SEX_FEMALE)
    else if gender == Some("male") then Some(SEX_MALE)
    else None
  }

  /** The `id` parameter: applied only when it parses. */
  function IdFilter(rawId: Option<string>): (id: Option<int>)
    ensures id.Some? ==> rawId.Some? && ParseInt(rawId.value) == id
    ensures rawId.Some? && ParseInt(rawId.value).Some? ==> id == ParseInt(rawId.value)
  {
    if rawId.Some? && rawId.value != [] then ParseInt(rawId.value) else None
  }

  /** The query string, each parameter present or not. */
  datatype Query = Query(page: Option<string>, pageSize: Option<string>, seed: Option<string>, id: Option<string>,
                         level: Option<string>, gender: Option<string>, games: Option<string>, techTag: Option<string>)

  /** The `where` clause; the blocked ids are always part of it. */
  datatype Where = Where(peiwanId: Option<int>, level: Option<string>, sex: Option<string>, techTag: bool,
                         games: seq<string>)

  function WhereOf(q: Query): (w: Where)
    ensures w.level.Some? ==> w.level.value in LEVEL_OPTIONS
    ensures w.sex.Some? ==> w.sex.value in SEX_OPTIONS
    ensures forall g :: g in w.games ==> g in GAME_TAGS
    ensures w.techTag <==> q.techTag == Some("true") || q.techTag == Some("1")
  {
    Where(IdFilter(q.id), NormalizeEnum(q.level, LEVEL_OPTIONS), SexFilter(q.gender), ParseBoolean(q.techTag),
          ParseGames(q.games))
  }

  /** A listing profile with what the listing reads of it and of its member. */
  datatype Row = Row(id: int, discordUserId: string, serverDisplayName: Option<string>,
                     memberDisplayName: Option<string>, defaultQuotationCode: string, level: Option<string>,
                     sex: Option<string>, techTag: bool, mpUrl: Option<string>, tags: set<string>)

  predicate Matches(w: Where, r: Row) {
    && r.discordUserId !in BLOCKED_DISCORD_IDS
    && (w.peiwanId.Some? ==> r.id == w.peiwanId.value)
    && (w.level.Some? ==> r.level == w.level)
    && (w.sex.Some? ==> r.sex == w.sex)
    && (w.techTag ==> r.techTag)
    && (w.games != [] ==> exists g :: g in w.games && g in r.tags)
  }

  /** The matching rows, in the order the database returns them. */
  function Select(rows: seq<Row>, w: Where): (r: seq<Row>)
    ensures |r| <= |rows|
    ensures forall x :: x in r <==> x in rows && Matches(w, x)
  {
    if rows == [] then []
    else
      assert forall x :: x in rows <==> x == rows[0] || x in rows[1..];
      (if Matches(w, rows[0]) then [rows[0]] else []) + Select(rows[1..], w)
  }

  /** `Array.prototype.slice(start, end)` for `0 <= start`. */
  function Slice<T>(s: seq<T>, start: nat, end: nat): (r: seq<T>)
    ensures |r| == if start >= |s| || end <= start then 0 else (if end < |s| then end else |s|) - start
    ensures forall k :: 0 <= k < |r| ==> r[k] == s[start + k]
  {
    var e := if end < |s| then end else |s|;
    if start >= e then [] else s[start..e]
  }

  /** One entry of the response; the price column is not part of this model. */
  datatype Card = Card(id: int, discordUserId: string, serverDisplayName: string, quotationCode: string,
                       level: Option<string>, sex: Option<string>, techTag: bool, mpUrl: Option<string>,
                       gameTags: map<string, bool>)

  /** Every game tag, true when the profile carries it. */
  function GameTagFlags(tags: set<string>): (flags: map<string, bool>)
    ensures flags.Keys == set t | t in GAME_TAGS
    ensures forall t :: t in flags ==> (flags[t] <==> t in tags)
  {
    map t | t in GAME_TAGS :: t in tags
  }

  function CardOf(r: Row): (c: Card)
    ensures c.id == r.id && c.discordUserId == r.discordUserId
    ensures r.serverDisplayName.Some? ==> c.serverDisplayName == r.serverDisplayName.value
    ensures r.serverDisplayName.None? && r.memberDisplayName.Some? ==> c.serverDisplayName == r.memberDisplayName.value
    ensures r.serverDisplayName.None? && r.memberDisplayName.None? ==> c.serverDisplayName == r.discordUserId
  {
    var name := if r.serverDisplayName.Some? then r.serverDisplayName.value
      else if r.memberDisplayName.Some? then r.memberDisplayName.value
      else r.discordUserId;
    Card(r.id, r.discordUserId, name, r.defaultQuotationCode, r.level, r.sex, r.techTag, r.mpUrl,
         GameTagFlags(r.tags))
  }

  function Cards(rows: seq<Row>): (cards: seq<Card>)
    ensures |cards| == |rows|
    ensures forall k :: 0 <= k < |rows| ==> cards[k] == CardOf(rows[k])
  {
    if rows == [] then [] else [CardOf(rows[0])] + Cards(rows[1..])
  }

  datatype Response = Response(data: seq<Card>, total: nat, page: int, pageSize: int, seed: string)

  /** `(page - 1) * pageSize`, the number of shuffled rows before the page. */
  function Skip(page: int, size: int): (skip: nat)
    requires page >= 1 && size >= 0
  {
    MulNonNegative(page - 1, size);
    (page - 1) * size
  }

  lemma MulNonNegative(a: nat, b: nat)
    ensures a * b >= 0
  {
  }

  /** `searchParams.get('seed') ?? <random>` */
  function SeedOf(q: Query, randomSeed: string): (seed: string)
    ensures q.seed.Some? ==> seed == q.seed.value
    ensures q.seed.None? ==> seed == randomSeed
  {
    q.seed.GetOr(randomSeed)
  }

  /** The response once the matching rows are in their shuffled order. */
  function PageOf(q: Query, total: nat, order: seq<Row>, seed: string): Response {
    var page := NormalizePage(q.page, DEFAULT_PAGE);
    var size := NormalizePageSize(q.pageSize, DEFAULT_PAGE_SIZE);
    var skip := Skip(page, size);
    Response(Cards(Slice(order, skip, skip + size)), total, page, size, seed)
  }

  /** The rows as the query returns them, by increasing id. */
  predicate IdOrder(rows: seq<Row>) {
    forall i, j :: 0 <= i < j < |rows| ==> rows[i].id < rows[j].id
  }

  /** The response to `q` over the whole table in id order; `randomSeed` is the seed made
      up when the query has none. */
  function Listing(q: Query, rows: seq<Row>, randomSeed: string): (r: Response)
    requires IdOrder(rows)
    ensures r.total == |Select(rows, WhereOf(q))|
    ensures r.seed == SeedOf(q, randomSeed)
  {
    var matching := Select(rows, WhereOf(q));
    var seed := SeedOf(q, randomSeed);
    PageOf(q, |matching|, Shuffled(matching, seed), seed)
  }

  /** `GET`: the rows are copied into an array and shuffled in place before the page is
      cut. */
  method ListPeiwans(q: Query, rows: seq<Row>, randomSeed: string) returns (resp: Response)
    requires IdOrder(rows)
    ensures resp == Listing(q, rows, randomSeed)
  {
    var seed := SeedOf(q, randomSeed);
    var matching := Select(rows, WhereOf(q));
    var shuffled := ShuffledCopy(matching, seed);
    resp := PageOf(q, |matching|, shuffled, seed);
  }

  /** `shuffleWithSeed([...rows], seed)`: a fresh array, shuffled in place. */
  method ShuffledCopy(rows: seq<Row>, seed: string) returns (shuffled: seq<Row>)
    ensures shuffled == Shuffled(rows, seed)
  {
    var copy := new Row[|rows|](k requires 0 <= k < |rows| => rows[k]);
    assert copy[..] == rows;
    ShuffleWithSeed(copy, seed);
    shuffled := copy[..];
  }

  /** Every card of a page cut from rows that all match is the card of a matching row,
      and so never a blocked member's. */
  lemma PageCardsMatch(rows: seq<Row>, w: Where, order: seq<Row>, skip: nat, size: nat)
    requires forall x :: x in order ==> x in rows && Matches(w, x)
    ensures forall c :: c in Cards(Slice(order, skip, skip + size)) ==>
              c.discordUserId !in BLOCKED_DISCORD_IDS && exists r :: r in rows && Matches(w, r) && c == CardOf(r)
  {
    var cut := Slice(order, skip, skip + size);
    var cards := Cards(cut);
    forall c | c in cards
      ensures c.discordUserId !in BLOCKED_DISCORD_IDS
      ensures exists r :: r in rows && Matches(w, r) && c == CardOf(r)
    {
      var k :| 0 <= k < |cards| && cards[k] == c;
      assert cut[k] == order[skip + k];
      assert order[skip + k] in order;
    }
  }

  /** A page cut from rows that all match: at most a page of cards, each the card of a
      matching row. */
  lemma PageOfShowsMatches(q: Query, rows: seq<Row>, w: Where, total: nat, order: seq<Row>, seed: string)
    requires forall x :: x in order ==> x in rows && Matches(w, x)
    ensures var resp := PageOf(q, total, order, seed);
      && 1 <= resp.page && 1 <= resp.pageSize <= MAX_PAGE_SIZE
      && |resp.data| <= resp.pageSize && resp.total == total
      && forall c :: c in resp.data ==>
           c.discordUserId !in BLOCKED_DISCORD_IDS && exists r :: r in rows && Matches(w, r) && c == CardOf(r)
  {
    PageBounds(q, total, order, seed);
    var page := NormalizePage(q.page, DEFAULT_PAGE);
    var size := NormalizePageSize(q.pageSize, DEFAULT_PAGE_SIZE);
    var skip := Skip(page, size);
    PageCardsMatch(rows, w, order, skip, size);
    assert PageOf(q, total, order, seed).data == Cards(Slice(order, skip, skip + size));
  }

  /** A page holds at most a page size of cards, and the page size is at most 50. */
  lemma PageBounds(q: Query, total: nat, order: seq<Row>, seed: string)
    ensures var resp := PageOf(q, total, order, seed);
      && 1 <= resp.page && 1 <= resp.pageSize <= MAX_PAGE_SIZE
      && |resp.data| <= resp.pageSize && resp.total == total
  {
  }

  /** What a page shows: at most a page of cards, each the card of a row that matches
      every filter and whose member is not blocked, and the total counts every match. */
  lemma ListingShowsMatches(q: Query, rows: seq<Row>, randomSeed: string)
    requires IdOrder(rows)
    ensures var resp := Listing(q, rows, randomSeed);
      && 1 <= resp.page && 1 <= resp.pageSize <= MAX_PAGE_SIZE
      && |resp.data| <= resp.pageSize
      && resp.total == |Select(rows, WhereOf(q))|
      && forall c :: c in resp.data ==>
           c.discordUserId !in BLOCKED_DISCORD_IDS
           && exists r :: r in rows && Matches(WhereOf(q), r) && c == CardOf(r)
  {
    var w := WhereOf(q);
    var matching := Select(rows, w);
    var seed := SeedOf(q, randomSeed);
    var order := Shuffled(matching, seed);
    ShuffledPermutes(matching, seed);
    assert forall x :: x in order ==> x in rows && Matches(w, x) by {
      forall x | x in order
        ensures x in rows && Matches(w, x)
      {
        assert x in matching;
      }
    }
    PageOfShowsMatches(q, rows, w, |matching|, order, seed);
  }

  /** Consecutive pages of the same shuffled rows follow each other without a gap or an
      overlap. */
  lemma PagesTile<T>(s: seq<T>, page: nat, size: nat)
    requires page >= 1
    ensures Slice(s, (page - 1) * size, page * size) + Slice(s, page * size, (page + 1) * size)
              == Slice(s, (page - 1) * size, (page + 1) * size)
  {
    var a, b, c := (page - 1) * size, page * size, (page + 1) * size;
    assert b == a + size && c == b + size;
    var left, right, whole := Slice(s, a, b), Slice(s, b, c), Slice(s, a, c);
    assert |left + right| == |whole|;
    forall k | 0 <= k < |whole|
      ensures (left + right)[k] == whole[k]
    {
      if k < |left| {
        assert (left + right)[k] == s[a + k];
      } else {
        assert (left + right)[k] == right[k - |left|] == s[b + k - |left|];
        assert |left| == size;
      }
    }
  }
}
