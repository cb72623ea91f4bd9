/** The enumerations of a companion's listing profile (`constants/peiwan.ts`): the game
    tags a profile can carry, the tags the listing filters on, the seven price tiers and
    the columns holding their prices, and the options of the status, sex, type and level
    columns. */
module PeiwanConstants {
  const GAME_TAGS: seq<string> :=
    ["LOL", "CSGO", "Valorant", "Naraka", "OW2", "APEX", "deltaForce", "marvel", "singer", "PUBG", "TFT",
     "R6", "tarkov", "chat", "steam", "DOTA", "COD"]

  const TECH_TAG := "techTag"

  /** The game tags followed by `techTag`. */
  const FILTER_TAGS: seq<string> := GAME_TAGS + [TECH_TAG]

  const QUOTATION_CODES: seq<string> := ["Q1", "Q2", "Q3", "Q4", "Q5", "Q6", "Q7"]

  const QUOTATION_PREFIX := "quotation_"

  const QUOTATION_FIELDS: seq<string> :=
    ["quotation_Q1", "quotation_Q2", "quotation_Q3", "quotation_Q4", "quotation_Q5", "quotation_Q6",
     "quotation_Q7"]

  const STATUS_OPTIONS: seq<string> := ["free", "busy"]
  const SEX_FEMALE := "小姐姐"
  const SEX_MALE := "小哥哥"
  const SEX_OPTIONS: seq<string> := [SEX_FEMALE, SEX_MALE]
  const TYPE_OPTIONS: seq<string> := ["娱乐陪玩", "技术陪玩", "大神陪玩"]
  const LEVEL_OPTIONS: seq<string> := ["优选陪玩", "明星陪玩", "殿堂陪玩"]

  predicate Distinct(s: seq<string>) {
    forall i, j :: 0 <= i < j < |s| ==> s[i] != s[j]
  }

  /** The column holding the price of a tier. */
  function QuotationField(code: string): (field: string)
    ensures |field| == |QUOTATION_PREFIX| + |code|
    ensures field[..|QUOTATION_PREFIX|] == QUOTATION_PREFIX && field[|QUOTATION_PREFIX|..] == code
  {
    QUOTATION_PREFIX + code
  }

  /** Two tiers have the same price column only when they are the same tier. */
  lemma QuotationFieldInjective(a: string, b: string)
    requires QuotationField(a) == QuotationField(b)
    ensures a == b
  {
    assert a == QuotationField(a)[|QUOTATION_PREFIX|..];
  }

  /** The price columns are exactly the tiers' columns, position by position, which the
      admin form relies on when it derives a column from a tier. */
  lemma QuotationFieldsMatchCodes()
    ensures |QUOTATION_FIELDS| == |QUOTATION_CODES| == 7
    ensures forall i :: 0 <= i < |QUOTATION_CODES| ==> QUOTATION_FIELDS[i] == QuotationField(QUOTATION_CODES[i])
    ensures Distinct(QUOTATION_CODES) && Distinct(QUOTATION_FIELDS)
  {
    forall i, j | 0 <= i < j < |QUOTATION_FIELDS|
      ensures QUOTATION_FIELDS[i] != QUOTATION_FIELDS[j]
    {
      assert QUOTATION_FIELDS[i][11] != QUOTATION_FIELDS[j][11];
    }
  }

  /** Seventeen distinct game tags, none of them `techTag`, so the filter tags are
      eighteen distinct names. */
  lemma TagCounts()
    ensures |GAME_TAGS| == 17 && Distinct(GAME_TAGS)
    ensures |FILTER_TAGS| == 18 && Distinct(FILTER_TAGS)
    ensures TECH_TAG !in GAME_TAGS
  {
    assert Distinct(GAME_TAGS) by {
      forall i, j | 0 <= i < j < |GAME_TAGS|
        ensures GAME_TAGS[i] != GAME_TAGS[j]
      {
        TagsDiffer(i, j);
      }
    }
  }

  /** Two game tags at different positions differ; the pairs that share a first letter
      are told apart by a later one. */
  lemma TagsDiffer(i: int, j: int)
    requires 0 <= i < j < |GAME_TAGS|
    ensures GAME_TAGS[i] != GAME_TAGS[j]
  {
    if GAME_TAGS[i][0] == GAME_TAGS[j][0] {
      assert |GAME_TAGS[i]| != |GAME_TAGS[j]| || GAME_TAGS[i][1] != GAME_TAGS[j][1];
    }
  }

  /** Each option list has distinct entries. */
  lemma OptionsDistinct()
    ensures |STATUS_OPTIONS| == 2 && Distinct(STATUS_OPTIONS)
    ensures |SEX_OPTIONS| == 2 && Distinct(SEX_OPTIONS)
    ensures |TYPE_OPTIONS| == 3 && Distinct(TYPE_OPTIONS)
    ensures |LEVEL_OPTIONS| == 3 && Distinct(LEVEL_OPTIONS)
  {
    assert TYPE_OPTIONS[0][0] != TYPE_OPTIONS[1][0] && TYPE_OPTIONS[1][0] != TYPE_OPTIONS[2][0]
      && TYPE_OPTIONS[0][0] != TYPE_OPTIONS[2][0];
    assert LEVEL_OPTIONS[0][0] != LEVEL_OPTIONS[1][0] && LEVEL_OPTIONS[1][0] != LEVEL_OPTIONS[2][0]
      && LEVEL_OPTIONS[0][0] != LEVEL_OPTIONS[2][0];
    assert SEX_OPTIONS[0][1] != SEX_OPTIONS[1][1];
  }
}
