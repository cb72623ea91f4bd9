/** Normalising the listing-profile form (`lib/peiwan/payload.ts`): the request body is
    read field by field, each field is checked or defaulted, and the first field that
    fails stops the normalisation with its message; the normalised profile is then turned
    into the columns of a `PEIWAN` row. */
module PeiwanPayload {
  import opened Wrappers
  import opened Text
  import opened Money
  import opened Js
  import opened Store
  import opened PeiwanConstants

  const ERR_DISCORD_ID := "Discord ID 不能为空"
  const ERR_RATE_RANGE := "抽成比例需在 0-1 之间"
  const ERR_TOTAL_EARN := "累计流水必须为非负数字"
  const ERR_PEIWAN_ID := "陪玩ID 必须为正整数"
  /** `optionalNumber`'s message, used for `totalEarn` as well as for the prices. */
  const ERR_QUOTATION := "报价必须为数字"

  /** `ensureObject`: an object's properties; anything else (including an array, which
      has none of the names read here) reads as `{}`. */
  function EnsureObject(v: JsValue): (data: map<string, JsValue>)
    ensures v.Obj? ==> data == v.fields
    ensures !v.Obj? ==> data == map[]
  {
    if v.Obj? then v.fields else map[]
  }

  /** `data[key]`, `undefined` when absent. */
  function Field(data: map<string, JsValue>, key: string): JsValue {
    if key in data then data[key] else Undefined
  }

  /** `value === null || value === undefined || value === ''` */
  predicate Blank(v: JsValue) {
    v.Undefined? || v.Null? || v == Str([])
  }

  /** `ensureEnum`: a string from the list, or the error `<field> 无效`. */
  function EnsureEnum(v: JsValue, allowed: seq<string>, field: string): (r: Result<string, string>)
    ensures r.Ok? <==> v.Str? && v.s in allowed
    ensures r.Ok? ==> r.value == v.s
    ensures r.Err? ==> r.error == field + " 无效"
  {
    if v.Str? && v.s in allowed then Ok(v.s) else Err(field + " 无效")
  }

  /** `optionalEnum`: a string from the list, or nothing. */
  function OptionalEnum(v: JsValue, allowed: seq<string>): (r: Option<string>)
    ensures r.Some? <==> v.Str? && v.s in allowed
    ensures r.Some? ==> r.value == v.s
  {
    if v.Str? && v.s in allowed then Some(v.s) else None
  }

  /** `ensureNumber`: blank is `<field> 不能为空`, `NaN` is `<field> 必须为数字`; an
      infinity passes. */
  function EnsureNumber(v: JsValue, field: string): (r: Result<Num, string>)
    ensures r.Ok? <==> !Blank(v) && !ToNumber(v).NaN?
    ensures r.Ok? ==> r.value == ToNumber(v)
    ensures Blank(v) ==> r == Err(field + " 不能为空")
    ensures !Blank(v) && ToNumber(v).NaN? ==> r == Err(field + " 必须为数字")
  {
    if Blank(v) then Err(field + " 不能为空")
    else if ToNumber(v).NaN? then Err(field + " 必须为数字")
    else Ok(ToNumber(v))
  }

  /** `optionalNumber`: blank is absent, `NaN` throws. */
  function OptionalNumber(v: JsValue): (r: Result<Option<Num>, string>)
    ensures Blank(v) ==> r == Ok(None)
    ensures !Blank(v) && ToNumber(v).NaN? ==> r == Err(ERR_QUOTATION)
    ensures !Blank(v) && !ToNumber(v).NaN? ==> r == Ok(Some(ToNumber(v)))
  {
    if Blank(v) then Ok(None)
    else if ToNumber(v).NaN? then Err(ERR_QUOTATION)
    else Ok(Some(ToNumber(v)))
  }

  /** A field given as "0x10" is the number sixteen, and as "0b2" it is not a number. */
  lemma EnsureNumberPrefixed(field: string, hex: string, badBinary: string)
    requires hex == "0x10" && badBinary == "0b2"
    ensures EnsureNumber(Str(hex), field) == Ok(Finite(16.0))
    ensures OptionalNumber(Str(hex)) == Ok(Some(Finite(16.0)))
    ensures EnsureNumber(Str(badBinary), field) == Err(field + " 必须为数字")
  {
    StringToNumberHex();
    assert ToNumber(Str(hex)) == Finite(16.0);
    assert !Blank(Str(hex)) by {
      assert |hex| == 4;
    }
    StringToNumberBadBinary();
    assert ToNumber(Str(badBinary)) == NaN;
    assert !Blank(Str(badBinary)) by {
      assert |badBinary| == 3;
    }
  }

  /** `x < 0` and `x > 1` on a JavaScript number. */
  predicate Negative(n: Num) {
    (n.Finite? && n.value < 0.0) || n == Infinite(false)
  }

  predicate AboveOne(n: Num) {
    (n.Finite? && n.value > 1.0) || n == Infinite(true)
  }

  datatype Options = Options(requireDiscordId: bool, allowPeiwanId: bool)

  /** `{}`, the options the registration form passes. */
  const DEFAULT_OPTIONS := Options(true, false)

  /** `NormalizedPeiwanPayload` */
  datatype Payload = Payload(
    discordUserId: string,
    peiwanId: Option<int>,
    defaultQuotationCode: string,
    commissionRate: real,
    totalEarn: Option<Num>,
    mpUrl: Option<string>,
    status: Option<string>,
    kind: string,
    level: string,
    sex: string,
    techTag: bool,
    exclusive: bool,
    quotationValues: map<string, Num>,
    gameTags: map<string, bool>)

  /** The trimmed `discordUserId` when it is a string, `''` otherwise. */
  function DiscordIdOf(data: map<string, JsValue>): string {
    var v := Field(data, "discordUserId");
    if v.Str? then Trim(v.s) else ""
  }

  /** The trimmed `MP_url` when it is a non-blank string. */
  function MpUrlOf(data: map<string, JsValue>): (r: Option<string>)
    ensures r.Some? ==> r.value != [] && Field(data, "MP_url").Str? && r.value == Trim(Field(data, "MP_url").s)
  {
    var v := Field(data, "MP_url");
    if v.Str? && Trim(v.s) != [] then Some(Trim(v.s)) else None
  }

  function BoolOr(v: JsValue, default: bool): bool {
    if v.Bool? then v.b else default
  }

  /** The `peiwanId` step: read only when allowed; blank is absent, and anything else
      must be a positive integer. */
  function PeiwanIdOf(data: map<string, JsValue>, allow: bool): (r: Result<Option<int>, string>)
    ensures !allow ==> r == Ok(None)
    ensures r.Ok? && r.value.Some? ==> allow && r.value.value > 0 && ToNumber(Field(data, "peiwanId")) == Finite(r.value.value as real)
    ensures r.Err? <==> allow && !Blank(Field(data, "peiwanId"))
                        && !(IsInteger(ToNumber(Field(data, "peiwanId"))) && ToNumber(Field(data, "peiwanId")).value > 0.0)
    ensures r.Err? ==> r.error == ERR_PEIWAN_ID
  {
    var raw := Field(data, "peiwanId");
    if !allow || Blank(raw) then Ok(None)
    else
      var n := ToNumber(raw);
      if IsInteger(n) && n.value > 0.0 then Ok(Some(n.value.Floor)) else Err(ERR_PEIWAN_ID)
  }

  /** A price column that is present, not blank, and not a number. */
  predicate BadQuotation(data: map<string, JsValue>, field: string) {
    field in data && !Blank(data[field]) && ToNumber(data[field]).NaN?
  }

  /** The prices read from the form: the present, non-blank price columns, as numbers. */
  function QuotationValues(data: map<string, JsValue>): (q: map<string, Num>)
    ensures forall f :: f in q <==> f in QUOTATION_FIELDS && f in data && !Blank(data[f])
    ensures forall f :: f in q ==> q[f] == ToNumber(data[f])
  {
    map f | f in QUOTATION_FIELDS && f in data && !Blank(data[f]) :: ToNumber(data[f])
  }

  /** The tags read from the form's `gameTags` object: the known tags given as booleans. */
  function GameTags(data: map<string, JsValue>): (g: map<string, bool>)
    ensures forall t :: t in g <==> t in GAME_TAGS && Field(EnsureObject(Field(data, "gameTags")), t).Bool?
    ensures forall t :: t in g ==> g[t] == Field(EnsureObject(Field(data, "gameTags")), t).b
  {
    KnownTags(EnsureObject(Field(data, "gameTags")))
  }

  function KnownTags(tags: map<string, JsValue>): (g: map<string, bool>)
    ensures forall t :: t in g <==> t in GAME_TAGS && Field(tags, t).Bool?
    ensures forall t :: t in g ==> g[t] == Field(tags, t).b
  {
    map t | t in GAME_TAGS && Field(tags, t).Bool? :: Field(tags, t).b
  }

  /** Every check the form must pass, stated independently of their order. */
  predicate Acceptable(data: map<string, JsValue>, opts: Options) {
    && (opts.requireDiscordId ==> DiscordIdOf(data) != [])
    && EnsureEnum(Field(data, "defaultQuotationCode"), QUOTATION_CODES, "").Ok?
    && EnsureNumber(Field(data, "commissionRate"), "").Ok?
    && ToNumber(Field(data, "commissionRate")).Finite?
    && 0.0 <= ToNumber(Field(data, "commissionRate")).value <= 1.0
    && RestAcceptable(data, opts)
  }

  /** The checks after the commission rate. */
  predicate RestAcceptable(data: map<string, JsValue>, opts: Options) {
    && OptionalNumber(Field(data, "totalEarn")).Ok?
    && (OptionalNumber(Field(data, "totalEarn")).value.Some? ==> !Negative(OptionalNumber(Field(data, "totalEarn")).value.value))
    && Field(data, "type").Str? && Field(data, "type").s in TYPE_OPTIONS
    && Field(data, "level").Str? && Field(data, "level").s in LEVEL_OPTIONS
    && Field(data, "sex").Str? && Field(data, "sex").s in SEX_OPTIONS
    && PeiwanIdOf(data, opts.allowPeiwanId).Ok?
    && (forall f :: f in QUOTATION_FIELDS ==> !BadQuotation(data, f))
  }

  /** What the fields read after the commission rate hold in a normalised profile: each
      is the form's own value, read as its step reads it. */
  predicate RestNormalised(p: Payload, data: map<string, JsValue>, opts: Options) {
    && OptionalNumber(Field(data, "totalEarn")).Ok? && p.totalEarn == OptionalNumber(Field(data, "totalEarn")).value
    && (p.totalEarn.Some? ==> !p.totalEarn.value.NaN? && !Negative(p.totalEarn.value))
    && Field(data, "type") == Str(p.kind) && Field(data, "level") == Str(p.level) && Field(data, "sex") == Str(p.sex)
    && p.kind in TYPE_OPTIONS && p.level in LEVEL_OPTIONS && p.sex in SEX_OPTIONS
    && p.status == OptionalEnum(Field(data, "status"), STATUS_OPTIONS)
    && PeiwanIdOf(data, opts.allowPeiwanId) == Ok(p.peiwanId)
    && (p.peiwanId.Some? ==> opts.allowPeiwanId && p.peiwanId.value > 0)
    && p.mpUrl == MpUrlOf(data)
    && p.quotationValues == QuotationValues(data)
    && (forall f :: f in p.quotationValues ==> f in QUOTATION_FIELDS && !p.quotationValues[f].NaN?)
    && p.gameTags == GameTags(data)
    && (forall t :: t in p.gameTags ==> t in GAME_TAGS)
    && p.techTag == BoolOr(Field(data, "techTag"), false)
    && p.exclusive == BoolOr(Field(data, "exclusive"), false)
  }

  /** The checks after the commission rate, in the source's order. */
  function NormalizeRest(data: map<string, JsValue>, opts: Options, id: string, code: string, rate: real):
    (r: Result<Payload, string>)
    ensures r.Ok? <==> RestAcceptable(data, opts)
    ensures r.Ok? ==>
              && r.value.discordUserId == id && r.value.defaultQuotationCode == code && r.value.commissionRate == rate
              && RestNormalised(r.value, data, opts)
  {
    match OptionalNumber(Field(data, "totalEarn"))
    case Err(e) => Err(e)
    case Ok(totalEarn) =>
      if totalEarn.Some? && Negative(totalEarn.value) then Err(ERR_TOTAL_EARN)
      else match EnsureEnum(Field(data, "type"), TYPE_OPTIONS, "类型")
      case Err(e) => Err(e)
      case Ok(kind) =>
        match EnsureEnum(Field(data, "level"), LEVEL_OPTIONS, "等级")
        case Err(e) => Err(e)
        case Ok(level) =>
          match EnsureEnum(Field(data, "sex"), SEX_OPTIONS, "性别")
          case Err(e) => Err(e)
          case Ok(sex) =>
            match PeiwanIdOf(data, opts.allowPeiwanId)
            case Err(e) => Err(e)
            case Ok(peiwanId) =>
              if exists f :: f in QUOTATION_FIELDS && BadQuotation(data, f) then Err(ERR_QUOTATION)
              else Ok(Payload(id, peiwanId, code, rate, totalEarn, MpUrlOf(data),
                              OptionalEnum(Field(data, "status"), STATUS_OPTIONS), kind, level, sex,
                              BoolOr(Field(data, "techTag"), false), BoolOr(Field(data, "exclusive"), false),
                              QuotationValues(data), GameTags(data)))
  }

  /** `normalizePeiwanPayload(input, opts)`, with the loops over the price columns and
      the tags written as the maps they build. */
  function Normalize(input: JsValue, opts: Options): (r: Result<Payload, string>)
    ensures r.Ok? <==> Acceptable(EnsureObject(input), opts)
    ensures opts.requireDiscordId && DiscordIdOf(EnsureObject(input)) == [] ==> r == Err(ERR_DISCORD_ID)
    ensures r.Ok? ==>
              var data := EnsureObject(input);
              var p := r.value;
              && p.discordUserId == DiscordIdOf(data)
              && Field(data, "defaultQuotationCode") == Str(p.defaultQuotationCode)
              && p.defaultQuotationCode in QUOTATION_CODES
              && 0.0 <= p.commissionRate <= 1.0 && ToNumber(Field(data, "commissionRate")) == Finite(p.commissionRate)
              && RestNormalised(p, data, opts)
  {
    var data := EnsureObject(input);
    var id := DiscordIdOf(data);
    if opts.requireDiscordId && id == [] then Err(ERR_DISCORD_ID)
    else match EnsureEnum(Field(data, "defaultQuotationCode"), QUOTATION_CODES, "默认报价档位")
    case Err(e) => Err(e)
    case Ok(code) =>
      match EnsureNumber(Field(data, "commissionRate"), "抽成比例")
      case Err(e) => Err(e)
      case Ok(rate) =>
        if Negative(rate) || AboveOne(rate) then Err(ERR_RATE_RANGE)
        else NormalizeRest(data, opts, id, code, rate.value)
  }

  /** The same normalisation with the source's two loops: the price columns are read in
      order and the first one that is not a number stops it, then the known tags are
      copied. */
  method NormalizePeiwanPayload(input: JsValue, opts: Options) returns (r: Result<Payload, string>)
    ensures r == Normalize(input, opts)
  {
    var data := EnsureObject(input);
    var id := DiscordIdOf(data);
    if opts.requireDiscordId && id == [] {
      return Err(ERR_DISCORD_ID);
    }
    var code := EnsureEnum(Field(data, "defaultQuotationCode"), QUOTATION_CODES, "默认报价档位");
    if code.Err? {
      return Err(code.error);
    }
    var rate := EnsureNumber(Field(data, "commissionRate"), "抽成比例");
    if rate.Err? {
      return Err(rate.error);
    }
    if Negative(rate.value) || AboveOne(rate.value) {
      return Err(ERR_RATE_RANGE);
    }
    r := NormalizeRemaining(data, opts, id, code.value, rate.value.value);
  }

  /** The steps after the commission rate, with the two loops. */
  method NormalizeRemaining(data: map<string, JsValue>, opts: Options, id: string, code: string, rate: real)
    returns (r: Result<Payload, string>)
    ensures r == NormalizeRest(data, opts, id, code, rate)
  {
    var totalEarn := OptionalNumber(Field(data, "totalEarn"));
    if totalEarn.Err? {
      return Err(totalEarn.error);
    }
    if totalEarn.value.Some? && Negative(totalEarn.value.value) {
      return Err(ERR_TOTAL_EARN);
    }
    var kind := EnsureEnum(Field(data, "type"), TYPE_OPTIONS, "类型");
    if kind.Err? {
      return Err(kind.error);
    }
    var level := EnsureEnum(Field(data, "level"), LEVEL_OPTIONS, "等级");
    if level.Err? {
      return Err(level.error);
    }
    var sex := EnsureEnum(Field(data, "sex"), SEX_OPTIONS, "性别");
    if sex.Err? {
      return Err(sex.error);
    }
    var peiwanId := PeiwanIdOf(data, opts.allowPeiwanId);
    if peiwanId.Err? {
      return Err(peiwanId.error);
    }
    var quotations := ReadQuotations(data);
    if quotations.Err? {
      return Err(quotations.error);
    }
    var tags := CopyGameTags(EnsureObject(Field(data, "gameTags")));
    r := Ok(Payload(id, peiwanId.value, code, rate, totalEarn.value, MpUrlOf(data),
                    OptionalEnum(Field(data, "status"), STATUS_OPTIONS), kind.value, level.value, sex.value,
                    BoolOr(Field(data, "techTag"), false), BoolOr(Field(data, "exclusive"), false),
                    quotations.value, tags));
  }

  /** The loop over the price columns: the first present, non-blank column that is not a
      number stops it. */
  method ReadQuotations(data: map<string, JsValue>) returns (r: Result<map<string, Num>, string>)
    ensures r.Err? <==> exists f :: f in QUOTATION_FIELDS && BadQuotation(data, f)
    ensures r.Err? ==> r.error == ERR_QUOTATION
    ensures r.Ok? ==> r.value == QuotationValues(data)
  {
    var quotations: map<string, Num> := map[];
    for i := 0 to |QUOTATION_FIELDS|
      invariant forall f :: f in quotations <==> f in QUOTATION_FIELDS[..i] && f in data && !Blank(data[f])
      invariant forall f :: f in quotations ==> quotations[f] == ToNumber(data[f])
      invariant forall f :: f in QUOTATION_FIELDS[..i] ==> !BadQuotation(data, f)
    {
      var field := QUOTATION_FIELDS[i];
      if field in data {
        var numeric := OptionalNumber(data[field]);
        if numeric.Err? {
          assert BadQuotation(data, field);
          return Err(numeric.error);
        }
        if numeric.value.Some? {
          quotations := quotations[field := numeric.value.value];
        }
      }
      assert QUOTATION_FIELDS[..i + 1] == QUOTATION_FIELDS[..i] + [field];
    }
    assert QUOTATION_FIELDS[..|QUOTATION_FIELDS|] == QUOTATION_FIELDS;
    r := Ok(quotations);
  }

  /** The loop over the game tags: the known tags given as booleans are copied. */
  method CopyGameTags(tagsInput: map<string, JsValue>) returns (tags: map<string, bool>)
    ensures tags == KnownTags(tagsInput)
  {
    tags := map[];
    for i := 0 to |GAME_TAGS|
      invariant forall t :: t in tags <==> t in GAME_TAGS[..i] && Field(tagsInput, t).Bool?
      invariant forall t :: t in tags ==> tags[t] == Field(tagsInput, t).b
    {
      var tag := GAME_TAGS[i];
      if Field(tagsInput, tag).Bool? {
        tags := tags[tag := Field(tagsInput, tag).b];
      }
      assert GAME_TAGS[..i + 1] == GAME_TAGS[..i] + [tag];
    }
    assert GAME_TAGS[..|GAME_TAGS|] == GAME_TAGS;
    assert tags.Keys == KnownTags(tagsInput).Keys;
  }

  /** The columns every row gets, plus `status` and `totalEarn` when present. */
  const FIXED_COLUMNS: set<string> :=
    {"defaultQuotationCode", "commissionRate", "MP_url", "type", "level", "sex", "techTag", "exclusive", "status",
     "totalEarn"}

  /** `buildPeiwanDataObject`: the fixed columns, then the price columns as text, then
      the tags. */
  function DataObject(p: Payload): (cells: map<string, Cell>)
    ensures forall k :: k in cells ==> k in FIXED_COLUMNS || k in QUOTATION_FIELDS || k in GAME_TAGS
  {
    FixedCells(p) + PriceCells(p.quotationValues) + TagCells(p.gameTags)
  }

  /** The columns before the spreads: `status` only when set, `totalEarn` only when
      defined, `MP_url` null when absent, numbers as their text. */
  function FixedCells(p: Payload): (cells: map<string, Cell>)
    ensures cells.Keys <= FIXED_COLUMNS
    ensures "defaultQuotationCode" in cells && cells["defaultQuotationCode"] == CellText(p.defaultQuotationCode)
    ensures "commissionRate" in cells && cells["commissionRate"] == CellNumberText(Finite(p.commissionRate))
    ensures "MP_url" in cells && cells["MP_url"] == (if p.mpUrl.Some? then CellText(p.mpUrl.value) else CellNull)
    ensures "type" in cells && cells["type"] == CellText(p.kind)
    ensures "level" in cells && cells["level"] == CellText(p.level)
    ensures "sex" in cells && cells["sex"] == CellText(p.sex)
    ensures "techTag" in cells && cells["techTag"] == CellBool(p.techTag)
    ensures "exclusive" in cells && cells["exclusive"] == CellBool(p.exclusive)
    ensures "status" in cells <==> p.status.Some? && p.status.value != []
    ensures p.status.Some? && p.status.value != [] ==> cells["status"] == CellText(p.status.value)
    ensures "totalEarn" in cells <==> p.totalEarn.Some?
    ensures p.totalEarn.Some? ==> cells["totalEarn"] == CellNumberText(p.totalEarn.value)
  {
    var base := map[
      "defaultQuotationCode" := CellText(p.defaultQuotationCode),
      "commissionRate" := CellNumberText(Finite(p.commissionRate)),
      "MP_url" := (if p.mpUrl.Some? then CellText(p.mpUrl.value) else CellNull),
      "type" := CellText(p.kind),
      "level" := CellText(p.level),
      "sex" := CellText(p.sex),
      "techTag" := CellBool(p.techTag),
      "exclusive" := CellBool(p.exclusive)];
    var withStatus := if p.status.Some? && p.status.value != [] then base["status" := CellText(p.status.value)] else base;
    if p.totalEarn.Some? then withStatus["totalEarn" := CellNumberText(p.totalEarn.value)] else withStatus
  }

  /** The spread of the prices: each known price column as its number's text. */
  function PriceCells(values: map<string, Num>): map<string, Cell> {
    map f | f in values && f in QUOTATION_FIELDS :: CellNumberText(values[f])
  }

  /** The spread of the tags: each known tag as a boolean column. */
  function TagCells(tags: map<string, bool>): map<string, Cell> {
    map t | t in tags && t in GAME_TAGS :: CellBool(tags[t])
  }

  /** `buildPeiwanDataObject` with its two loops: the prices are copied as text, then the
      tags, and both are spread after the fixed columns. */
  method BuildPeiwanDataObject(p: Payload) returns (cells: map<string, Cell>)
    ensures cells == DataObject(p)
  {
    var quotationData := CopyPrices(p.quotationValues);
    var tagData := CopyTags(p.gameTags);
    cells := FixedCells(p) + quotationData + tagData;
  }

  /** The first loop: each price of the profile as its text. */
  method CopyPrices(values: map<string, Num>) returns (quotationData: map<string, Cell>)
    ensures quotationData == PriceCells(values)
  {
    quotationData := map[];
    for i := 0 to |QUOTATION_FIELDS|
      invariant quotationData == map f | f in values && f in QUOTATION_FIELDS[..i] :: CellNumberText(values[f])
    {
      var field := QUOTATION_FIELDS[i];
      if field in values {
        quotationData := quotationData[field := CellNumberText(values[field])];
      }
      assert QUOTATION_FIELDS[..i + 1] == QUOTATION_FIELDS[..i] + [field];
    }
    assert QUOTATION_FIELDS[..|QUOTATION_FIELDS|] == QUOTATION_FIELDS;
  }

  /** The second loop: each known tag the profile sets. */
  method CopyTags(tags: map<string, bool>) returns (tagData: map<string, Cell>)
    ensures tagData == TagCells(tags)
  {
    tagData := map[];
    for i := 0 to |GAME_TAGS|
      invariant forall t :: t in tagData <==> t in tags && t in GAME_TAGS[..i]
      invariant forall t :: t in tagData ==> tagData[t] == CellBool(tags[t])
    {
      var tag := GAME_TAGS[i];
      if tag in tags {
        tagData := tagData[tag := CellBool(tags[tag])];
      }
      assert GAME_TAGS[..i + 1] == GAME_TAGS[..i] + [tag];
    }
    assert GAME_TAGS[..|GAME_TAGS|] == GAME_TAGS;
    assert tagData.Keys == TagCells(tags).Keys;
  }

  /** Neither spread overwrites a fixed column: the row holds each field of the profile
      in its own column. */
  lemma DataObjectColumns(p: Payload)
    ensures forall k :: k in FixedCells(p) ==> k in DataObject(p) && DataObject(p)[k] == FixedCells(p)[k]
    ensures forall k :: k in FIXED_COLUMNS ==> (k in DataObject(p) <==> k in FixedCells(p))
  {
    NamesApart();
  }

  /** The price columns and the tags of the profile are columns of the row. */
  lemma DataObjectSpreads(p: Payload)
    ensures var cells := DataObject(p);
      && (forall f :: f in QUOTATION_FIELDS ==> (f in cells <==> f in p.quotationValues))
      && (forall f :: f in QUOTATION_FIELDS && f in p.quotationValues ==> cells[f] == CellNumberText(p.quotationValues[f]))
      && (forall t :: t in GAME_TAGS ==> (t in cells <==> t in p.gameTags))
      && (forall t :: t in GAME_TAGS && t in p.gameTags ==> cells[t] == CellBool(p.gameTags[t]))
  {
    NamesApart();
    PriceColumns(p);
    TagColumns(p);
  }

  lemma PriceColumns(p: Payload)
    requires forall f :: f in QUOTATION_FIELDS ==> f !in GAME_TAGS && f !in FIXED_COLUMNS
    ensures var cells := DataObject(p);
      && (forall f :: f in QUOTATION_FIELDS ==> (f in cells <==> f in p.quotationValues))
      && (forall f :: f in QUOTATION_FIELDS && f in p.quotationValues ==> cells[f] == CellNumberText(p.quotationValues[f]))
  {
    var fixed, prices, tags := FixedCells(p), PriceCells(p.quotationValues), TagCells(p.gameTags);
    forall f | f in QUOTATION_FIELDS
      ensures f in DataObject(p) <==> f in p.quotationValues
      ensures f in p.quotationValues ==> DataObject(p)[f] == CellNumberText(p.quotationValues[f])
    {
      assert f !in fixed && f !in tags;
    }
  }

  lemma TagColumns(p: Payload)
    requires forall f :: f in QUOTATION_FIELDS ==> f !in GAME_TAGS
    requires forall t :: t in GAME_TAGS ==> t !in FIXED_COLUMNS
    ensures var cells := DataObject(p);
      && (forall t :: t in GAME_TAGS ==> (t in cells <==> t in p.gameTags))
      && (forall t :: t in GAME_TAGS && t in p.gameTags ==> cells[t] == CellBool(p.gameTags[t]))
  {
    var fixed, prices, tags := FixedCells(p), PriceCells(p.quotationValues), TagCells(p.gameTags);
    forall t | t in GAME_TAGS
      ensures t in DataObject(p) <==> t in p.gameTags
      ensures t in p.gameTags ==> DataObject(p)[t] == CellBool(p.gameTags[t])
    {
      assert t !in fixed && t !in prices;
    }
  }

  /** The fixed columns, the price columns and the game tags are three disjoint sets of
      names: a price column is twelve characters long, no fixed column is, and each tag
      differs from every fixed column. */
  lemma NamesApart()
    ensures forall f :: f in QUOTATION_FIELDS ==> f !in GAME_TAGS && f !in FIXED_COLUMNS
    ensures forall t :: t in GAME_TAGS ==> t !in FIXED_COLUMNS
  {
    forall f | f in QUOTATION_FIELDS
      ensures f !in GAME_TAGS && f !in FIXED_COLUMNS
    {
      assert |f| == 12;
    }
    forall t | t in GAME_TAGS
      ensures t !in FIXED_COLUMNS
    {
      TagNotFixed(t);
    }
  }

  lemma TagNotFixed(t: string)
    requires t in GAME_TAGS
    ensures t !in FIXED_COLUMNS
  {
    FirstTagsNotFixed();
    LastTagsNotFixed();
  }

  lemma FirstTagsNotFixed()
    ensures "LOL" !in FIXED_COLUMNS && "CSGO" !in FIXED_COLUMNS && "Valorant" !in FIXED_COLUMNS
    ensures "Naraka" !in FIXED_COLUMNS && "OW2" !in FIXED_COLUMNS && "APEX" !in FIXED_COLUMNS
    ensures "deltaForce" !in FIXED_COLUMNS && "marvel" !in FIXED_COLUMNS
  {
  }

  lemma LastTagsNotFixed()
    ensures "singer" !in FIXED_COLUMNS && "PUBG" !in FIXED_COLUMNS && "TFT" !in FIXED_COLUMNS
    ensures "R6" !in FIXED_COLUMNS && "tarkov" !in FIXED_COLUMNS && "chat" !in FIXED_COLUMNS
    ensures "steam" !in FIXED_COLUMNS && "DOTA" !in FIXED_COLUMNS && "COD" !in FIXED_COLUMNS
  {
  }
}
