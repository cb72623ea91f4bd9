/** JavaScript values as they arrive in parsed JSON request bodies and query strings,
    and the coercions the source applies to them: optional property access, truthiness,
    `Number(v)`, `Number.isInteger`, and `Number.parseInt(s, 10)`. */
module Js {
  import opened Wrappers
  import opened Text
  import opened Money

  /** A value produced by `JSON.parse`, plus `undefined` for a missing property. */
  datatype JsValue =
    | Undefined
    | Null
    | Bool(b: bool)
    | Number(n: Num)
    | Str(s: string)
    | Arr(items: seq<JsValue>)
    | Obj(fields: map<string, JsValue>)

  /** `v?.[key]`: the property of an object, `undefined` for anything else. */
  function Prop(v: JsValue, key: string): (r: JsValue)
    ensures v.Obj? && key in v.fields ==> r == v.fields[key]
    ensures !(v.Obj? && key in v.fields) ==> r == Undefined
  {
    if v.Obj? && key in v.fields then v.fields[key] else Undefined
  }

  /** `value === null || value === undefined`, the test behind `??`. */
  predicate IsNullish(v: JsValue) {
    v.Undefined? || v.Null?
  }

  /** Whether `if (v)` takes its branch. */
  predicate Truthy(v: JsValue) {
    match v
    case Undefined => false
    case Null => false
    case Bool(b) => b
    case Number(n) => n.Infinite? || (n.Finite? && n.value != 0.0)
    case Str(s) => s != []
    case Arr(_) => true
    case Obj(_) => true
  }

  /** The value of a numeric literal `Number` accepts other than the infinities: a
      `0x`, `0o` or `0b` integer without a sign, or a decimal literal. */
  function NumericLiteral(t: string): Option<real> {
    match PrefixedInteger(t)
    case Some(n) => Some(n as real)
    case None => ParseDecimal(t)
  }

  /** `Number(s)` for a string: surrounding white space is ignored, the empty string is
      0, `Infinity` may carry a sign, a numeric literal is its value, and anything else
      is NaN. */
  function StringToNumber(s: string): (r: Num)
    ensures Trim(s) == [] ==> r == Finite(0.0)
    ensures Trim(s) != [] ==> (r.Finite? <==> NumericLiteral(Trim(s)).Some?)
    ensures Trim(s) != [] && r.Finite? ==> NumericLiteral(Trim(s)) == Some(r.value)
    ensures r.Infinite? <==> Trim(s) in {"Infinity", "+Infinity", "-Infinity"}
  {
    TrimmedToNumber(Trim(s))
  }

  /** `Number` of text without surrounding white space. */
  function TrimmedToNumber(t: string): (r: Num)
    ensures t == [] ==> r == Finite(0.0)
    ensures t != [] ==> (r.Finite? <==> NumericLiteral(t).Some?)
    ensures t != [] && r.Finite? ==> NumericLiteral(t) == Some(r.value)
    ensures r.Infinite? <==> t in {"Infinity", "+Infinity", "-Infinity"}
  {
    if t == [] then Finite(0.0)
    else if t == "Infinity" || t == "+Infinity" then Infinite(true)
    else if t == "-Infinity" then Infinite(false)
    else match NumericLiteral(t)
      case Some(v) => Finite(v)
      case None => NaN
  }

  /** `Number("0x10")` is 16, while a sign in front of a radix prefix makes it NaN. */
  lemma StringToNumberHex()
    ensures StringToNumber("0x10") == Finite(16.0)
    ensures StringToNumber("-0x10") == NaN
  {
    HexExamples();
    NumberOfLiteral("0x10");
    SignedRadixIsNaN("-0x10");
  }

  /** `Number("0B101")` is 5. */
  lemma StringToNumberBinary()
    ensures StringToNumber("0B101") == Finite(5.0)
  {
    BinaryExample();
    NumberOfLiteral("0B101");
  }

  /** "0b2" has a digit that binary lacks, so `Number` makes it NaN. */
  lemma StringToNumberBadBinary()
    ensures StringToNumber("0b2") == NaN
  {
    PrefixedIntegerRejects();
    PrefixedNotDecimal("0b2");
    NumberOfNonLiteral("0b2");
  }

  /** Text without white space at its ends that is a numeric literal converts to its value. */
  lemma NumberOfLiteral(s: string)
    requires NoSpaceAtEnds(s) && NumericLiteral(s).Some?
    ensures StringToNumber(s) == Finite(NumericLiteral(s).value)
  {
    TrimPlain(s);
  }

  /** Text without white space at its ends that is neither empty, an infinity nor a numeric
      literal converts to NaN. */
  lemma NumberOfNonLiteral(s: string)
    requires NoSpaceAtEnds(s) && s != [] && NumericLiteral(s).None?
    requires s != "Infinity" && s != "+Infinity" && s != "-Infinity"
    ensures StringToNumber(s) == NaN
  {
    TrimPlain(s);
  }

  /** A sign before a radix integer is not part of any numeric literal. */
  lemma SignedRadixIsNaN(s: string)
    requires s == "-0x10"
    ensures StringToNumber(s) == NaN
  {
    PrefixedNotDecimal(s);
    assert StripSign(s) == "0x10";
    assert !IsPrefixedInteger(s);
    NumberOfNonLiteral(s);
  }

  /** `Number(v)`. An array converts through its `join(",")` text: `[]` is 0, a single
      element converts as its own text does, and two or more elements always contain a
      comma and are NaN. An object's text is "[object Object]", which is NaN. */
  function ToNumber(v: JsValue): (r: Num)
    ensures v.Str? ==> r == StringToNumber(v.s)
    ensures v.Undefined? || v.Obj? || (v.Arr? && |v.items| > 1) ==> r == NaN
    ensures v.Arr? && |v.items| == 1 && v.items[0].Str? ==> r == StringToNumber(v.items[0].s)
  {
    match v
    case Undefined => NaN
    case Null => Finite(0.0)
    case Bool(b) => Finite(if b then 1.0 else 0.0)
    case Number(n) => n
    case Str(s) => StringToNumber(s)
    case Arr(items) =>
      if |items| == 0 then Finite(0.0)
      else if |items| == 1 then
        (if IsNullish(items[0]) then Finite(0.0) else if items[0].Bool? || items[0].Obj? then NaN
         else ToNumber(items[0]))
      else NaN
    case Obj(_) => NaN
  }

  /** `Number.isInteger(n)` */
  predicate IsInteger(n: Num) {
    n.Finite? && n.value.Floor as real == n.value
  }

  /** `Number.parseInt(s, 10)`: leading white space, an optional sign and the longest run of
      digits after it; NaN (`None`) when there are no digits. */
  function ParseInt(s: string): (r: Option<int>)
    ensures r.Some? <==> SpanDigits(StripSign(TrimStart(s))) > 0
  {
    var t := TrimStart(s);
    var u := StripSign(t);
    var n := SpanDigits(u);
    if n == 0 then None
    else
      var magnitude: int := DigitsValue(u[..n]);
      Some(if t[0] == '-' then -magnitude else magnitude)
  }

  /** A natural number's decimal text parses back to the number. */
  lemma ParseIntDigits(n: nat)
    ensures ParseInt(NatToDigits(n)) == Some(n)
  {
    var s := NatToDigits(n);
    assert TrimStart(s) == s;
    assert StripSign(s) == s;
    SpanDigitsOf(s, "");
    assert s + "" == s;
    assert s[..|s|] == s;
  }

  /** The decimal text of a natural number converts back to that number. */
  lemma StringToNumberDigits(n: nat)
    ensures StringToNumber(NatToDigits(n)) == Finite(n as real)
  {
    var s := NatToDigits(n);
    DigitsTrim(s);
    ParseDigits(s);
    assert s != "Infinity" && s != "+Infinity" && s != "-Infinity" by {
      assert IsDigit(s[0]);
    }
  }
}
