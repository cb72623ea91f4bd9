/** Amounts of money as the source handles them with decimal.js (`Prisma.Decimal`) and
    JavaScript numbers: rounding to two decimal places with ROUND_HALF_UP (a tie goes
    away from zero), `toFixed(2)` text, and reading a decimal literal back. Amounts are
    exact reals here. */
module Money {
  import opened Wrappers
  import opened Text

  /** A number as JavaScript and decimal.js know it: finite, an infinity, or NaN. */
  datatype Num = Finite(value: real) | Infinite(positive: bool) | NaN {
    predicate IsFinite() { Finite? }
  }

  function Abs(x: real): real {
    if x < 0.0 then -x else x
  }

  function Min(a: real, b: real): real {
    if a <= b then a else b
  }

  /** `x` in hundredths, rounded to the nearest whole hundredth with ties going away from
      zero: the rounding of `toDecimalPlaces(2)`, `toFixed(2)` in decimal.js, and
      `Number.prototype.toFixed(2)` on the exact value. */
  function Cents(x: real): (c: int)
    ensures -0.5 <= x * 100.0 - c as real <= 0.5
    ensures x * 100.0 - c as real == 0.5 ==> x < 0.0
    ensures c as real - x * 100.0 == 0.5 ==> x > 0.0
  {
    if x >= 0.0 then (x * 100.0 + 0.5).Floor else -((-x * 100.0 + 0.5).Floor)
  }

  /** `x` rounded to two decimal places, ROUND_HALF_UP. */
  function Round2(x: real): (r: real)
    ensures -0.005 <= r - x <= 0.005
  {
    Cents(x) as real / 100.0
  }

  /** An amount that already has at most two decimals is left unchanged. */
  lemma CentsExact(c: int)
    ensures Cents(c as real / 100.0) == c
  {
    var x := c as real / 100.0;
    assert x * 100.0 == c as real;
    if c >= 0 {
      assert (x * 100.0 + 0.5).Floor == c;
    } else {
      assert (-x * 100.0 + 0.5).Floor == -c;
    }
  }

  lemma Round2Idempotent(x: real)
    ensures Round2(Round2(x)) == Round2(x)
  {
    CentsExact(Cents(x));
  }

  /** Rounding never reverses the order of two amounts. */
  lemma CentsMonotone(x: real, y: real)
    requires x <= y
    ensures Cents(x) <= Cents(y)
  {
    if 0.0 <= x {
      assert x * 100.0 + 0.5 <= y * 100.0 + 0.5;
    } else if y < 0.0 {
      assert -y * 100.0 + 0.5 <= -x * 100.0 + 0.5;
    }
  }

  /** Rounding keeps the sign: a non-negative amount rounds to a non-negative one. */
  lemma CentsSign(x: real)
    ensures x >= 0.0 ==> Cents(x) >= 0
    ensures x <= 0.0 ==> Cents(x) <= 0
  {
  }

  /** The length of the longest prefix of `s` made of decimal digits. */
  function SpanDigits(s: string): (n: nat)
    ensures n <= |s| && AllDigits(s[..n]) && (n == |s| || !IsDigit(s[n]))
  {
    if s != [] && IsDigit(s[0]) then
      var m := SpanDigits(s[1..]);
      assert s[..m + 1] == [s[0]] + s[1..][..m];
      m + 1
    else 0
  }

  lemma {:induction false} SpanDigitsOf(d: string, rest: string)
    requires AllDigits(d)
    requires rest == [] || !IsDigit(rest[0])
    ensures SpanDigits(d + rest) == |d|
  {
    if d != [] {
      assert (d + rest)[1..] == d[1..] + rest;
      SpanDigitsOf(d[1..], rest);
    }
  }

  /** A decimal literal, `[+-]? (digits [. digits?] | . digits) ([eE] [+-]? digits)?`,
      split into its parts. */
  datatype Numeral = Numeral(negative: bool, whole: string, fraction: string,
                             expNegative: bool, exponent: string)
  {
    predicate WellFormed() {
      AllDigits(whole) && AllDigits(fraction) && AllDigits(exponent) && (whole != [] || fraction != [])
    }

    function Value(): real
      requires WellFormed()
    {
      var mantissa := DigitsValue(whole) as real
        + DigitsValue(fraction) as real / Pow10(|fraction|) as real;
      var e := Pow10(DigitsValue(exponent)) as real;
      var magnitude := if expNegative then mantissa / e else mantissa * e;
      if negative then -magnitude else magnitude
    }
  }

  function StripSign(s: string): (u: string)
    ensures |u| <= |s| && (u == s || (s != [] && u == s[1..]))
  {
    if s != [] && (s[0] == '-' || s[0] == '+') then s[1..] else s
  }

  /** Splits what follows the integer digits into the fraction digits after a dot
      (empty when there is no dot) and the rest. */
  function ScanFraction(afterWhole: string): (r: (string, string))
    ensures AllDigits(r.0)
  {
    if afterWhole != [] && afterWhole[0] == '.' then
      var rest := afterWhole[1..];
      var f := SpanDigits(rest);
      (rest[..f], rest[f..])
    else ("", afterWhole)
  }

  /** Reads the optional exponent part that ends a decimal literal. */
  function ScanExponent(tail: string): (r: Option<(bool, string)>)
    ensures r.Some? ==> AllDigits(r.value.1)
  {
    if tail == [] then Some((false, ""))
    else if tail[0] == 'e' || tail[0] == 'E' then
      var t := tail[1..];
      var digits := StripSign(t);
      if digits != [] && AllDigits(digits) then Some((t != [] && t[0] == '-', digits)) else None
    else None
  }

  /** Reads a decimal literal; `None` when `s` is not one. This is the grammar both
      `Number(s)` (after trimming) and `new Decimal(s)` accept for finite decimals. */
  function ScanNumeral(s: string): (r: Option<Numeral>)
    ensures r.Some? ==> r.value.WellFormed() && r.value.negative == (s != [] && s[0] == '-')
  {
    var u := StripSign(s);
    var i := SpanDigits(u);
    var (fraction, tail) := ScanFraction(u[i..]);
    if i == 0 && fraction == [] then None
    else match ScanExponent(tail)
      case None => None
      case Some((expNegative, exponent)) =>
        Some(Numeral(s != [] && s[0] == '-', u[..i], fraction, expNegative, exponent))
  }

  /** A decimal literal begins, after its sign, with a digit or a dot. */
  lemma ScanNumeralStart(s: string)
    requires ScanNumeral(s).Some?
    ensures StripSign(s) != [] && (IsDigit(StripSign(s)[0]) || StripSign(s)[0] == '.')
  {
    var u := StripSign(s);
    if SpanDigits(u) == 0 {
      assert ScanFraction(u).0 != [];
    }
  }

  /** The value of a decimal literal, if `s` is one. */
  function ParseDecimal(s: string): (r: Option<real>)
    ensures r.Some? <==> ScanNumeral(s).Some?
  {
    match ScanNumeral(s)
    case Some(n) => Some(n.Value())
    case None => None
  }

  /** A digit of base `radix` (2, 8 or 16); the hexadecimal letters in either case. */
  predicate IsRadixDigit(c: char, radix: nat) {
    if radix == 16 then IsDigit(c) || 'a' <= c <= 'f' || 'A' <= c <= 'F'
    else '0' <= c && c as int < '0' as int + radix
  }

  function RadixDigitValue(c: char, radix: nat): (v: nat)
    requires radix == 2 || radix == 8 || radix == 16
    requires IsRadixDigit(c, radix)
    ensures v < radix
  {
    if 'a' <= c <= 'f' then c as int - 'a' as int + 10
    else if 'A' <= c <= 'F' then c as int - 'A' as int + 10
    else c as int - '0' as int
  }

  predicate AllRadixDigits(d: string, radix: nat) {
    forall i :: 0 <= i < |d| ==> IsRadixDigit(d[i], radix)
  }

  /** The whole number that base-`radix` digits spell, most significant digit first. */
  function RadixValue(d: string, radix: nat): nat
    requires radix == 2 || radix == 8 || radix == 16
    requires AllRadixDigits(d, radix)
  {
    if d == [] then 0
    else RadixValue(d[..|d| - 1], radix) * radix + RadixDigitValue(d[|d| - 1], radix)
  }

  /** The base that the letter after a leading `0` names: `x`, `o` or `b` in either case;
      0 for any other character. */
  function RadixOf(c: char): nat {
    if c == 'x' || c == 'X' then 16
    else if c == 'o' || c == 'O' then 8
    else if c == 'b' || c == 'B' then 2
    else 0
  }

  /** `0x`, `0o` or `0b` and at least one digit of that base, with no sign. */
  predicate IsPrefixedInteger(t: string) {
    |t| >= 3 && t[0] == '0' && RadixOf(t[1]) != 0 && AllRadixDigits(t[2..], RadixOf(t[1]))
  }

  /** The non-decimal integer forms that `Number(s)` and `new Decimal(s)` both accept
      besides decimal literals, read as the whole number they spell. They never read as a
      decimal literal too, so the two readings cannot disagree. */
  function PrefixedInteger(t: string): (r: Option<nat>)
    ensures r.Some? <==> IsPrefixedInteger(t)
    ensures r.Some? ==> ParseDecimal(t).None?
  {
    if IsPrefixedInteger(t) then
      PrefixedNotDecimal(t);
      Some(RadixValue(t[2..], RadixOf(t[1])))
    else None
  }

  /** After `0`, the prefix letter stops the whole digits, is not a dot and is not an
      exponent mark, so no decimal literal starts with a radix prefix, signed or not. */
  lemma PrefixedNotDecimal(t: string)
    ensures var u := StripSign(t);
      |u| >= 2 && u[0] == '0' && RadixOf(u[1]) != 0 ==> ScanNumeral(t).None?
  {
    var u := StripSign(t);
    if |u| >= 2 && u[0] == '0' && RadixOf(u[1]) != 0 {
      assert SpanDigits(u) == 1 by {
        assert SpanDigits(u[1..]) == 0;
      }
      assert ScanFraction(u[1..]) == ("", u[1..]);
      assert ScanExponent(u[1..]).None?;
    }
  }

  /** `0x10` is sixteen and `0xfF` is 255: hexadecimal letters count in either case. */
  lemma HexExamples()
    ensures PrefixedInteger("0x10") == Some(16)
    ensures PrefixedInteger("0xfF") == Some(255)
  {
    OneDigit('1', 16);
    assert "0x10"[2..] == "10" && "10"[..1] == "1";
    assert IsPrefixedInteger("0x10");
    OneDigit('f', 16);
    assert "0xfF"[2..] == "fF" && "fF"[..1] == "f";
    assert IsPrefixedInteger("0xfF");
  }

  /** `0o17` is fifteen. */
  lemma OctalExample()
    ensures PrefixedInteger("0o17") == Some(15)
  {
    OneDigit('1', 8);
    assert "0o17"[2..] == "17" && "17"[..1] == "1";
    assert IsPrefixedInteger("0o17");
  }

  /** `0B101` is five. */
  lemma BinaryExample()
    ensures PrefixedInteger("0B101") == Some(5)
  {
    OneDigit('1', 2);
    assert "0B101"[2..] == "101" && "101"[..2] == "10" && "10"[..1] == "1";
    assert RadixValue("10", 2) == 2;
    assert IsPrefixedInteger("0B101");
  }

  /** A prefix with no digits, or with a digit its base does not have, is no number. */
  lemma PrefixedIntegerRejects()
    ensures PrefixedInteger("0x") == None
    ensures PrefixedInteger("0b12") == None
  {
    assert "0b12"[2..][1] == '2';
  }

  lemma OneDigit(c: char, radix: nat)
    requires radix == 2 || radix == 8 || radix == 16
    requires IsRadixDigit(c, radix)
    ensures RadixValue([c], radix) == RadixDigitValue(c, radix)
  {
    assert [c][..0] == [];
  }

  /** `new Decimal(s)`: after an optional sign, a decimal literal, a `0x`, `0o` or `0b`
      integer, `Infinity` or `NaN`; anything else makes the constructor throw (`None`). */
  function DecimalFromString(s: string): (r: Option<Num>)
    ensures r == Some(NaN) <==> StripSign(s) == "NaN"
    ensures (r.Some? && r.value.Infinite?) <==> StripSign(s) == "Infinity"
    ensures ParseDecimal(s).Some? ==> r == Some(Finite(ParseDecimal(s).value))
    ensures PrefixedInteger(StripSign(s)).Some? ==>
      var n := PrefixedInteger(StripSign(s)).value as real;
      r == Some(Finite(if s[0] == '-' then -n else n))
    ensures r.Some? && r.value.Finite? ==> ParseDecimal(s).Some? || PrefixedInteger(StripSign(s)).Some?
  {
    match ParseDecimal(s)
    case Some(v) =>
      DecimalIsNoOtherForm(s);
      Some(Finite(v))
    case None =>
      var u := StripSign(s);
      if u == "NaN" then Some(NaN)
      else if u == "Infinity" then Some(Infinite(!(s[0] == '-')))
      else match PrefixedInteger(u)
        case Some(n) => Some(Finite(if s[0] == '-' then -(n as real) else n as real))
        case None => None
  }

  /** A decimal literal, once its sign is off, is neither `NaN`, `Infinity` nor a radix
      integer, so the forms `new Decimal` reads never overlap. */
  lemma DecimalIsNoOtherForm(s: string)
    requires ParseDecimal(s).Some?
    ensures StripSign(s) != "NaN" && StripSign(s) != "Infinity" && PrefixedInteger(StripSign(s)).None?
  {
    ScanNumeralStart(s);
    PrefixedNotDecimal(s);
    assert "NaN"[0] == 'N' && "Infinity"[0] == 'I';
  }

  /** A sign in front of a radix integer applies to it, as `new Decimal("-0x10")` is -16. */
  lemma SignedHexExample()
    ensures DecimalFromString("-0x10") == Some(Finite(-16.0))
    ensures DecimalFromString("+0x10") == Some(Finite(16.0))
  {
    HexExamples();
    assert StripSign("-0x10") == "0x10" && StripSign("+0x10") == "0x10";
  }

  /** `d.toDecimalPlaces(2)`: finite values are rounded, the others kept. */
  function ToDecimalPlaces2(d: Num): (r: Num)
    ensures r.Finite? <==> d.Finite?
    ensures r.Finite? ==> r.value == Round2(d.value)
    ensures !d.Finite? ==> r == d
  {
    if d.Finite? then Finite(Round2(d.value)) else d
  }

  /** The digits of a non-negative number of hundredths, as `toFixed(2)` writes them. */
  function FormatCents(c: nat): (s: string)
    ensures |s| >= 4 && IsDigit(s[0]) && s[|s| - 3] == '.'
  {
    NatToDigits(c / 100) + ("." + Pad2(c % 100))
  }

  function Sign(negative: bool): string {
    if negative then "-" else ""
  }

  /** `x.toFixed(2)`: the rounded magnitude, with a minus sign when `x` is negative
      (so a small negative amount prints as "-0.00"). */
  function Fixed2(x: real): (r: string)
    ensures |r| >= 4 && r[|r| - 3] == '.'
    ensures r[0] == '-' <==> x < 0.0
  {
    var c := Cents(x);
    Sign(x < 0.0) + FormatCents(if x < 0.0 then -c else c)
  }

  lemma StripSignOf(negative: bool, body: string)
    requires body != [] && IsDigit(body[0])
    ensures StripSign(Sign(negative) + body) == body
  {
    if negative {
      assert (Sign(negative) + body)[1..] == body;
    }
  }

  lemma ScanFractionOf(p: string)
    requires AllDigits(p)
    ensures ScanFraction("." + p) == (p, [])
  {
    assert ("." + p)[1..] == p;
    SpanDigitsOf(p, "");
    assert p + "" == p;
  }

  /** A digit string, a dot and a digit string, signed or not, scans as those parts. */
  lemma ScanPlain(d: string, p: string, negative: bool)
    requires AllDigits(d) && AllDigits(p) && d != []
    ensures ScanNumeral(Sign(negative) + (d + ("." + p)))
      == Some(Numeral(negative, d, p, false, ""))
  {
    var body := d + ("." + p);
    StripSignOf(negative, body);
    SpanDigitsOf(d, "." + p);
    assert body[..|d|] == d;
    assert body[|d|..] == "." + p;
    ScanFractionOf(p);
  }

  /** The value of a plain numeral with a two-digit fraction. */
  lemma PlainValue(c: nat, negative: bool)
    ensures var n := Numeral(negative, NatToDigits(c / 100), Pad2(c % 100), false, "");
      n.WellFormed() && n.Value() == (if negative then -(c as real / 100.0) else c as real / 100.0)
  {
    var n := Numeral(negative, NatToDigits(c / 100), Pad2(c % 100), false, "");
    assert DigitsValue(n.exponent) == 0;
    assert Pow10(|n.fraction|) == 100;
    assert c as real == 100.0 * (c / 100) as real + (c % 100) as real;
  }

  /** `FormatCents(c)`, with a minus sign in front when `negative`, reads back as
      `c` hundredths with that sign. */
  lemma ScanFormatCents(c: nat, negative: bool)
    ensures ParseDecimal(Sign(negative) + FormatCents(c))
      == Some(if negative then -(c as real / 100.0) else c as real / 100.0)
  {
    ScanPlain(NatToDigits(c / 100), Pad2(c % 100), negative);
    PlainValue(c, negative);
  }

  /** The magnitude `toFixed(2)` prints is not negative. */
  lemma CentsMagnitude(x: real)
    ensures (if x < 0.0 then -Cents(x) else Cents(x)) >= 0
  {
    CentsSign(x);
  }

  /** The magnitude `toFixed(2)` prints, with its sign put back, is the rounded amount. */
  lemma SignedCents(x: real, k: nat)
    requires k == if x < 0.0 then -Cents(x) else Cents(x)
    ensures (if x < 0.0 then -(k as real / 100.0) else k as real / 100.0) == Round2(x)
  {
    CentsSign(x);
  }

  /** Reading back what `toFixed(2)` wrote gives the amount rounded to two places. */
  lemma Fixed2RoundTrip(x: real)
    ensures ParseDecimal(Fixed2(x)) == Some(Round2(x))
  {
    var negative := x < 0.0;
    CentsMagnitude(x);
    var k: nat := if negative then -Cents(x) else Cents(x);
    Fixed2Parts(x, k);
    var v := if negative then -(k as real / 100.0) else k as real / 100.0;
    SignedCents(x, k);
    assert v == Round2(x);
    ScanFormatCents(k, negative);
    assert ParseDecimal(Sign(negative) + FormatCents(k)) == Some(v);
  }

  /** `toFixed(2)` is the sign and the magnitude in cents. */
  lemma Fixed2Parts(x: real, k: nat)
    requires k == if x < 0.0 then -Cents(x) else Cents(x)
    ensures Fixed2(x) == Sign(x < 0.0) + FormatCents(k)
  {
  }

  /** `new Decimal(x.toFixed(2))` is the amount rounded to two places: the text never
      makes the constructor throw and is neither `NaN` nor an infinity. */
  lemma Fixed2DecimalRoundTrip(x: real)
    ensures DecimalFromString(Fixed2(x)) == Some(Finite(Round2(x)))
  {
    var negative := x < 0.0;
    CentsMagnitude(x);
    var k: nat := if negative then -Cents(x) else Cents(x);
    var body := FormatCents(k);
    Fixed2Parts(x, k);
    StripSignOf(negative, body);
    NotSpecialName(body);
    Fixed2RoundTrip(x);
  }

  lemma NotSpecialName(body: string)
    requires body != [] && IsDigit(body[0])
    ensures body != "NaN" && body != "Infinity"
  {
    assert "NaN"[0] == 'N' && "Infinity"[0] == 'I';
  }

  /** A plain string of digits scans as a whole part alone. */
  lemma ScanDigits(s: string)
    requires AllDigits(s) && s != []
    ensures ScanNumeral(s) == Some(Numeral(false, s, "", false, ""))
  {
    assert StripSign(s) == s;
    SpanDigitsOf(s, "");
    assert s + "" == s;
    assert s[..|s|] == s && s[|s|..] == "";
  }

  /** A plain string of digits is a decimal literal worth its digits. */
  lemma ParseDigits(s: string)
    requires AllDigits(s) && s != []
    ensures ParseDecimal(s) == Some(DigitsValue(s) as real)
  {
    ScanDigits(s);
    var num := Numeral(false, s, "", false, "");
    assert DigitsValue(num.exponent) == 0 && DigitsValue(num.fraction) == 0;
    assert Pow10(0) == 1;
  }
}
