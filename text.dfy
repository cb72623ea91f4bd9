/** String operations of JavaScript that the source relies on: white space and `trim`,
    `startsWith`, `split`/`join` on a one-character separator, case mapping,
    decimal digits, and the UTF-16 and UTF-8 lengths of a string. */
module Text {
  import opened Wrappers

  /** The characters JavaScript treats as white space (WhiteSpace and LineTerminator of
      ECMA-262): what `String.prototype.trim` removes and what the regular-expression
      class `\s` matches. */
  predicate IsSpace(c: char) {
    var n := c as int;
    n == 0x09 || n == 0x0A || n == 0x0B || n == 0x0C || n == 0x0D || n == 0x20
    || n == 0xA0 || n == 0x1680 || (0x2000 <= n <= 0x200A) || n == 0x2028 || n == 0x2029
    || n == 0x202F || n == 0x205F || n == 0x3000 || n == 0xFEFF
  }

  predicate NoSpaceAtEnds(s: string) {
    s == [] || (!IsSpace(s[0]) && !IsSpace(s[|s| - 1]))
  }

  /** The number of white-space characters `s` starts with. */
  function LeadingSpaces(s: string): (n: nat)
    ensures n <= |s|
    ensures forall i :: 0 <= i < n ==> IsSpace(s[i])
    ensures n < |s| ==> !IsSpace(s[n])
  {
    if s != [] && IsSpace(s[0]) then 1 + LeadingSpaces(s[1..]) else 0
  }

  /** The number of white-space characters `s` ends with. */
  function TrailingSpaces(s: string): (n: nat)
    ensures n <= |s|
    ensures forall i :: |s| - n <= i < |s| ==> IsSpace(s[i])
    ensures n < |s| ==> !IsSpace(s[|s| - n - 1])
  {
    if s != [] && IsSpace(s[|s| - 1]) then 1 + TrailingSpaces(s[..|s| - 1]) else 0
  }

  /** `s.trimStart()` */
  function TrimStart(s: string): (r: string)
    ensures |r| <= |s| && r == s[|s| - |r|..]
    ensures r == [] || !IsSpace(r[0])
    ensures forall i :: 0 <= i < |s| - |r| ==> IsSpace(s[i])
  {
    s[LeadingSpaces(s)..]
  }

  /** `s.trimEnd()` */
  function TrimEnd(s: string): (r: string)
    ensures |r| <= |s| && r == s[..|r|]
    ensures r == [] || !IsSpace(r[|r| - 1])
    ensures forall i :: |r| <= i < |s| ==> IsSpace(s[i])
  {
    s[..|s| - TrailingSpaces(s)]
  }

  /** `s.trim()`: the slice of `s` left after dropping white space, and only white space,
      from both ends. */
  function Trim(s: string): (r: string)
    ensures NoSpaceAtEnds(r)
    ensures var k := |s| - |TrimStart(s)|;
      && k + |r| <= |s| && r == s[k..k + |r|]
      && (forall i :: 0 <= i < k ==> IsSpace(s[i]))
      && (forall i :: k + |r| <= i < |s| ==> IsSpace(s[i]))
  {
    var k := |s| - |TrimStart(s)|;
    var t := TrimStart(s);
    var r := TrimEnd(t);
    assert t == s[k..];
    assert r == s[k..k + |r|];
    assert r != [] ==> r[0] == t[0];
    forall i | k + |r| <= i < |s|
      ensures IsSpace(s[i])
    {
      assert s[i] == t[i - k];
    }
    r
  }

  /** A string without white space at either end is its own trim, so trimming twice is
      trimming once. */
  lemma TrimIdempotent(s: string)
    ensures Trim(Trim(s)) == Trim(s)
  {
    TrimPlain(Trim(s));
  }

  /** Trimming leaves a string without white space at its ends as it is. */
  lemma TrimPlain(t: string)
    requires NoSpaceAtEnds(t)
    ensures Trim(t) == t
  {
    assert LeadingSpaces(t) == 0;
    assert TrimStart(t) == t[0..] == t;
    assert TrailingSpaces(t) == 0;
    assert TrimEnd(t) == t[..|t|] == t;
  }

  predicate StartsWith(s: string, prefix: string) {
    |prefix| <= |s| && s[..|prefix|] == prefix
  }

  predicate EndsWith(s: string, suffix: string) {
    |suffix| <= |s| && s[|s| - |suffix|..] == suffix
  }

  /** The first position of `c` in `s`. */
  function IndexOf(s: string, c: char): (i: nat)
    requires c in s
    ensures i < |s| && s[i] == c && c !in s[..i]
  {
    if s[0] == c then 0
    else
      var j := IndexOf(s[1..], c);
      assert s[..j + 1] == [s[0]] + s[1..][..j];
      j + 1
  }

  /** The last position of `c` in `s`. */
  function LastIndexOf(s: string, c: char): (i: nat)
    requires c in s
    ensures i < |s| && s[i] == c && c !in s[i + 1..]
  {
    if s[|s| - 1] == c then |s| - 1
    else
      var j := LastIndexOf(s[..|s| - 1], c);
      assert s[j + 1..] == s[..|s| - 1][j + 1..] + [s[|s| - 1]];
      j
  }

  /** `s.split(sep)` for a one-character separator: the pieces between separators, never
      an empty list ("".split(",") is [""]). */
  function Split(s: string, sep: char): (parts: seq<string>)
    ensures |parts| >= 1
    ensures forall i :: 0 <= i < |parts| ==> sep !in parts[i]
    decreases |s|
  {
    if sep in s then
      var i := IndexOf(s, sep);
      [s[..i]] + Split(s[i + 1..], sep)
    else [s]
  }

  /** `parts.join(sep)` */
  function Join(parts: seq<string>, sep: char): string
  {
    if |parts| == 0 then ""
    else if |parts| == 1 then parts[0]
    else parts[0] + [sep] + Join(parts[1..], sep)
  }

  /** Joining the pieces of a split gives the string back. */
  lemma {:induction false} JoinSplit(s: string, sep: char)
    ensures Join(Split(s, sep), sep) == s
    decreases |s|
  {
    if sep in s {
      var i := IndexOf(s, sep);
      var rest := s[i + 1..];
      JoinSplit(rest, sep);
      assert Split(s, sep) == [s[..i]] + Split(rest, sep);
      assert s == s[..i] + [sep] + rest;
    }
  }

  /** The first separator after a separator-free prefix is the one that ends it. */
  lemma {:induction false} IndexOfAfter(p: string, sep: char, rest: string)
    requires sep !in p
    ensures IndexOf(p + [sep] + rest, sep) == |p|
  {
    if p != [] {
      assert (p + [sep] + rest)[1..] == p[1..] + [sep] + rest;
      IndexOfAfter(p[1..], sep, rest);
    }
  }

  /** Splitting a join of separator-free pieces gives the pieces back. */
  lemma {:induction false} SplitJoin(parts: seq<string>, sep: char)
    requires |parts| >= 1
    requires forall i :: 0 <= i < |parts| ==> sep !in parts[i]
    ensures Split(Join(parts, sep), sep) == parts
  {
    if |parts| > 1 {
      var p := parts[0];
      var rest := Join(parts[1..], sep);
      var s := p + [sep] + rest;
      assert s[|p|] == sep;
      assert s[..|p|] == p;
      assert sep in s;
      IndexOfAfter(p, sep, rest);
      assert s[|p| + 1..] == rest;
      assert Join(parts, sep) == s;
      assert Split(s, sep) == [p] + Split(rest, sep);
      SplitJoin(parts[1..], sep);
      assert parts == [p] + parts[1..];
    } else {
      assert Join(parts, sep) == parts[0];
    }
  }

  function UpperChar(c: char): char {
    if 'a' <= c <= 'z' then (c as int - 32) as char else c
  }

  /** The lower case of one character as `toLowerCase` gives it for the characters whose
      lower case is ASCII: the ASCII capitals and the Kelvin sign U+212A. */
  function LowerChar(c: char): char {
    if 'A' <= c <= 'Z' then (c as int + 32) as char
    else if c == '\U{212A}' then 'k'
    else c
  }

  predicate IsAsciiChar(c: char) {
    c as int < 0x80
  }

  predicate IsAscii(s: string) {
    forall i :: 0 <= i < |s| ==> IsAsciiChar(s[i])
  }

  /** The characters outside ASCII whose upper case under `toUpperCase` is ASCII text:
      the sharp `ß`, the dotless `ı`, the long `ſ` and the Latin ligatures U+FB00 to U+FB06.
      Every other character outside ASCII has an upper case that holds a character outside
      ASCII. */
  function SpecialUpper(c: char): (r: Option<string>)
    ensures r.Some? ==> !IsAsciiChar(c) && IsAscii(r.value)
  {
    if c == '\U{DF}' then Some("SS")
    else if c == '\U{131}' then Some("I")
    else if c == '\U{17F}' then Some("S")
    else if c == '\U{FB00}' then Some("FF")
    else if c == '\U{FB01}' then Some("FI")
    else if c == '\U{FB02}' then Some("FL")
    else if c == '\U{FB03}' then Some("FFI")
    else if c == '\U{FB04}' then Some("FFL")
    else if c == '\U{FB05}' || c == '\U{FB06}' then Some("ST")
    else None
  }

  /** Whether the upper case of `c` is ASCII text. */
  predicate UpperIsAscii(c: char) {
    IsAsciiChar(c) || SpecialUpper(c).Some?
  }

  /** The upper case of one character: exact whenever it is ASCII text; any other character
      stays as it is, which like its true upper case holds a character outside ASCII. */
  function UpperText(c: char): (u: string)
    ensures u != []
    ensures IsAscii(u) <==> UpperIsAscii(c)
    ensures IsAsciiChar(c) ==> u == [UpperChar(c)]
  {
    if IsAsciiChar(c) then [UpperChar(c)]
    else match SpecialUpper(c)
      case Some(t) => t
      case None =>
        assert !IsAsciiChar([c][0]);
        [c]
  }

  /** `s.toUpperCase()`, character by character. The result is ASCII exactly when every
      character's upper case is, and then it is the true upper case; so comparing it with
      ASCII text answers as JavaScript does. ASCII text is upper-cased letter by letter. */
  function ToUpper(s: string): (r: string)
    ensures |r| >= |s|
    ensures IsAscii(r) <==> forall i :: 0 <= i < |s| ==> UpperIsAscii(s[i])
    ensures IsAscii(s) ==> |r| == |s| && forall i :: 0 <= i < |s| ==> r[i] == UpperChar(s[i])
  {
    if s == [] then []
    else
      var rest := ToUpper(s[1..]);
      AsciiConcat(UpperText(s[0]), rest);
      assert IsAscii(s) ==> IsAscii(s[1..]) by {
        if IsAscii(s) {
          forall i | 0 <= i < |s[1..]| ensures IsAsciiChar(s[1..][i]) {
            assert s[1..][i] == s[i + 1];
          }
        }
      }
      assert (forall i :: 0 <= i < |s| ==> UpperIsAscii(s[i]))
        <==> UpperIsAscii(s[0]) && (forall i :: 0 <= i < |s[1..]| ==> UpperIsAscii(s[1..][i])) by {
        if forall i :: 0 <= i < |s[1..]| ==> UpperIsAscii(s[1..][i]) {
          forall i | 1 <= i < |s| ensures UpperIsAscii(s[i]) {
            assert s[i] == s[1..][i - 1];
          }
        }
      }
      UpperText(s[0]) + rest
  }

  /** Upper-casing works piece by piece: the upper case of a concatenation is the
      concatenation of the upper cases. */
  lemma {:induction false} ToUpperConcat(a: string, b: string)
    ensures ToUpper(a + b) == ToUpper(a) + ToUpper(b)
  {
    if a == [] {
      assert a + b == b;
    } else {
      assert (a + b)[1..] == a[1..] + b;
      assert (a + b)[0] == a[0];
      ToUpperConcat(a[1..], b);
    }
  }

  /** A letter with an ASCII upper case inside other text is replaced by that upper case. */
  lemma ToUpperSpliced(a: string, c: char, b: string)
    requires SpecialUpper(c).Some?
    ensures ToUpper(a + ([c] + b)) == ToUpper(a) + (SpecialUpper(c).value + ToUpper(b))
  {
    ToUpperConcat(a, [c] + b);
    ToUpperConcat([c], b);
    assert [c][1..] == [];
    assert ToUpper([c]) == UpperText(c) + ToUpper([]);
  }

  /** The long `ſ` upper-cases to `S`: "trade_ſuccess" becomes TRADE_SUCCESS. */
  lemma LongSUpper(status: string, a: string, b: string)
    requires status == "trade_\U{17F}uccess" && a == "trade_" && b == "uccess"
    ensures ToUpper(status) == "TRADE_SUCCESS"
  {
    LongSParts(status, a, b);
    ToUpperSpliced(a, '\U{17F}', b);
    UpperOfAscii(a, "TRADE_");
    UpperOfAscii(b, "UCCESS");
    TradeSuccessParts(ToUpper(a), ToUpper(b));
  }

  lemma LongSParts(status: string, a: string, b: string)
    requires status == "trade_\U{17F}uccess" && a == "trade_" && b == "uccess"
    ensures status == a + (['\U{17F}'] + b)
  {
  }

  lemma TradeSuccessParts(x: string, y: string)
    requires x == "TRADE_" && y == "UCCESS"
    ensures x + ("S" + y) == "TRADE_SUCCESS"
  {
  }

  /** The dotless `ı` upper-cases to `I`: "peıwan" becomes PEIWAN. */
  lemma DotlessIUpper(text: string, a: string, b: string)
    requires text == "pe\U{131}wan" && a == "pe" && b == "wan"
    ensures ToUpper(text) == "PEIWAN"
  {
    DotlessIParts(text, a, b);
    ToUpperSpliced(a, '\U{131}', b);
    UpperOfAscii(a, "PE");
    UpperOfAscii(b, "WAN");
    PeiwanParts(ToUpper(a), ToUpper(b));
  }

  lemma DotlessIParts(text: string, a: string, b: string)
    requires text == "pe\U{131}wan" && a == "pe" && b == "wan"
    ensures text == a + (['\U{131}'] + b)
  {
  }

  lemma PeiwanParts(x: string, y: string)
    requires x == "PE" && y == "WAN"
    ensures x + ("I" + y) == "PEIWAN"
  {
  }

  lemma UpperOfAscii(s: string, u: string)
    requires || (s == "trade_" && u == "TRADE_") || (s == "uccess" && u == "UCCESS")
             || (s == "pe" && u == "PE") || (s == "wan" && u == "WAN")
    ensures ToUpper(s) == u
  {
    ToUpperAscii(s, u);
  }

  /** Upper-casing ASCII text is letter by letter. */
  lemma ToUpperAscii(s: string, u: string)
    requires IsAscii(s) && |u| == |s|
    requires forall i :: 0 <= i < |s| ==> u[i] == UpperChar(s[i])
    ensures ToUpper(s) == u
  {
  }

  lemma AsciiConcat(a: string, b: string)
    ensures IsAscii(a + b) <==> IsAscii(a) && IsAscii(b)
  {
    if IsAscii(a) && IsAscii(b) {
      forall i | 0 <= i < |a + b| ensures IsAsciiChar((a + b)[i]) {
        if i >= |a| {
          assert (a + b)[i] == b[i - |a|];
        }
      }
    }
    if IsAscii(a + b) {
      forall i | 0 <= i < |a| ensures IsAsciiChar(a[i]) {
        assert (a + b)[i] == a[i];
      }
      forall i | 0 <= i < |b| ensures IsAsciiChar(b[i]) {
        assert (a + b)[|a| + i] == b[i];
      }
    }
  }

  /** `s.toLowerCase()` on the characters whose lower case is ASCII. */
  function ToLower(s: string): (r: string)
    ensures |r| == |s|
  {
    seq(|s|, i requires 0 <= i < |s| => LowerChar(s[i]))
  }

  predicate IsDigit(c: char) {
    '0' <= c <= '9'
  }

  predicate AllDigits(s: string) {
    forall i :: 0 <= i < |s| ==> IsDigit(s[i])
  }

  function DigitValue(c: char): nat
    requires IsDigit(c)
  {
    c as int - '0' as int
  }

  function DigitChar(d: nat): (c: char)
    requires d < 10
    ensures IsDigit(c) && DigitValue(c) == d
  {
    ('0' as int + d) as char
  }

  /** The value of a string of decimal digits ("" is 0). */
  function DigitsValue(s: string): nat
    requires AllDigits(s)
    decreases |s|
  {
    if s == [] then 0 else DigitsValue(s[..|s| - 1]) * 10 + DigitValue(s[|s| - 1])
  }

  function Pow10(k: nat): (r: nat)
    ensures r >= 1
  {
    if k == 0 then 1 else 10 * Pow10(k - 1)
  }

  /** `n.toString()` for a natural number: its decimal digits, read back as `n`. */
  function NatToDigits(n: nat): (s: string)
    ensures s != [] && AllDigits(s)
    ensures DigitsValue(s) == n
    ensures |s| == 1 || s[0] != '0'
  {
    if n < 10 then [DigitChar(n)]
    else
      var init := NatToDigits(n / 10);
      var s := init + [DigitChar(n % 10)];
      assert s[..|s| - 1] == init;
      s
  }

  /** `n.toString().padStart(2, '0')` for `n < 100`. */
  function Pad2(n: nat): (s: string)
    requires n < 100
    ensures |s| == 2 && AllDigits(s) && DigitsValue(s) == n
  {
    var s := [DigitChar(n / 10), DigitChar(n % 10)];
    assert s[..1] == [DigitChar(n / 10)];
    assert s[..1][..0] == [];
    assert DigitsValue(s[..1]) == n / 10;
    s
  }

  /** The number of UTF-16 code units of `c`: JavaScript's `length` counts these. */
  function Utf16Width(c: char): nat {
    if c as int < 0x10000 then 1 else 2
  }

  /** The UTF-16 code units of `s`, as JavaScript's `charCodeAt` reads them. */
  function Utf16(s: string): (units: seq<int>)
    ensures forall i :: 0 <= i < |units| ==> 0 <= units[i] < 0x10000
  {
    if s == [] then []
    else
      var n := s[0] as int;
      var head := if n < 0x10000 then [n]
        else [0xD800 + (n - 0x10000) / 0x400, 0xDC00 + (n - 0x10000) % 0x400];
      head + Utf16(s[1..])
  }

  /** The number of bytes of the UTF-8 encoding of `s` (`Buffer.from(s).length`). */
  function Utf8Length(s: string): nat {
    if s == [] then 0
    else
      var n := s[0] as int;
      (if n < 0x80 then 1 else if n < 0x800 then 2 else if n < 0x10000 then 3 else 4)
      + Utf8Length(s[1..])
  }

  /** Pure ASCII strings have as many UTF-16 units and UTF-8 bytes as characters. */
  lemma {:induction false} AsciiLengths(s: string)
    requires forall i :: 0 <= i < |s| ==> s[i] as int < 0x80
    ensures |Utf16(s)| == |s| && Utf8Length(s) == |s|
  {
    if s != [] {
      AsciiLengths(s[1..]);
    }
  }

  /** A string of digits has no white space to trim. */
  lemma DigitsTrim(s: string)
    requires AllDigits(s)
    ensures Trim(s) == s
  {
    if s != [] {
      assert !IsSpace(s[0]) && !IsSpace(s[|s| - 1]);
      assert TrimStart(s) == s;
      assert TrimEnd(s) == s;
    }
  }
}
