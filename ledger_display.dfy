/** The ledger as the member's profile page (`app/profile/personalPage.tsx`) and the
    administrators' ledger page (`app/admin/transactions/page.tsx`) show it: the change of
    each row reconciled with the balances around it, its label, and the arithmetic of the
    page links. Both pages carry their own copies of these helpers, and the copies agree;
    they are defined once here. */
module LedgerDisplay {
  import opened Wrappers
  import opened Text
  import opened Money
  import opened Js
  import opened Store

  const PROFILE_PAGE_SIZE: nat := 10
  const ADMIN_PAGE_SIZE: nat := 20
  const TOLERANCE: real := 0.0001
  const NO_VALUE := "—"

  /** `Math.sign` */
  function SignOf(x: real): (s: int)
    ensures s == 1 <==> x > 0.0
    ensures s == -1 <==> x < 0.0
    ensures s == 0 <==> x == 0.0
  {
    if x > 0.0 then 1 else if x < 0.0 then -1 else 0
  }

  /** `resolveAmountChange`, on the values after `parseNumeric` (`None` for a missing
      value). With both balances known the change shown is the difference of the
      balances, unless the stored change has the same sign and lies within 0.0001 of it. */
  function ResolveAmountChange(amount: Option<real>, before: Option<real>, after: Option<real>): (r: Option<real>)
    ensures before.None? || after.None? ==> r == amount
    ensures before.Some? && after.Some? ==>
              var derived := after.value - before.value;
              && r.Some?
              && SignOf(r.value) == SignOf(derived)
              && Abs(r.value - derived) <= TOLERANCE
              && (r.value == derived || r == amount)
  {
    if before.Some? && after.Some? then
      var derived := after.value - before.value;
      if amount.None? then Some(derived)
      else if SignOf(derived) != SignOf(amount.value) || Abs(derived - amount.value) > TOLERANCE then Some(derived)
      else amount
    else amount
  }

  /** The stored change is kept whenever it is consistent with the balances: in
      particular for every row that satisfies the ledger equation
      `balanceBefore + amountChange = balanceAfter`. */
  lemma ConsistentChangeKept(amount: real, before: real, after: real)
    requires SignOf(amount) == SignOf(after - before) && Abs(amount - (after - before)) <= TOLERANCE
    ensures ResolveAmountChange(Some(amount), Some(before), Some(after)) == Some(amount)
  {
  }

  lemma LedgerRowShowsItsChange(e: LedgerEntry)
    requires e.balanceBefore + e.amountChange == e.balanceAfter
    ensures ResolveAmountChange(Some(e.amountChange), Some(e.balanceBefore), Some(e.balanceAfter)) == Some(e.amountChange)
  {
    ConsistentChangeKept(e.amountChange, e.balanceBefore, e.balanceAfter);
  }

  /** A stored change that disagrees with the balances, in sign or by more than 0.0001,
      is replaced by the difference of the balances. */
  lemma InconsistentChangeReplaced(amount: real, before: real, after: real)
    requires SignOf(amount) != SignOf(after - before) || Abs(amount - (after - before)) > TOLERANCE
    ensures ResolveAmountChange(Some(amount), Some(before), Some(after)) == Some(after - before)
  {
  }

  /** Digits with a comma before every group of three from the right, as the `zh-CN`
      locale groups them. */
  function Grouped(d: string): (r: string)
    decreases |d|
  {
    if |d| <= 3 then d else Grouped(d[..|d| - 3]) + "," + d[|d| - 3..]
  }

  /** The text without its group separators. */
  function Ungroup(s: string): (r: string)
    ensures ',' !in r
  {
    if s == [] then [] else (if s[0] == ',' then [] else [s[0]]) + Ungroup(s[1..])
  }

  lemma {:induction false} UngroupConcat(a: string, b: string)
    ensures Ungroup(a + b) == Ungroup(a) + Ungroup(b)
  {
    if a == [] {
      assert a + b == b;
    } else {
      var ab := a + b;
      assert ab[0] == a[0] && ab[1..] == a[1..] + b;
      UngroupConcat(a[1..], b);
      assert Ungroup(ab) == (if a[0] == ',' then [] else [a[0]]) + Ungroup(a[1..] + b);
    }
  }

  lemma {:induction false} UngroupPlain(s: string)
    requires ',' !in s
    ensures Ungroup(s) == s
  {
    if s != [] {
      assert s[1..] == s[1..];
      assert forall c :: c in s[1..] ==> c in s;
      UngroupPlain(s[1..]);
    }
  }

  /** Removing the separators gives back the digits. */
  lemma {:induction false} UngroupGrouped(d: string)
    requires ',' !in d
    ensures Ungroup(Grouped(d)) == d
    decreases |d|
  {
    if |d| <= 3 {
      UngroupPlain(d);
    } else {
      var head, tail := d[..|d| - 3], d[|d| - 3..];
      NoCommaParts(d, |d| - 3);
      UngroupGrouped(head);
      UngroupJoin(Grouped(head), tail);
      assert d == head + tail;
    }
  }

  lemma NoCommaParts(d: string, k: nat)
    requires ',' !in d && k <= |d|
    ensures ',' !in d[..k] && ',' !in d[k..]
  {
    assert forall c :: c in d[..k] ==> c in d;
    assert forall c :: c in d[k..] ==> c in d;
  }

  /** One separator between two groups disappears. */
  lemma UngroupJoin(g: string, tail: string)
    requires ',' !in tail
    ensures Ungroup(g + "," + tail) == Ungroup(g) + tail
  {
    UngroupConcat(g + ",", tail);
    UngroupConcat(g, ",");
    UngroupPlain(tail);
    UngroupComma();
  }

  lemma UngroupComma()
    ensures Ungroup(",") == []
  {
    assert ","[1..] == [];
  }

  /** The fraction digits of `f` hundredths without trailing zeros. */
  function FractionText(f: nat): (s: string)
    requires f < 100
  {
    if f == 0 then "" else if f % 10 == 0 then "." + [DigitChar(f / 10)] else "." + Pad2(f)
  }

  /** `value.toLocaleString('zh-CN', { minimumFractionDigits: 0, maximumFractionDigits: 2 })`
      for a value that is not negative: rounded to hundredths, the whole part grouped,
      and no trailing zeros in the fraction. */
  function FormatMagnitude(x: real): (s: string)
    requires x >= 0.0
    ensures s != []
  {
    var c := Cents(x);
    Grouped(NatToDigits(c / 100)) + FractionText(c % 100)
  }

  /** What `formatNumber` writes reads back, without its separators, as the value
      rounded to two decimal places. */
  lemma FormatMagnitudeReadBack(x: real)
    requires x >= 0.0
    ensures ParseDecimal(Ungroup(FormatMagnitude(x))) == Some(Round2(x))
  {
    var c := Cents(x);
    UngroupFormatted(c);
    PlainReadBack(c);
  }

  /** Without separators the text is the plain digits and fraction. */
  lemma UngroupFormatted(c: nat)
    ensures Ungroup(Grouped(NatToDigits(c / 100)) + FractionText(c % 100)) == NatToDigits(c / 100) + FractionText(c % 100)
  {
    var digits, fraction := NatToDigits(c / 100), FractionText(c % 100);
    assert ',' !in digits by {
      forall i | 0 <= i < |digits|
        ensures digits[i] != ','
      {
        assert IsDigit(digits[i]);
      }
    }
    UngroupConcat(Grouped(digits), fraction);
    UngroupGrouped(digits);
    assert ',' !in fraction;
    UngroupPlain(fraction);
  }

  /** The plain text of `c` hundredths reads back as `c / 100`. */
  lemma PlainReadBack(c: nat)
    ensures ParseDecimal(NatToDigits(c / 100) + FractionText(c % 100)) == Some(c as real / 100.0)
  {
    if c % 100 == 0 {
      WholeReadBack(c);
    } else if c % 100 % 10 == 0 {
      TenthsReadBack(c / 100, c % 100);
      assert c == 100 * (c / 100) + c % 100;
    } else {
      CentsReadBack(c);
    }
  }

  lemma WholeReadBack(c: nat)
    requires c % 100 == 0
    ensures ParseDecimal(NatToDigits(c / 100) + FractionText(c % 100)) == Some(c as real / 100.0)
  {
    var d := NatToDigits(c / 100);
    NoFraction(c);
    ParseDigits(d);
    WholeValue(c);
  }

  lemma NoFraction(c: nat)
    requires c % 100 == 0
    ensures NatToDigits(c / 100) + FractionText(c % 100) == NatToDigits(c / 100)
  {
    assert FractionText(0) == "";
  }

  lemma WholeValue(c: nat)
    requires c % 100 == 0
    ensures (c / 100) as real == c as real / 100.0
  {
    assert c == 100 * (c / 100);
  }

  lemma TenthsReadBack(w: nat, f: nat)
    requires 0 < f < 100 && f % 10 == 0
    ensures ParseDecimal(NatToDigits(w) + FractionText(f)) == Some((100 * w + f) as real / 100.0)
  {
    var g := f / 10;
    OneFractionDigit(f);
    TenthsValue(100 * w + f, w, g);
    OneDigitReadBack(w, g);
  }

  lemma OneFractionDigit(f: nat)
    requires 0 < f < 100 && f % 10 == 0
    ensures FractionText(f) == "." + [DigitChar(f / 10)]
  {
  }

  lemma TenthsValue(c: nat, w: nat, g: nat)
    requires c == 100 * w + 10 * g
    ensures w as real + g as real / 10.0 == c as real / 100.0
  {
  }

  lemma CentsReadBack(c: nat)
    requires c % 100 % 10 != 0
    ensures ParseDecimal(NatToDigits(c / 100) + FractionText(c % 100)) == Some(c as real / 100.0)
  {
    ScanFormatCents(c, false);
    TwoFractionDigits(c);
  }

  lemma TwoFractionDigits(c: nat)
    requires c % 100 % 10 != 0
    ensures Sign(false) + FormatCents(c) == NatToDigits(c / 100) + FractionText(c % 100)
  {
    assert Sign(false) == "";
  }

  /** A whole number, a dot and one digit `g` read back as the number plus `g` tenths. */
  lemma OneDigitReadBack(w: nat, g: nat)
    requires g < 10
    ensures ParseDecimal(NatToDigits(w) + ("." + [DigitChar(g)])) == Some(w as real + g as real / 10.0)
  {
    var d, p := NatToDigits(w), [DigitChar(g)];
    ScanPlain(d, p, false);
    assert Sign(false) + (d + ("." + p)) == d + ("." + p);
    var n := Numeral(false, d, p, false, "");
    assert p[..0] == [];
    assert DigitsValue(n.exponent) == 0 && DigitsValue(n.fraction) == g;
    assert Pow10(|n.fraction|) == 10 && Pow10(DigitsValue(n.exponent)) == 1;
  }

  /** The colour of a label: muted for no value, grey for zero, green for a credit and
      red for a debit. */
  datatype Tone = Muted | Neutral | Credit | Debit

  datatype Meta = Meta(caption: string, tone: Tone)

  /** `getAmountChangeMeta` (profile) and `changeMeta` (administrators). */
  function ChangeMeta(value: Option<real>): (m: Meta)
    ensures value.None? <==> m == Meta(NO_VALUE, Muted)
    ensures value == Some(0.0) <==> m == Meta("0", Neutral)
    ensures value.Some? && value.value > 0.0 ==> m.tone == Credit && m.caption == "+" + FormatMagnitude(value.value)
    ensures value.Some? && value.value < 0.0 ==> m.tone == Debit && m.caption == "-" + FormatMagnitude(-value.value)
  {
    match value
    case None => Meta(NO_VALUE, Muted)
    case Some(v) =>
      if v == 0.0 then Meta("0", Neutral)
      else if v > 0.0 then Meta("+" + FormatMagnitude(Abs(v)), Credit)
      else Meta("-" + FormatMagnitude(Abs(v)), Debit)
  }

  /** A label starts with the sign of the change and reads back as its size rounded to
      hundredths. */
  lemma LabelReadBack(v: real)
    requires v != 0.0
    ensures var caption := ChangeMeta(Some(v)).caption;
      && caption[0] == (if v > 0.0 then '+' else '-')
      && ParseDecimal(Ungroup(caption[1..])) == Some(Round2(Abs(v)))
  {
    var caption := ChangeMeta(Some(v)).caption;
    assert caption[1..] == FormatMagnitude(Abs(v));
    FormatMagnitudeReadBack(Abs(v));
  }

  /** A query parameter: absent, one value, or repeated. */
  datatype Param = Absent | One(text: string) | Many(values: seq<string>)

  /** `Array.isArray(p) ? p[0] : p`, `undefined` as `None`. */
  function FirstValue(p: Param): (r: Option<string>)
    ensures p.One? ==> r == Some(p.text)
    ensures p.Many? ==> (r.Some? <==> p.values != []) && (r.Some? ==> r.value == p.values[0])
    ensures p.Absent? ==> r.None?
  {
    match p
    case Absent => None
    case One(s) => Some(s)
    case Many(vs) => if vs == [] then None else Some(vs[0])
  }

  /** The current page, as both pages read it: `Number.parseInt(raw, 10)`, with 1 when
      there is no value, when nothing parses, or when the number is below 1. (The profile
      page parses '1' for a missing value, the administrators' page skips an empty one;
      both come to 1.) */
  function CurrentPage(p: Param): (page: int)
    ensures page >= 1
    ensures FirstValue(p).Some? && ParseInt(FirstValue(p).value).Some? && ParseInt(FirstValue(p).value).value >= 1 ==>
              page == ParseInt(FirstValue(p).value).value
    ensures FirstValue(p).None? || ParseInt(FirstValue(p).value).None? || ParseInt(FirstValue(p).value).value < 1 ==>
              page == 1
  {
    match FirstValue(p)
    case None => 1
    case Some(raw) =>
      match ParseInt(raw)
      case None => 1
      case Some(n) => if n < 1 then 1 else n
  }

  /** A page number written as the page links write it is read back as that page. */
  lemma PageLinkReadBack(page: nat)
    requires page >= 1
    ensures CurrentPage(One(NatToDigits(page))) == page
  {
    var s := NatToDigits(page);
    ParseIntDigits(page);
    assert FirstValue(One(s)) == Some(s);
  }

  /** `(currentPage - 1) * size` */
  function Skip(page: int, size: nat): (skip: nat)
    requires page >= 1
    ensures skip == (page - 1) * size
  {
    NonNegativeProduct(page - 1, size);
    (page - 1) * size
  }

  lemma NonNegativeProduct(a: nat, b: nat)
    ensures a * b >= 0
  {
  }

  /** `Math.max(1, Math.ceil(total / size))` */
  function TotalPages(total: nat, size: nat): (n: int)
    requires size >= 1
    ensures n >= 1
  {
    if total == 0 then 1 else (total + size - 1) / size
  }

  /** The last page ends at or after the last row and begins before it. */
  lemma TotalPagesCover(total: nat, size: nat)
    requires size >= 1
    ensures total <= TotalPages(total, size) * size
    ensures total > 0 ==> (TotalPages(total, size) - 1) * size < total
  {
    if total > 0 {
      var n := TotalPages(total, size);
      var q, r := (total + size - 1) / size, (total + size - 1) % size;
      assert total + size - 1 == q * size + r;
      assert n == q;
    }
  }

  /** Row `i` of `total`, newest first, is on page `i / size + 1`, one of the pages the
      links reach. */
  lemma RowOnPage(i: nat, total: nat, size: nat)
    requires size >= 1 && i < total
    ensures var page := i / size + 1;
      1 <= page <= TotalPages(total, size) && Skip(page, size) <= i < Skip(page, size) + size
  {
    RowWithinSkip(i, size);
    RowPageReached(i, total, size);
  }

  lemma RowWithinSkip(i: nat, size: nat)
    requires size >= 1
    ensures Skip(i / size + 1, size) <= i < Skip(i / size + 1, size) + size
  {
    var q, r := i / size, i % size;
    assert i == q * size + r;
    assert Skip(q + 1, size) == q * size;
  }

  lemma RowPageReached(i: nat, total: nat, size: nat)
    requires size >= 1 && i < total
    ensures i / size + 1 <= TotalPages(total, size)
  {
    var q, n := i / size, TotalPages(total, size);
    TotalPagesCover(total, size);
    assert q * size <= i;
    assert (n - q) * size == n * size - q * size > 0;
  }

  /** The values the page links are drawn from. */
  datatype Pager = Pager(page: int, skip: nat, totalPages: int, hasPrev: bool, hasNext: bool, prev: int, next: int)

  function PagerOf(page: int, total: nat, size: nat): (p: Pager)
    requires page >= 1 && size >= 1
    ensures p.page == page && p.skip == Skip(page, size) && p.totalPages == TotalPages(total, size)
    ensures p.hasPrev <==> page > 1
    ensures p.hasNext <==> page < p.totalPages
    ensures 1 <= p.prev <= page && (p.hasPrev ==> p.prev == page - 1)
    ensures 1 <= p.next <= p.totalPages
    ensures p.hasNext ==> p.next == page + 1
    ensures !p.hasNext ==> p.next == p.totalPages
  {
    var totalPages := TotalPages(total, size);
    Pager(page, Skip(page, size), totalPages, page > 1, page < totalPages,
          if page - 1 > 1 then page - 1 else 1, if totalPages < page + 1 then totalPages else page + 1)
  }

  /** The rows a page shows: `skip` and `take` on the rows in order. */
  function PageRows<T>(rows: seq<T>, skip: nat, size: nat): (r: seq<T>)
    ensures |r| <= size
    ensures skip <= |rows| ==> r == rows[skip..if skip + size <= |rows| then skip + size else |rows|]
    ensures skip > |rows| ==> r == []
    ensures forall x :: x in r ==> x in rows
  {
    if skip >= |rows| then [] else rows[skip..if skip + size <= |rows| then skip + size else |rows|]
  }

  /** Row `i` is among the rows of page `i / size + 1`, which is within the links' range. */
  lemma RowOnItsPage<T>(rows: seq<T>, i: nat, size: nat)
    requires size >= 1 && i < |rows|
    ensures var page := i / size + 1;
      && page <= TotalPages(|rows|, size)
      && rows[i] in PageRows(rows, Skip(page, size), size)
  {
    var page := i / size + 1;
    RowOnPage(i, |rows|, size);
    var skip := Skip(page, size);
    assert PageRows(rows, skip, size)[i - skip] == rows[i];
  }

  /** `orderBy: { timeCreatedAt: 'desc' }`: no row is older than one after it. */
  predicate NewestFirst(rows: seq<LedgerEntry>) {
    forall i, j :: 0 <= i < j < |rows| ==> rows[i].time >= rows[j].time
  }

  /** A window of rows newest first is newest first. */
  lemma PageRowsNewestFirst(rows: seq<LedgerEntry>, skip: nat, size: nat)
    requires NewestFirst(rows)
    ensures NewestFirst(PageRows(rows, skip, size))
  {
    var r := PageRows(rows, skip, size);
    forall i, j | 0 <= i < j < |r|
      ensures r[i].time >= r[j].time
    {
      assert r[i] == rows[skip + i] && r[j] == rows[skip + j];
    }
  }

  /** The profile page: the member's own rows, newest first as the query orders them;
      the page is the window the pager's skip selects, in the same order. */
  function ProfilePage(ownRows: seq<LedgerEntry>, pageParam: Param): (r: (Pager, seq<LedgerEntry>))
    requires NewestFirst(ownRows)
    ensures r.0 == PagerOf(CurrentPage(pageParam), |ownRows|, PROFILE_PAGE_SIZE)
    ensures |r.1| <= PROFILE_PAGE_SIZE
    ensures forall e :: e in r.1 ==> e in ownRows
    ensures r.1 == PageRows(ownRows, r.0.skip, PROFILE_PAGE_SIZE) && NewestFirst(r.1)
  {
    PageRowsNewestFirst(ownRows, Skip(CurrentPage(pageParam), PROFILE_PAGE_SIZE), PROFILE_PAGE_SIZE);
    var pager := PagerOf(CurrentPage(pageParam), |ownRows|, PROFILE_PAGE_SIZE);
    (pager, PageRows(ownRows, pager.skip, PROFILE_PAGE_SIZE))
  }

  /** Each row of the member's ledger is shown on exactly the page of its position, and
      that page is within the links' range. */
  lemma ProfileRowShown(ownRows: seq<LedgerEntry>, i: nat)
    requires NewestFirst(ownRows) && i < |ownRows|
    ensures var page := i / PROFILE_PAGE_SIZE + 1;
      && page <= PagerOf(page, |ownRows|, PROFILE_PAGE_SIZE).totalPages
      && ownRows[i] in ProfilePage(ownRows, One(NatToDigits(page))).1
  {
    var page := i / PROFILE_PAGE_SIZE + 1;
    PageLinkReadBack(page);
    RowOnItsPage(ownRows, i, PROFILE_PAGE_SIZE);
  }
}
