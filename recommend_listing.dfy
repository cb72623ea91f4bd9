/** The recommended-companion cards of the home page (`app/api/peiwanRecommend/route.ts`):
    the image files of the public `peiwanRecommend` folder whose names are a number and
    an image extension, each with that number as its id, ordered by id. */
module RecommendListing {
  import opened Wrappers
  import opened Text
  import opened Money

  const PUBLIC_PREFIX := "/peiwanRecommend/"
  const ERR_READ := "failed_to_read_folder"

  /** The alternatives of `(png|jpg|jpeg|gif)`, matched without regard to case. */
  const LISTED_EXTS: seq<string> := ["png", "jpg", "jpeg", "gif"]

  datatype Entry = Entry(id: nat, src: string)

  /** `name.match(/^(\d+)\.(png|jpg|jpeg|gif)$/i)` and `Number(match[1])`: the value of
      the leading digits when the name is digits, a dot and a listed extension. */
  function NumberedImage(name: string): (id: Option<nat>)
    ensures id.Some? ==>
              var k := SpanDigits(name);
              && 1 <= k < |name| && name[k] == '.' && ToLower(name[k + 1..]) in LISTED_EXTS
              && id.value == DigitsValue(name[..k])
  {
    var k := SpanDigits(name);
    if 1 <= k < |name| && name[k] == '.' && ToLower(name[k + 1..]) in LISTED_EXTS then Some(DigitsValue(name[..k]))
    else None
  }

  /** Every name made of digits, a dot and a listed extension in any case is matched, and
      its id is the value of the digits. */
  lemma NumberedImageOf(digits: string, ext: string)
    requires digits != [] && AllDigits(digits) && ToLower(ext) in LISTED_EXTS
    ensures NumberedImage(digits + "." + ext) == Some(DigitsValue(digits))
  {
    var name := digits + "." + ext;
    SpanDigitsOf(digits, "." + ext);
    assert name == digits + ("." + ext);
    assert name[..|digits|] == digits;
    assert name[|digits| + 1..] == ext;
  }

  /** One file of the listing, or `null`. */
  function EntryOf(name: string): (e: Option<Entry>)
    ensures e.Some? <==> NumberedImage(name).Some?
    ensures e.Some? ==> e.value.id == NumberedImage(name).value && e.value.src == PUBLIC_PREFIX + name
  {
    match NumberedImage(name)
    case Some(id) => Some(Entry(id, PUBLIC_PREFIX + name))
    case None => None
  }

  /** The `map` and `filter` over the folder's names, in the order they are read. */
  function Entries(names: seq<string>): (r: seq<Entry>)
    ensures |r| <= |names|
    ensures forall n :: n in names && EntryOf(n).Some? ==> EntryOf(n).value in r
    ensures forall e :: e in r ==> exists n :: n in names && EntryOf(n) == Some(e)
  {
    if names == [] then []
    else
      var rest := Entries(names[1..]);
      assert forall n :: n in names[1..] ==> n in names;
      match EntryOf(names[0])
      case Some(e) => [e] + rest
      case None => rest
  }

  predicate Ascending(s: seq<Entry>) {
    forall i, j :: 0 <= i < j < |s| ==> s[i].id <= s[j].id
  }

  /** The entries with one id, in their order. */
  function WithId(s: seq<Entry>, id: nat): seq<Entry> {
    if s == [] then [] else (if s[0].id == id then [s[0]] else []) + WithId(s[1..], id)
  }

  /** Puts `e` in front of the first entry whose id is not smaller. */
  function Insert(e: Entry, s: seq<Entry>): (r: seq<Entry>)
    requires Ascending(s)
    ensures |r| == |s| + 1
    ensures forall x :: x in r ==> x in s || x == e
    ensures Ascending(r)
  {
    if s == [] || e.id <= s[0].id then [e] + s
    else
      var rest := Insert(e, s[1..]);
      InsertAscending(s[0], rest, s[1..], e);
      [s[0]] + rest
  }

  lemma InsertAscending(first: Entry, rest: seq<Entry>, tail: seq<Entry>, e: Entry)
    requires Ascending(rest) && first.id < e.id
    requires forall x :: x in tail ==> first.id <= x.id
    requires forall x :: x in rest ==> x in tail || x == e
    ensures Ascending([first] + rest)
  {
    var r := [first] + rest;
    forall i, j | 0 <= i < j < |r|
      ensures r[i].id <= r[j].id
    {
      if i == 0 {
        assert r[j] == rest[j - 1];
        assert rest[j - 1] in rest;
      } else {
        assert r[i] == rest[i - 1] && r[j] == rest[j - 1];
      }
    }
  }

  lemma {:induction false} InsertPermutes(e: Entry, s: seq<Entry>)
    requires Ascending(s)
    ensures multiset(Insert(e, s)) == multiset(s) + multiset{e}
  {
    if s != [] && e.id > s[0].id {
      InsertPermutes(e, s[1..]);
      assert s == [s[0]] + s[1..];
    }
  }

  /** `.sort((a, b) => a.id - b.id)`: ordered by id and, since the sort is stable, names
      with the same id keep the order in which they were read. */
  function SortById(s: seq<Entry>): (r: seq<Entry>)
    ensures Ascending(r)
    ensures multiset(r) == multiset(s)
  {
    if s == [] then [] else
      var rest := SortById(s[1..]);
      InsertPermutes(s[0], rest);
      assert s == [s[0]] + s[1..];
      Insert(s[0], rest)
  }

  lemma {:induction false} WithIdConcat(a: seq<Entry>, b: seq<Entry>, id: nat)
    ensures WithId(a + b, id) == WithId(a, id) + WithId(b, id)
  {
    if a == [] {
      assert a + b == b;
    } else {
      var ab := a + b;
      assert ab[0] == a[0] && ab[1..] == a[1..] + b;
      WithIdConcat(a[1..], b, id);
      assert WithId(ab, id) == (if a[0].id == id then [a[0]] else []) + WithId(a[1..] + b, id);
    }
  }

  lemma {:induction false} InsertStable(e: Entry, s: seq<Entry>, id: nat)
    requires Ascending(s)
    ensures WithId(Insert(e, s), id) == (if e.id == id then [e] else []) + WithId(s, id)
  {
    if s == [] || e.id <= s[0].id {
      WithIdConcat([e], s, id);
    } else {
      InsertStable(e, s[1..], id);
      WithIdConcat([s[0]], Insert(e, s[1..]), id);
    }
  }

  /** The sort is stable: the entries of each id come out in the order they went in. */
  lemma {:induction false} SortStable(s: seq<Entry>, id: nat)
    ensures WithId(SortById(s), id) == WithId(s, id)
  {
    if s != [] {
      SortStable(s[1..], id);
      InsertStable(s[0], SortById(s[1..]), id);
    }
  }

  datatype Response = Response(status: int, data: seq<Entry>, error: Option<string>)

  /** `GET`; `listing` is what `fs.readdir` returns, `None` when it throws. */
  function Recommended(listing: Option<seq<string>>): (r: Response)
    ensures listing.None? ==> r == Response(500, [], Some(ERR_READ))
    ensures listing.Some? ==>
              && r.status == 200 && r.error.None?
              && Ascending(r.data) && multiset(r.data) == multiset(Entries(listing.value))
  {
    match listing
    case None => Response(500, [], Some(ERR_READ))
    case Some(names) => Response(200, SortById(Entries(names)), None)
  }

  /** Exactly the numbered images are listed, each once per file, and files with the
      same id keep the order the folder gave them. */
  lemma RecommendedExactly(names: seq<string>, id: nat)
    ensures var data := Recommended(Some(names)).data;
      && (forall n :: n in names && EntryOf(n).Some? ==> EntryOf(n).value in data)
      && (forall e :: e in data ==> exists n :: n in names && EntryOf(n) == Some(e))
      && WithId(data, id) == WithId(Entries(names), id)
  {
    var data := Recommended(Some(names)).data;
    var all := Entries(names);
    assert forall e :: e in data <==> e in multiset(data);
    assert forall e :: e in all <==> e in multiset(all);
    SortStable(all, id);
  }
}
