/** The administrators' ledger page (`app/admin/transactions/page.tsx`): after the
    administrator check, the rows of one member, optionally within a date range, newest
    first and twenty to a page. Without a member id nothing is queried. */
module AdminTransactions {
  import opened Wrappers
  import opened Text
  import opened Store
  import opened Session
  import opened Admin
  import opened LedgerDisplay

  /** `discordId`: a single value trimmed, the first of repeated values trimmed, or
      empty; both `undefined` and the empty string leave the page without a query. */
  function DiscordIdOf(p: Param): (id: string)
    ensures p.One? ==> id == Trim(p.text)
    ensures p.Many? && p.values != [] ==> id == Trim(p.values[0])
    ensures p.Absent? || (p.Many? && p.values == []) ==> id == []
  {
    match FirstValue(p)
    case Some(s) => Trim(s)
    case None => []
  }

  /** A date bound: the first value, when it is not empty and `new Date(value)` is a
      valid time; `parse` stands for the date parser and gives the time in
      milliseconds. */
  function DateBound(p: Param, parse: string -> Option<int>): (t: Option<int>)
    ensures t.Some? <==> FirstValue(p).Some? && FirstValue(p).value != [] && parse(FirstValue(p).value).Some?
    ensures t.Some? ==> t == parse(FirstValue(p).value)
  {
    match FirstValue(p)
    case None => None
    case Some(s) => if s == [] then None else parse(s)
  }

  /** `whereClause`: the member and, when a bound was given, the inclusive range on
      `timeCreatedAt` (a missing bound is `undefined`, which Prisma ignores). */
  datatype Where = Where(discordId: string, gte: Option<int>, lte: Option<int>)

  predicate Matches(w: Where, e: LedgerEntry) {
    && e.discordId == w.discordId
    && (w.gte.Some? ==> e.time >= w.gte.value)
    && (w.lte.Some? ==> e.time <= w.lte.value)
  }

  function Select(rows: seq<LedgerEntry>, w: Where): (r: seq<LedgerEntry>)
    ensures |r| <= |rows|
    ensures forall e :: e in r <==> e in rows && Matches(w, e)
  {
    if rows == [] then []
    else (if Matches(w, rows[0]) then [rows[0]] else []) + Select(rows[1..], w)
  }

  function WhereOf(discordId: Param, startDate: Param, endDate: Param, parse: string -> Option<int>): (w: Option<Where>)
    ensures w.None? <==> DiscordIdOf(discordId) == []
    ensures w.Some? ==>
              w.value == Where(DiscordIdOf(discordId), DateBound(startDate, parse), DateBound(endDate, parse))
  {
    var id := DiscordIdOf(discordId);
    if id == [] then None else Some(Where(id, DateBound(startDate, parse), DateBound(endDate, parse)))
  }

  /** Selecting rows keeps them newest first. */
  lemma {:induction false} SelectNewestFirst(rows: seq<LedgerEntry>, w: Where)
    requires NewestFirst(rows)
    ensures NewestFirst(Select(rows, w))
  {
    if rows != [] {
      TailNewestFirst(rows);
      SelectNewestFirst(rows[1..], w);
      if Matches(w, rows[0]) {
        forall e | e in Select(rows[1..], w)
          ensures rows[0].time >= e.time
        {
          HeadNewest(rows, e);
        }
        ConsNewestFirst(rows[0], Select(rows[1..], w));
        assert Select(rows, w) == [rows[0]] + Select(rows[1..], w);
      } else {
        assert Select(rows, w) == Select(rows[1..], w);
      }
    }
  }

  lemma TailNewestFirst(rows: seq<LedgerEntry>)
    requires rows != [] && NewestFirst(rows)
    ensures NewestFirst(rows[1..])
  {
    var tail := rows[1..];
    forall i, j | 0 <= i < j < |tail|
      ensures tail[i].time >= tail[j].time
    {
      assert tail[i] == rows[i + 1] && tail[j] == rows[j + 1];
    }
  }

  lemma HeadNewest(rows: seq<LedgerEntry>, e: LedgerEntry)
    requires rows != [] && NewestFirst(rows) && e in rows
    ensures rows[0].time >= e.time
  {
    var k :| 0 <= k < |rows| && rows[k] == e;
  }

  lemma ConsNewestFirst(x: LedgerEntry, rest: seq<LedgerEntry>)
    requires NewestFirst(rest) && forall e :: e in rest ==> x.time >= e.time
    ensures NewestFirst([x] + rest)
  {
    var r := [x] + rest;
    forall i, j | 0 <= i < j < |r|
      ensures r[i].time >= r[j].time
    {
      assert r[j] == rest[j - 1] && r[j] in rest;
      if i > 0 {
        assert r[i] == rest[i - 1];
      }
    }
  }

  datatype View =
    | Redirect
    | Shown(query: Option<Where>, totalCount: nat, rows: seq<LedgerEntry>, pager: Pager)

  /** The page, given the ledger newest first as the database orders it. */
  function TransactionsPage(session: Option<Snapshot>, admins: seq<string>, ledger: seq<LedgerEntry>,
                            discordId: Param, startDate: Param, endDate: Param, page: Param,
                            parse: string -> Option<int>): (v: View)
    requires NewestFirst(ledger)
    ensures v.Redirect? <==> AdminSession(session, admins).None?
    ensures v.Shown? ==>
              && v.query == WhereOf(discordId, startDate, endDate, parse)
              && v.pager == PagerOf(CurrentPage(page), v.totalCount, ADMIN_PAGE_SIZE)
              && |v.rows| <= ADMIN_PAGE_SIZE
    ensures v.Shown? && v.query.None? ==> v.totalCount == 0 && v.rows == []
    ensures v.Shown? && v.query.Some? ==>
              && v.totalCount == |Select(ledger, v.query.value)|
              && (forall e :: e in v.rows ==> e in ledger && Matches(v.query.value, e))
              && v.rows == PageRows(Select(ledger, v.query.value), v.pager.skip, ADMIN_PAGE_SIZE)
              && NewestFirst(v.rows)
  {
    if AdminSession(session, admins).None? then Redirect
    else
      var currentPage := CurrentPage(page);
      var skip := Skip(currentPage, ADMIN_PAGE_SIZE);
      match WhereOf(discordId, startDate, endDate, parse)
      case None => Shown(None, 0, [], PagerOf(currentPage, 0, ADMIN_PAGE_SIZE))
      case Some(w) =>
        var matching := Select(ledger, w);
        SelectNewestFirst(ledger, w);
        PageRowsNewestFirst(matching, skip, ADMIN_PAGE_SIZE);
        var rows := PageRows(matching, skip, ADMIN_PAGE_SIZE);
        Shown(Some(w), |matching|, rows, PagerOf(currentPage, |matching|, ADMIN_PAGE_SIZE))
  }

  /** Every row of the member inside the range is listed on some page the links reach:
      the row at position `i` of the matching rows is on page `i / 20 + 1`. */
  lemma MatchingRowListed(session: Option<Snapshot>, admins: seq<string>, ledger: seq<LedgerEntry>,
                          discordId: Param, startDate: Param, endDate: Param, parse: string -> Option<int>, i: nat)
    requires NewestFirst(ledger) && AdminSession(session, admins).Some? && DiscordIdOf(discordId) != []
    requires i < |Select(ledger, WhereOf(discordId, startDate, endDate, parse).value)|
    ensures var w := WhereOf(discordId, startDate, endDate, parse).value;
      var page := i / ADMIN_PAGE_SIZE + 1;
      var v := TransactionsPage(session, admins, ledger, discordId, startDate, endDate, One(NatToDigits(page)), parse);
      && page <= v.pager.totalPages
      && Select(ledger, w)[i] in v.rows
  {
    var page := i / ADMIN_PAGE_SIZE + 1;
    PageLinkReadBack(page);
    RowListedAt(session, admins, ledger, discordId, startDate, endDate, parse, i, One(NatToDigits(page)));
  }

  /** The same for any page parameter that reads as the row's page. */
  lemma RowListedAt(session: Option<Snapshot>, admins: seq<string>, ledger: seq<LedgerEntry>,
                    discordId: Param, startDate: Param, endDate: Param, parse: string -> Option<int>, i: nat,
                    pageParam: Param)
    requires NewestFirst(ledger) && AdminSession(session, admins).Some? && DiscordIdOf(discordId) != []
    requires i < |Select(ledger, WhereOf(discordId, startDate, endDate, parse).value)|
    requires CurrentPage(pageParam) == i / ADMIN_PAGE_SIZE + 1
    ensures var v := TransactionsPage(session, admins, ledger, discordId, startDate, endDate, pageParam, parse);
      && i / ADMIN_PAGE_SIZE + 1 <= v.pager.totalPages
      && Select(ledger, WhereOf(discordId, startDate, endDate, parse).value)[i] in v.rows
  {
    var w := WhereOf(discordId, startDate, endDate, parse).value;
    var v := TransactionsPage(session, admins, ledger, discordId, startDate, endDate, pageParam, parse);
    assert v.Shown? && v.query == Some(w);
    ShownRowListed(v, Select(ledger, w), i);
  }

  /** A shown page cut from `matching` at the page of position `i` lists that row, and the
      links reach that page. */
  lemma ShownRowListed(v: View, matching: seq<LedgerEntry>, i: nat)
    requires i < |matching| && v.Shown?
    requires v.pager == PagerOf(i / ADMIN_PAGE_SIZE + 1, |matching|, ADMIN_PAGE_SIZE)
    requires v.rows == PageRows(matching, v.pager.skip, ADMIN_PAGE_SIZE)
    ensures i / ADMIN_PAGE_SIZE + 1 <= v.pager.totalPages && matching[i] in v.rows
  {
    RowOnItsPage(matching, i, ADMIN_PAGE_SIZE);
  }
}
