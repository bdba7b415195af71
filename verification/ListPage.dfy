/** Keyset pagination over `jobs_current`: pages by descending (updated_at, job_key), each
    continuing after the last row of the one before. */
module ListPages {
  import opened JobTypes
  import opened Sorting
  import opened TextOrder
  import opened ClaimScan

  const DEFAULT_LIST_PAGE_LIMIT := 50
  const MAX_LIST_PAGE_LIMIT := 200

  /** None stands for a missing or non-finite limit. A missing limit, and one that rounds down to zero, is the
      default; any other is rounded down and forced into the range. */
  function ClampListPageLimit(limit: Option<real>): (r: nat)
    ensures 1 <= r <= MAX_LIST_PAGE_LIMIT
    ensures limit.None? || 0.0 <= limit.value < 1.0 ==> r == 50
    ensures limit.Some? && limit.value < 0.0 ==> r == 1
    ensures limit.Some? && limit.value >= 200.0 ==> r == 200
    ensures limit.Some? && 1.0 <= limit.value < 200.0 ==> r as real <= limit.value < (r + 1) as real
  {
    var floor := if limit.Some? then limit.value.Floor else DEFAULT_LIST_PAGE_LIMIT;
    var value := if floor != 0 then floor else DEFAULT_LIST_PAGE_LIMIT;
    var capped := if value < MAX_LIST_PAGE_LIMIT then value else MAX_LIST_PAGE_LIMIT;
    if capped < 1 then 1 else capped
  }

  datatype PageFilter = PageFilter(status: Option<Status>, jobType: Option<JobKind>)

  /** The decoded cursor; encoding and decoding of the opaque text are the identity here. */
  datatype Cursor = Cursor(updatedAt: int, jobKey: string)

  datatype Page = Page(items: seq<Row>, nextCursor: Option<Cursor>) | PageRaised

  predicate Matches(row: Row, f: PageFilter) {
    && (f.status.Some? ==> row.status == f.status.value)
    && (f.jobType.Some? ==> row.jobType == f.jobType.value)
  }

  /** updated_at DESC, job_key DESC */
  predicate PageLeq(a: Row, b: Row) {
    b.updatedAt < a.updatedAt || (b.updatedAt == a.updatedAt && TextLeq(b.jobKey, a.jobKey))
  }

  predicate AfterCursor(row: Row, cursor: Option<Cursor>) {
    cursor.Some? ==>
      || row.updatedAt < cursor.value.updatedAt
      || (row.updatedAt == cursor.value.updatedAt && TextLess(row.jobKey, cursor.value.jobKey))
  }

  predicate CursorRowExists(jobs: map<string, Row>, f: PageFilter, c: Cursor) {
    c.jobKey in jobs && jobs[c.jobKey].updatedAt == c.updatedAt && Matches(jobs[c.jobKey], f)
  }

  function SelectRows(jobs: map<string, Row>, scan: seq<string>, f: PageFilter, cursor: Option<Cursor>): seq<Row> {
    if scan == [] then []
    else
      (if scan[0] in jobs && Matches(jobs[scan[0]], f) && AfterCursor(jobs[scan[0]], cursor) then [jobs[scan[0]]] else [])
      + SelectRows(jobs, scan[1..], f, cursor)
  }

  function Ordered(jobs: map<string, Row>, scan: seq<string>, f: PageFilter, cursor: Option<Cursor>): seq<Row> {
    StableSort(SelectRows(jobs, scan, f, cursor), PageLeq)
  }

  /** The query fetches one row more than the limit to see whether a next page exists. Encoding a cursor
      raises on an empty job key. */
  function PageOf(all: seq<Row>, limit: nat): Page
    requires limit >= 1
  {
    var rows := if |all| > limit + 1 then all[..limit + 1] else all;
    if |rows| > limit then
      var last := rows[limit - 1];
      if last.jobKey == "" then PageRaised
      else Page(rows[..limit], Some(Cursor(last.updatedAt, last.jobKey)))
    else Page(rows, None)
  }

  function ListPage(jobs: map<string, Row>, scan: seq<string>, f: PageFilter, limit: nat, cursor: Option<Cursor>): Page
    requires limit >= 1
  {
    if cursor.Some? && !CursorRowExists(jobs, f, cursor.value) then Page([], None)
    else PageOf(Ordered(jobs, scan, f, cursor), limit)
  }

  // ── the order ─────────────────────────────────────────────────────

  lemma PageOrderIsTotal()
    ensures TotalPreorder(PageLeq)
  {
    forall a: Row, b: Row ensures PageLeq(a, b) || PageLeq(b, a) { LessTotal(a.jobKey, b.jobKey); }
    forall a: Row, b: Row, c: Row | PageLeq(a, b) && PageLeq(b, c) ensures PageLeq(a, c) {
      if TextLess(c.jobKey, b.jobKey) && TextLess(b.jobKey, a.jobKey) {
        LessTransitive(c.jobKey, b.jobKey, a.jobKey);
      }
    }
  }

  /** Among rows of one table the order is strict: only the row itself compares both ways. */
  lemma PageOrderIsStrict(jobs: map<string, Row>, a: Row, b: Row)
    requires KeysAgree(jobs) && a.jobKey in jobs && jobs[a.jobKey] == a && b.jobKey in jobs && jobs[b.jobKey] == b
    ensures PageLeq(a, b) && PageLeq(b, a) ==> a == b
    ensures AfterCursor(b, Some(Cursor(a.updatedAt, a.jobKey))) <==> PageLeq(a, b) && a != b
  {
    LessIrreflexive(a.jobKey);
    if TextLess(a.jobKey, b.jobKey) { LessAsymmetric(a.jobKey, b.jobKey); }
  }

  lemma {:induction false} SelectExactly(jobs: map<string, Row>, scan: seq<string>, f: PageFilter, cursor: Option<Cursor>)
    requires KeysAgree(jobs) && NoDuplicates(scan)
    ensures forall row :: row in SelectRows(jobs, scan, f, cursor) <==>
              row.jobKey in scan && row.jobKey in jobs && jobs[row.jobKey] == row
              && Matches(row, f) && AfterCursor(row, cursor)
    ensures NoDuplicates(SelectRows(jobs, scan, f, cursor))
  {
    if scan != [] {
      SelectExactly(jobs, scan[1..], f, cursor);
      forall row
        ensures row in SelectRows(jobs, scan, f, cursor) <==>
                row.jobKey in scan && row.jobKey in jobs && jobs[row.jobKey] == row
                && Matches(row, f) && AfterCursor(row, cursor)
      {
        assert row.jobKey in scan <==> row.jobKey == scan[0] || row.jobKey in scan[1..];
      }
      assert scan[0] !in scan[1..];
    }
  }

  lemma OrderedExactly(jobs: map<string, Row>, scan: seq<string>, f: PageFilter, cursor: Option<Cursor>)
    requires KeysAgree(jobs) && IsScan(jobs, scan)
    ensures var rows := Ordered(jobs, scan, f, cursor);
            && (forall row :: row in rows <==>
                  row.jobKey in jobs && jobs[row.jobKey] == row && Matches(row, f) && AfterCursor(row, cursor))
            && NoDuplicates(rows)
            && Sorted(rows, PageLeq)
  {
    SelectExactly(jobs, scan, f, cursor);
    PageOrderIsTotal();
    SortSorted(SelectRows(jobs, scan, f, cursor), PageLeq);
    SortKeepsDistinct(SelectRows(jobs, scan, f, cursor), PageLeq);
  }

  /** Under a strict order, sorted sequences with the same elements are the same sequence. */
  lemma {:induction false} SortedIsUnique(s: seq<Row>, t: seq<Row>)
    requires Sorted(s, PageLeq) && Sorted(t, PageLeq) && NoDuplicates(s) && NoDuplicates(t)
    requires forall x :: x in s <==> x in t
    requires forall x, y :: x in s && y in s && PageLeq(x, y) && PageLeq(y, x) ==> x == y
    ensures s == t
  {
    assert t != [] ==> t[0] in t;
    if s != [] {
      assert s[0] in t;
      assert t[0] in s;
      var i :| 0 <= i < |t| && t[i] == s[0];
      var j :| 0 <= j < |s| && s[j] == t[0];
      assert s[0] == t[0];
      forall x ensures x in s[1..] <==> x in t[1..] {
        assert x in s <==> x == s[0] || x in s[1..];
        assert x in t <==> x == t[0] || x in t[1..];
        assert s[0] !in s[1..] && t[0] !in t[1..];
      }
      SortedIsUnique(s[1..], t[1..]);
    }
  }

  /** What follows a row in the whole listing is what its cursor selects. */
  lemma CursorSelectsRest(jobs: map<string, Row>, scan: seq<string>, f: PageFilter, i: nat)
    requires KeysAgree(jobs) && IsScan(jobs, scan) && i < |Ordered(jobs, scan, f, None)|
    ensures var all := Ordered(jobs, scan, f, None);
            Ordered(jobs, scan, f, Some(Cursor(all[i].updatedAt, all[i].jobKey))) == all[i + 1..]
  {
    var all := Ordered(jobs, scan, f, None);
    var cursor := Some(Cursor(all[i].updatedAt, all[i].jobKey));
    var rest := Ordered(jobs, scan, f, cursor);
    OrderedExactly(jobs, scan, f, None);
    OrderedExactly(jobs, scan, f, cursor);
    forall x, y | x in all && y in all && PageLeq(x, y) && PageLeq(y, x) ensures x == y {
      PageOrderIsStrict(jobs, x, y);
    }
    forall x ensures x in rest <==> x in all[i + 1..] {
      if x in all {
        assert all[i] in all;
        PageOrderIsStrict(jobs, all[i], x);
        var j :| 0 <= j < |all| && all[j] == x;
        assert j < i ==> PageLeq(all[j], all[i]);
        assert j > i ==> PageLeq(all[i], all[j]) && all[j] == all[i + 1..][j - i - 1];
      }
      assert x in all[i + 1..] ==> x in all;
    }
    SortedIsUnique(rest, all[i + 1..]);
  }

  // ── the walk ──────────────────────────────────────────────────────

  /** The pages a client collects by following nextCursor. */
  ghost predicate IsWalk(jobs: map<string, Row>, scan: seq<string>, f: PageFilter, limit: nat,
                         cursor: Option<Cursor>, pages: seq<Page>)
    requires limit >= 1
    decreases |pages|
  {
    && |pages| >= 1
    && pages[0] == ListPage(jobs, scan, f, limit, cursor)
    && pages[0].Page?
    && if pages[0].nextCursor.None? then |pages| == 1
       else IsWalk(jobs, scan, f, limit, pages[0].nextCursor, pages[1..])
  }

  ghost predicate IsWholeWalk(jobs: map<string, Row>, scan: seq<string>, f: PageFilter, limit: nat, pages: seq<Page>)
    requires limit >= 1
  {
    IsWalk(jobs, scan, f, limit, None, pages)
  }

  /** No page exceeds the limit, and only the last one may fall short of it. */
  ghost predicate PagesFit(pages: seq<Page>, limit: nat) {
    forall n :: 0 <= n < |pages| ==>
      && pages[n].Page? && |pages[n].items| <= limit
      && (n < |pages| - 1 ==> |pages[n].items| == limit)
  }

  function Items(pages: seq<Page>): seq<Row> {
    if pages == [] then []
    else (if pages[0].Page? then pages[0].items else []) + Items(pages[1..])
  }

  /** The cursor of the row before position `i` of a listing. */
  function CursorBefore(all: seq<Row>, i: nat): Option<Cursor>
    requires i <= |all|
  {
    if i == 0 then None else Some(Cursor(all[i - 1].updatedAt, all[i - 1].jobKey))
  }

  function SlicePage(all: seq<Row>, limit: nat, i: nat): Page
    requires limit >= 1 && i <= |all|
  {
    if |all| - i > limit then
      if all[i + limit - 1].jobKey == "" then PageRaised else Page(all[i..i + limit], CursorBefore(all, i + limit))
    else Page(all[i..], None)
  }

  /** The page after position `i` is the next slice of the listing. */
  lemma PageIsSlice(jobs: map<string, Row>, scan: seq<string>, f: PageFilter, limit: nat, i: nat)
    requires KeysAgree(jobs) && IsScan(jobs, scan) && limit >= 1
    requires i <= |Ordered(jobs, scan, f, None)|
    ensures var all := Ordered(jobs, scan, f, None);
            ListPage(jobs, scan, f, limit, CursorBefore(all, i)) == SlicePage(all, limit, i)
  {
    var all := Ordered(jobs, scan, f, None);
    var cursor := CursorBefore(all, i);
    RestAfter(jobs, scan, f, i);
    assert ListPage(jobs, scan, f, limit, cursor) == PageOf(all[i..], limit);
    SliceIsPage(all, limit, i);
  }

  lemma RestAfter(jobs: map<string, Row>, scan: seq<string>, f: PageFilter, i: nat)
    requires KeysAgree(jobs) && IsScan(jobs, scan) && i <= |Ordered(jobs, scan, f, None)|
    ensures var all := Ordered(jobs, scan, f, None);
            && Ordered(jobs, scan, f, CursorBefore(all, i)) == all[i..]
            && (i > 0 ==> CursorRowExists(jobs, f, CursorBefore(all, i).value))
  {
    var all := Ordered(jobs, scan, f, None);
    if i > 0 {
      OrderedExactly(jobs, scan, f, None);
      CursorSelectsRest(jobs, scan, f, i - 1);
      assert all[i - 1] in all;
    } else {
      assert all[0..] == all;
    }
  }

  lemma SliceIsPage(all: seq<Row>, limit: nat, i: nat)
    requires limit >= 1 && i <= |all|
    ensures PageOf(all[i..], limit) == SlicePage(all, limit, i)
  {
    if |all| - i > limit {
      assert all[i..][limit - 1] == all[i + limit - 1];
      assert |all[i..]| > limit + 1 ==> all[i..][..limit + 1][..limit] == all[i..i + limit];
      assert all[i..][..limit] == all[i..i + limit];
    }
  }

  /** Each page is the next slice of `all`. */
  ghost predicate SlicesOf(jobs: map<string, Row>, scan: seq<string>, f: PageFilter, limit: nat, all: seq<Row>)
    requires limit >= 1
  {
    forall i: nat | i <= |all| :: SliceAt(jobs, scan, f, limit, all, i)
  }

  predicate SliceAt(jobs: map<string, Row>, scan: seq<string>, f: PageFilter, limit: nat, all: seq<Row>, i: nat)
    requires limit >= 1 && i <= |all|
  {
    ListPage(jobs, scan, f, limit, CursorBefore(all, i)) == SlicePage(all, limit, i)
  }

  /** From position `i` on, no row that ends a page before the last has an empty key. */
  ghost predicate Unbroken(all: seq<Row>, limit: nat, i: nat)
    requires limit >= 1
    decreases |all| - i
  {
    i + limit < |all| ==> all[i + limit - 1].jobKey != "" && Unbroken(all, limit, i + limit)
  }

  /** The pages respect the limit, only the last may be short, together they list the rest once in order, and no
      cursor had to name an empty key. */
  ghost predicate Lists(all: seq<Row>, limit: nat, i: nat, pages: seq<Page>)
    requires limit >= 1 && i <= |all|
  {
    Items(pages) == all[i..] && PagesFit(pages, limit) && Unbroken(all, limit, i)
  }

  lemma ListsOn(all: seq<Row>, limit: nat, i: nat, pages: seq<Page>)
    requires limit >= 1 && i + limit < |all| && pages != [] && Lists(all, limit, i + limit, pages[1..])
    requires pages[0].Page? && pages[0].items == all[i..i + limit] && all[i + limit - 1].jobKey != ""
    ensures Lists(all, limit, i, pages)
  {
    SliceJoins(all, i, i + limit);
    FirstPageFits(pages, limit);
  }

  lemma ListsEnd(all: seq<Row>, limit: nat, i: nat, pages: seq<Page>)
    requires limit >= 1 && i <= |all| <= i + limit && |pages| == 1 && pages[0].Page? && pages[0].items == all[i..]
    ensures Lists(all, limit, i, pages)
  {
    assert Items(pages[1..]) == [];
  }

  /** If no cursor has to name an empty key, following the cursors ends and lists the rest. */
  lemma {:induction false} WalkFrom(jobs: map<string, Row>, scan: seq<string>, f: PageFilter, limit: nat,
                                    all: seq<Row>, i: nat)
    returns (pages: seq<Page>)
    requires limit >= 1 && SlicesOf(jobs, scan, f, limit, all) && i <= |all| && Unbroken(all, limit, i)
    ensures IsWalk(jobs, scan, f, limit, CursorBefore(all, i), pages) && Lists(all, limit, i, pages)
    decreases |all| - i
  {
    var page := PageAt(jobs, scan, f, limit, all, i);
    if i + limit < |all| {
      var rest := WalkFrom(jobs, scan, f, limit, all, i + limit);
      pages := [page] + rest;
      assert pages[1..] == rest;
      ListsOn(all, limit, i, pages);
    } else {
      pages := [page];
      ListsEnd(all, limit, i, pages);
    }
  }

  /** A walk that got to its end never had to name an empty key. */
  lemma {:induction false} WalkIsUnbroken(jobs: map<string, Row>, scan: seq<string>, f: PageFilter, limit: nat,
                                          all: seq<Row>, i: nat, pages: seq<Page>)
    requires limit >= 1 && SlicesOf(jobs, scan, f, limit, all) && i <= |all|
    requires IsWalk(jobs, scan, f, limit, CursorBefore(all, i), pages)
    ensures Unbroken(all, limit, i)
    decreases |all| - i
  {
    if i + limit < |all| {
      SecondOfWalk(jobs, scan, f, limit, all, i, pages);
      WalkIsUnbroken(jobs, scan, f, limit, all, i + limit, pages[1..]);
    }
  }

  lemma SecondOfWalk(jobs: map<string, Row>, scan: seq<string>, f: PageFilter, limit: nat,
                     all: seq<Row>, i: nat, pages: seq<Page>)
    requires limit >= 1 && SlicesOf(jobs, scan, f, limit, all) && i + limit < |all|
    requires IsWalk(jobs, scan, f, limit, CursorBefore(all, i), pages)
    ensures all[i + limit - 1].jobKey != ""
    ensures IsWalk(jobs, scan, f, limit, CursorBefore(all, i + limit), pages[1..])
  {
    assert SliceAt(jobs, scan, f, limit, all, i);
  }

  lemma {:induction false} WalkIsUnique(jobs: map<string, Row>, scan: seq<string>, f: PageFilter, limit: nat,
                                        cursor: Option<Cursor>, p: seq<Page>, q: seq<Page>)
    requires limit >= 1 && IsWalk(jobs, scan, f, limit, cursor, p) && IsWalk(jobs, scan, f, limit, cursor, q)
    ensures p == q
    decreases |p|
  {
    if p[0].nextCursor.Some? {
      WalkIsUnique(jobs, scan, f, limit, p[0].nextCursor, p[1..], q[1..]);
      assert p == [p[0]] + p[1..] && q == [q[0]] + q[1..];
    }
  }

  /** Any walk lists the rest. */
  lemma WalkLists(jobs: map<string, Row>, scan: seq<string>, f: PageFilter, limit: nat,
                  all: seq<Row>, i: nat, pages: seq<Page>)
    requires limit >= 1 && SlicesOf(jobs, scan, f, limit, all) && i <= |all|
    requires IsWalk(jobs, scan, f, limit, CursorBefore(all, i), pages)
    ensures Lists(all, limit, i, pages)
  {
    WalkIsUnbroken(jobs, scan, f, limit, all, i, pages);
    var expected := WalkFrom(jobs, scan, f, limit, all, i);
    WalkIsUnique(jobs, scan, f, limit, CursorBefore(all, i), pages, expected);
  }

  lemma FirstPageFits(pages: seq<Page>, limit: nat)
    requires pages != [] && pages[0].Page? && |pages[0].items| == limit && PagesFit(pages[1..], limit)
    ensures PagesFit(pages, limit)
  {
    forall n | 0 < n < |pages| ensures pages[n] == pages[1..][n - 1] { }
  }

  lemma PageAt(jobs: map<string, Row>, scan: seq<string>, f: PageFilter, limit: nat, all: seq<Row>, i: nat)
    returns (page: Page)
    requires limit >= 1 && SlicesOf(jobs, scan, f, limit, all) && i <= |all| && Unbroken(all, limit, i)
    ensures page == ListPage(jobs, scan, f, limit, CursorBefore(all, i)) && page.Page?
    ensures if |all| - i > limit
            then page.items == all[i..i + limit] && page.nextCursor == CursorBefore(all, i + limit) && page.nextCursor.Some?
            else page.items == all[i..] && page.nextCursor.None?
  {
    page := ListPage(jobs, scan, f, limit, CursorBefore(all, i));
    assert SliceAt(jobs, scan, f, limit, all, i);
    assert page == SlicePage(all, limit, i);
  }

  lemma SliceJoins(all: seq<Row>, i: nat, j: nat)
    requires i <= j <= |all|
    ensures all[i..j] + all[j..] == all[i..]
  {
  }

  /** Whoever follows the cursors to the end has seen every matching row exactly once, newest first. */
  lemma PagesListEverything(jobs: map<string, Row>, scan: seq<string>, f: PageFilter, limit: nat, pages: seq<Page>)
    requires KeysAgree(jobs) && IsScan(jobs, scan) && limit >= 1
    requires IsWholeWalk(jobs, scan, f, limit, pages)
    ensures var rows := Items(pages);
            && (forall row :: row in rows <==>
                  && row.jobKey in jobs && jobs[row.jobKey] == row
                  && (f.status.Some? ==> row.status == f.status.value)
                  && (f.jobType.Some? ==> row.jobType == f.jobType.value))
            && (forall i, j :: 0 <= i < j < |rows| ==>
                  || rows[i].updatedAt > rows[j].updatedAt
                  || (rows[i].updatedAt == rows[j].updatedAt && TextLess(rows[j].jobKey, rows[i].jobKey)))
    ensures PagesFit(pages, limit)
    ensures pages[|pages| - 1].Page? && pages[|pages| - 1].nextCursor.None?
  {
    var all := Ordered(jobs, scan, f, None);
    forall i: nat | i <= |all| ensures SliceAt(jobs, scan, f, limit, all, i) { PageIsSlice(jobs, scan, f, limit, i); }
    WalkLists(jobs, scan, f, limit, all, 0, pages);
    assert all[0..] == all;
    OrderedExactly(jobs, scan, f, None);
    forall i, j | 0 <= i < j < |all|
      ensures all[i].updatedAt > all[j].updatedAt
              || (all[i].updatedAt == all[j].updatedAt && TextLess(all[j].jobKey, all[i].jobKey))
    {
      assert all[i] in all && all[j] in all && all[i] != all[j];
      assert PageLeq(all[i], all[j]);
    }
    LastPageEnds(jobs, scan, f, limit, None, pages);
  }

  /** A cursor whose row is gone, has been touched since or no longer matches ends the listing with an empty page. */
  lemma StaleCursorEndsListing(jobs: map<string, Row>, scan: seq<string>, f: PageFilter, limit: nat, c: Cursor)
    requires limit >= 1
    requires || c.jobKey !in jobs || jobs[c.jobKey].updatedAt != c.updatedAt
             || (f.status.Some? && jobs[c.jobKey].status != f.status.value)
             || (f.jobType.Some? && jobs[c.jobKey].jobType != f.jobType.value)
    ensures ListPage(jobs, scan, f, limit, Some(c)) == Page([], None)
  {
  }

  /** The cursors can be followed to the end exactly if no page but the last ends with an empty job key; in
      particular always when no job has one. */
  lemma WalkExistsExactly(jobs: map<string, Row>, scan: seq<string>, f: PageFilter, limit: nat)
    requires KeysAgree(jobs) && IsScan(jobs, scan) && limit >= 1
    ensures (exists pages :: IsWholeWalk(jobs, scan, f, limit, pages)) <==> Unbroken(Ordered(jobs, scan, f, None), limit, 0)
    ensures "" !in jobs ==> Unbroken(Ordered(jobs, scan, f, None), limit, 0)
  {
    var all := Ordered(jobs, scan, f, None);
    forall i: nat | i <= |all| ensures SliceAt(jobs, scan, f, limit, all, i) { PageIsSlice(jobs, scan, f, limit, i); }
    WalkExists(jobs, scan, f, limit, all);
    OrderedExactly(jobs, scan, f, None);
    if "" !in jobs { NamedIsUnbroken(all, limit, 0); }
  }

  lemma WalkExists(jobs: map<string, Row>, scan: seq<string>, f: PageFilter, limit: nat, all: seq<Row>)
    requires limit >= 1 && SlicesOf(jobs, scan, f, limit, all)
    ensures (exists pages :: IsWholeWalk(jobs, scan, f, limit, pages)) <==> Unbroken(all, limit, 0)
  {
    forall pages | IsWholeWalk(jobs, scan, f, limit, pages) ensures Unbroken(all, limit, 0) {
      WalkLists(jobs, scan, f, limit, all, 0, pages);
    }
    if Unbroken(all, limit, 0) {
      var pages := WalkFrom(jobs, scan, f, limit, all, 0);
      assert IsWholeWalk(jobs, scan, f, limit, pages);
    }
  }

  lemma {:induction false} NamedIsUnbroken(all: seq<Row>, limit: nat, i: nat)
    requires limit >= 1 && forall row :: row in all ==> row.jobKey != ""
    ensures Unbroken(all, limit, i)
    decreases |all| - i
  {
    if i + limit < |all| {
      assert all[i + limit - 1] in all;
      NamedIsUnbroken(all, limit, i + limit);
    }
  }

  lemma {:induction false} LastPageEnds(jobs: map<string, Row>, scan: seq<string>, f: PageFilter, limit: nat,
                                        cursor: Option<Cursor>, pages: seq<Page>)
    requires limit >= 1 && IsWalk(jobs, scan, f, limit, cursor, pages)
    ensures pages[|pages| - 1].Page? && pages[|pages| - 1].nextCursor.None?
    decreases |pages|
  {
    if pages[0].nextCursor.Some? {
      LastPageEnds(jobs, scan, f, limit, pages[0].nextCursor, pages[1..]);
    }
  }
}
