/**
Keyset pagination over the request log. Rows may be inserted and deleted between two pages; a
traversal follows `next_cursor` from page to page, each page read from the table as it then is.
 */
module Pagination {
  import opened Common
  import opened Ordering
  import opened Cursor

  datatype Row = Row(
    ts: I64, id: string,
    projectId: string, gatewayKeyId: Option<string>, namespace: Option<string>, model: Option<string>, status: string)

  datatype Filter = Filter(
    projectId: Option<string>, gatewayKeyId: Option<string>, namespace: Option<string>, model: Option<string>,
    status: Option<string>, fromTs: Option<int>, toTs: Option<int>)

  datatype Page = Page(items: seq<Row>, next: Option<string>)

  /** `column = value`: false when the column is NULL. */
  predicate Equals(column: Option<string>, wanted: Option<string>) {
    wanted.None? || column == wanted
  }

  predicate Matches(f: Filter, r: Row) {
    && Equals(Some(r.projectId), f.projectId)
    && Equals(r.gatewayKeyId, f.gatewayKeyId)
    && Equals(r.namespace, f.namespace)
    && Equals(r.model, f.model)
    && Equals(Some(r.status), f.status)
    && (f.fromTs.Some? ==> r.ts >= f.fromTs.value)
    && (f.toTs.Some? ==> r.ts <= f.toTs.value)
  }

  /** `ORDER BY request_ts DESC, id DESC`. */
  predicate InOrder(a: Row, b: Row) {
    a.ts > b.ts || (a.ts == b.ts && LexLeq(Codes(b.id), Codes(a.id)))
  }

  /** Strictly later in that order than a row at `(ts, id)`. */
  predicate IsAfter(ts: int, id: string, r: Row) {
    r.ts < ts || (r.ts == ts && r.id != id && LexLeq(Codes(r.id), Codes(id)))
  }

  predicate After(a: Row, b: Row) {
    IsAfter(a.ts, a.id, b)
  }

  /** A cursor that cannot be parsed is ignored. */
  predicate PastCursor(cursor: Option<string>, r: Row) {
    cursor.None? || ParseCursor(cursor.value).None?
    || IsAfter(ParseCursor(cursor.value).value.0, ParseCursor(cursor.value).value.1, r)
  }

  function PageSize(limit: nat): (n: nat)
    ensures 1 <= n <= 500
  {
    if limit == 0 then 50 else if limit < 500 then limit else 500
  }

  function Select(table: seq<Row>, f: Filter, cursor: Option<string>): (rows: seq<Row>)
    ensures forall r :: r in rows <==> r in table && Matches(f, r) && PastCursor(cursor, r)
  {
    if table == [] then []
    else
      assert table == [table[0]] + table[1..];
      (if Matches(f, table[0]) && PastCursor(cursor, table[0]) then [table[0]] else []) + Select(table[1..], f, cursor)
  }

  /** Fetch one row more than the page holds to see whether there is a next one. */
  function PageOf(ordered: seq<Row>, size: nat): Page {
    var fetched := ordered[..Min(|ordered|, size + 1)];
    var items := fetched[..Min(|fetched|, size)];
    var more := |fetched| > size && items != [];
    Page(items, if more then Some(EncodeCursor(items[|items| - 1].ts, items[|items| - 1].id)) else None)
  }

  /** One page: select, order, take. */
  function Query(table: seq<Row>, f: Filter, cursor: Option<string>, limit: nat): Page {
    PageOf(Sort(InOrder, Select(table, f, cursor)), PageSize(limit))
  }

  /** `id` is the primary key. */
  ghost predicate IsTable(table: seq<Row>) {
    forall i, j :: 0 <= i < j < |table| ==> table[i].id != table[j].id
  }

  ghost predicate Descending(rows: seq<Row>) {
    forall i, j :: 0 <= i < j < |rows| ==> After(rows[i], rows[j])
  }

  // ---- The filter ----

  const EVERYTHING := Filter(None, None, None, None, None, None, None)

  /** Each part of a filter keeps exactly the rows whose own column has the wanted value, never one where it is NULL;
      both ends of the time range belong to it; and parts that are not set keep everything. */
  lemma FilterParts(r: Row, v: string, t: int)
    ensures Matches(EVERYTHING, r)
    ensures Matches(EVERYTHING.(projectId := Some(v)), r) <==> r.projectId == v
    ensures Matches(EVERYTHING.(gatewayKeyId := Some(v)), r) <==> r.gatewayKeyId == Some(v)
    ensures Matches(EVERYTHING.(namespace := Some(v)), r) <==> r.namespace == Some(v)
    ensures Matches(EVERYTHING.(model := Some(v)), r) <==> r.model == Some(v)
    ensures Matches(EVERYTHING.(status := Some(v)), r) <==> r.status == v
    ensures Matches(EVERYTHING.(fromTs := Some(t)), r) <==> r.ts >= t
    ensures Matches(EVERYTHING.(toTs := Some(t)), r) <==> r.ts <= t
  {
  }

  /** A filter keeps the rows that every part of it keeps. */
  lemma FilterIsConjunction(f: Filter, r: Row)
    ensures Matches(f, r) <==>
            && Matches(EVERYTHING.(projectId := f.projectId), r)
            && Matches(EVERYTHING.(gatewayKeyId := f.gatewayKeyId), r)
            && Matches(EVERYTHING.(namespace := f.namespace), r) && Matches(EVERYTHING.(model := f.model), r)
            && Matches(EVERYTHING.(status := f.status), r)
            && Matches(EVERYTHING.(fromTs := f.fromTs), r) && Matches(EVERYTHING.(toTs := f.toTs), r)
  {
  }

  /** Fifty rows unless asked otherwise, and never more than five hundred. */
  lemma PageSizes(limit: nat)
    ensures PageSize(0) == 50
    ensures 1 <= limit <= 500 ==> PageSize(limit) == limit
    ensures limit > 500 ==> PageSize(limit) == 500
  {
  }

  // ---- The order ----

  lemma OrderFacts(a: Row, b: Row)
    ensures InOrder(a, b) || InOrder(b, a)
    ensures InOrder(a, b) && a.id != b.id ==> After(a, b)
    ensures After(a, b) ==> InOrder(a, b) && !InOrder(b, a)
  {
    StringOrder(a.id, b.id);
  }

  lemma AfterTransitive(a: Row, b: Row, c: Row)
    requires InOrder(a, b) && InOrder(b, c)
    ensures InOrder(a, c)
    ensures After(a, b) || After(b, c) ==> After(a, c)
  {
    if a.ts == b.ts == c.ts {
      LexTransitive(Codes(c.id), Codes(b.id), Codes(a.id));
      StringOrder(a.id, b.id);
      StringOrder(b.id, c.id);
    }
  }

  lemma IsPreorder()
    ensures TotalPreorder(InOrder)
  {
    forall a, b ensures InOrder(a, b) || InOrder(b, a) { OrderFacts(a, b); }
    forall a, b, c | InOrder(a, b) && InOrder(b, c) ensures InOrder(a, c) { AfterTransitive(a, b, c); }
  }

  // ---- One page ----

  lemma {:induction false} SelectIsTable(table: seq<Row>, f: Filter, cursor: Option<string>)
    requires IsTable(table)
    ensures IsTable(Select(table, f, cursor))
  {
    if table != [] {
      var rest := Select(table[1..], f, cursor);
      SelectIsTable(table[1..], f, cursor);
      forall r | r in rest ensures r.id != table[0].id {
        var k :| 0 <= k < |table[1..]| && table[1..][k] == r;
        assert table[k + 1] == r;
      }
    }
  }

  /** The selected rows in order, each once. */
  lemma SortDescends(rows: seq<Row>)
    requires IsTable(rows)
    ensures Descending(Sort(InOrder, rows))
    ensures forall r :: r in Sort(InOrder, rows) <==> r in rows
  {
    var s := Sort(InOrder, rows);
    IsPreorder();
    SortSorts(InOrder, rows);
    SortDistinct(InOrder, rows);
    forall r ensures r in s <==> r in rows { SortMembers(InOrder, rows, r); }
    forall i, j | 0 <= i < j < |s| ensures After(s[i], s[j]) {
      assert s[i] in rows && s[j] in rows;
      var a :| 0 <= a < |rows| && rows[a] == s[i];
      var b :| 0 <= b < |rows| && rows[b] == s[j];
      OrderFacts(s[i], s[j]);
    }
  }

  /** The cursor of row `last`: past it are exactly the rows after `last`. */
  ghost predicate Marks(cursor: Option<string>, last: Row) {
    forall r :: PastCursor(cursor, r) <==> After(last, r)
  }

  lemma CursorMarks(last: Row)
    ensures Marks(Some(EncodeCursor(last.ts, last.id)), last)
  {
    CursorRoundTrip(last.ts, last.id);
  }

  /** What one page promises: its rows are the first selected ones, and a next cursor means a full page after
      which rows remain. */
  ghost predicate IsPage(table: seq<Row>, f: Filter, cursor: Option<string>, limit: nat, p: Page) {
    && Descending(p.items)
    && (forall r :: r in p.items ==> r in table && Matches(f, r) && PastCursor(cursor, r))
    && |p.items| <= PageSize(limit)
    && (p.next.Some? ==> |p.items| == PageSize(limit))
    && (p.next.Some? ==> Marks(p.next, p.items[|p.items| - 1]))
    && Complete(table, f, cursor, p)
  }

  /** A selected row is on the page, or there is a next page and the row comes after this one. */
  ghost predicate Complete(table: seq<Row>, f: Filter, cursor: Option<string>, p: Page) {
    forall r :: r in table && Matches(f, r) && PastCursor(cursor, r) ==>
          r in p.items || (p.next.Some? && PastCursor(p.next, r))
  }

  /** The page is the front of the ordered selection, and there is a next one exactly when something is left. */
  ghost predicate IsFront(ordered: seq<Row>, size: nat, p: Page)
    requires size >= 1
  {
    && p.items == ordered[..Min(|ordered|, size)]
    && (p.next.Some? <==> |ordered| > size)
    && (p.next.Some? ==> p.next == Some(EncodeCursor(ordered[size - 1].ts, ordered[size - 1].id)))
  }

  lemma {:induction false} FrontOf(ordered: seq<Row>, size: nat)
    requires size >= 1
    ensures IsFront(ordered, size, PageOf(ordered, size))
  {
    var fetched := ordered[..Min(|ordered|, size + 1)];
    assert fetched[..Min(|fetched|, size)] == ordered[..Min(|ordered|, size)];
  }

  lemma FrontIsComplete(ordered: seq<Row>, size: nat, p: Page, r: Row)
    requires size >= 1 && Descending(ordered) && IsFront(ordered, size, p) && r in ordered
    ensures r in p.items || (p.next.Some? && PastCursor(p.next, r))
  {
    var k :| 0 <= k < |ordered| && ordered[k] == r;
    if k < size {
      assert p.items[k] == r;
    } else {
      CursorMarks(ordered[size - 1]);
      assert After(ordered[size - 1], ordered[k]);
    }
  }

  lemma PageFacts(table: seq<Row>, f: Filter, cursor: Option<string>, limit: nat)
    requires IsTable(table)
    ensures IsPage(table, f, cursor, limit, Query(table, f, cursor, limit))
  {
    var selected := Select(table, f, cursor);
    SelectIsTable(table, f, cursor);
    SortDescends(selected);
    FrontOf(Sort(InOrder, selected), PageSize(limit));
    FrontIsPage(table, f, cursor, limit, Sort(InOrder, selected), Query(table, f, cursor, limit));
  }

  lemma FrontIsPage(
      table: seq<Row>, f: Filter, cursor: Option<string>, limit: nat, ordered: seq<Row>, p: Page)
    requires Descending(ordered) && IsFront(ordered, PageSize(limit), p)
    requires forall r :: r in ordered <==> r in table && Matches(f, r) && PastCursor(cursor, r)
    ensures IsPage(table, f, cursor, limit, p)
  {
    var size := PageSize(limit);
    if p.next.Some? {
      CursorMarks(ordered[size - 1]);
    }
    forall r | r in table && Matches(f, r) && PastCursor(cursor, r)
      ensures r in p.items || (p.next.Some? && PastCursor(p.next, r))
    {
      FrontIsComplete(ordered, size, p, r);
    }
  }

  // ---- Following the cursors ----

  function CursorAt(pages: seq<Page>, i: nat): Option<string>
    requires i <= |pages|
  {
    if i == 0 then None else pages[i - 1].next
  }

  /** Each page was read from the table of its time with the cursor of the page before it. */
  ghost predicate IsTraversal(tables: seq<seq<Row>>, f: Filter, limit: nat, pages: seq<Page>) {
    && |pages| == |tables|
    && (pages == [] || var n := |pages| - 1;
         && IsTraversal(tables[..n], f, limit, pages[..n])
         && IsTable(tables[n])
         && (n > 0 ==> pages[n - 1].next.Some?)
         && pages[n] == Query(tables[n], f, CursorAt(pages, n), limit))
  }

  /** The same with pages known only by what they promise; the traversal theorems need no more. */
  ghost predicate IsChain(tables: seq<seq<Row>>, f: Filter, limit: nat, pages: seq<Page>) {
    && |pages| == |tables|
    && (pages == [] || var n := |pages| - 1;
         && IsChain(tables[..n], f, limit, pages[..n])
         && (n > 0 ==> pages[n - 1].next.Some?)
         && IsPage(tables[n], f, CursorAt(pages, n), limit, pages[n]))
  }

  lemma {:induction false} TraversalIsChain(tables: seq<seq<Row>>, f: Filter, limit: nat, pages: seq<Page>)
    requires IsTraversal(tables, f, limit, pages)
    ensures IsChain(tables, f, limit, pages)
  {
    if pages != [] {
      var n := |pages| - 1;
      TraversalIsChain(tables[..n], f, limit, pages[..n]);
      PageFacts(tables[n], f, CursorAt(pages, n), limit);
    }
  }

  /** All rows returned, in the order they were. */
  function Items(pages: seq<Page>): seq<Row> {
    if pages == [] then [] else Items(pages[..|pages| - 1]) + pages[|pages| - 1].items
  }

  /** Once another page follows, nothing returned so far lies past its cursor. */
  ghost predicate Behind(rows: seq<Row>, cursor: Option<string>) {
    cursor.Some? && rows != [] && Descending(rows) && Marks(cursor, rows[|rows| - 1])
  }

  lemma JoinDescending(a: seq<Row>, b: seq<Row>, cursor: Option<string>)
    requires Behind(a, cursor) && Descending(b) && forall r :: r in b ==> PastCursor(cursor, r)
    ensures Descending(a + b)
  {
    var last := a[|a| - 1];
    forall i, j | 0 <= i < |a| && 0 <= j < |b| ensures After(a[i], b[j]) {
      assert b[j] in b && After(last, b[j]);
      if i < |a| - 1 {
        AfterBoth(a[i], last, b[j]);
      }
    }
  }

  lemma AfterBoth(a: Row, b: Row, c: Row)
    requires After(a, b) && After(b, c)
    ensures After(a, c)
  {
    OrderFacts(a, b);
    OrderFacts(b, c);
    AfterTransitive(a, b, c);
  }

  lemma JoinPage(before: seq<Row>, table: seq<Row>, f: Filter, cursor: Option<string>, limit: nat, p: Page)
    requires IsPage(table, f, cursor, limit, p)
    requires (before == [] && cursor.None?) || Behind(before, cursor)
    ensures Descending(before + p.items)
    ensures p.next.Some? ==> Behind(before + p.items, p.next) && |before + p.items| > |before|
  {
    var joined := before + p.items;
    assert p.items != [] ==> joined[|joined| - 1] == p.items[|p.items| - 1];
    if before == [] {
      assert joined == p.items;
    } else {
      JoinDescending(before, p.items, cursor);
    }
  }

  /** The rows of a chain are strictly descending from the first page to the last. */
  lemma {:induction false} ChainDescends(tables: seq<seq<Row>>, f: Filter, limit: nat, pages: seq<Page>)
    requires IsChain(tables, f, limit, pages)
    ensures Descending(Items(pages))
    ensures pages != [] && pages[|pages| - 1].next.Some? ==>
              Behind(Items(pages), pages[|pages| - 1].next) && |Items(pages)| >= |pages|
  {
    if pages != [] {
      var n := |pages| - 1;
      ChainDescends(tables[..n], f, limit, pages[..n]);
      assert n > 0 ==> pages[..n][n - 1] == pages[n - 1];
      JoinPage(Items(pages[..n]), tables[n], f, CursorAt(pages, n), limit, pages[n]);
    }
  }

  /** Every row returned was in the table of its page and matches the filter. */
  lemma {:induction false} ChainSound(tables: seq<seq<Row>>, f: Filter, limit: nat, pages: seq<Page>, r: Row)
    requires IsChain(tables, f, limit, pages) && r in Items(pages)
    ensures Matches(f, r) && exists i :: 0 <= i < |tables| && r in tables[i]
  {
    var n := |pages| - 1;
    if r in Items(pages[..n]) {
      ChainSound(tables[..n], f, limit, pages[..n], r);
      var i :| 0 <= i < n && r in tables[..n][i];
      assert r in tables[i];
    } else {
      assert r in tables[n];
    }
  }

  /** A matching row that every page could see has been returned, or a next page is still to come and the row
      lies past its cursor. */
  lemma {:induction false} NothingSkipped(tables: seq<seq<Row>>, f: Filter, limit: nat, pages: seq<Page>, r: Row)
    requires IsChain(tables, f, limit, pages) && pages != [] && Matches(f, r)
    requires forall i :: 0 <= i < |tables| ==> r in tables[i]
    ensures r in Items(pages) || (pages[|pages| - 1].next.Some? && PastCursor(pages[|pages| - 1].next, r))
  {
    var n := |pages| - 1;
    assert r in tables[n];
    if n > 0 {
      NothingSkipped(tables[..n], f, limit, pages[..n], r);
    }
  }

  /** No row is returned twice, whatever happens to the table between pages, and none out of order. */
  lemma NoRowTwice(tables: seq<seq<Row>>, f: Filter, limit: nat, pages: seq<Page>)
    requires IsTraversal(tables, f, limit, pages)
    ensures Descending(Items(pages)) && Distinct(Items(pages))
    ensures forall r :: r in Items(pages) ==> Matches(f, r) && exists i :: 0 <= i < |tables| && r in tables[i]
  {
    TraversalIsChain(tables, f, limit, pages);
    ChainDescends(tables, f, limit, pages);
    DescendingDistinct(Items(pages));
    forall r | r in Items(pages) ensures Matches(f, r) && exists i :: 0 <= i < |tables| && r in tables[i] {
      ChainSound(tables, f, limit, pages, r);
    }
  }

  /** In a completed traversal every matching row that was present throughout is returned exactly once. */
  lemma StableRowsExactlyOnce(tables: seq<seq<Row>>, f: Filter, limit: nat, pages: seq<Page>, r: Row)
    requires IsTraversal(tables, f, limit, pages) && pages != [] && pages[|pages| - 1].next.None?
    requires Matches(f, r) && forall i :: 0 <= i < |tables| ==> r in tables[i]
    ensures multiset(Items(pages))[r] == 1
  {
    TraversalIsChain(tables, f, limit, pages);
    NothingSkipped(tables, f, limit, pages, r);
    NoRowTwice(tables, f, limit, pages);
    DistinctMultiset(Items(pages));
    assert r in multiset(Items(pages));
  }

  lemma DescendingDistinct(rows: seq<Row>)
    requires Descending(rows)
    ensures Distinct(rows) && Sorted(InOrder, rows)
  {
    forall i, j | 0 <= i < j < |rows| ensures rows[i] != rows[j] && InOrder(rows[i], rows[j]) {
      OrderFacts(rows[i], rows[j]);
    }
  }

  /** Rows come newest first, and those of one timestamp by id, the greatest first. */
  lemma NewestFirst(rows: seq<Row>, i: nat, j: nat)
    requires Descending(rows) && i < j < |rows|
    ensures rows[i].ts >= rows[j].ts
    ensures rows[i].ts == rows[j].ts ==> rows[i].id != rows[j].id && LexLeq(Codes(rows[j].id), Codes(rows[i].id))
  {
    assert After(rows[i], rows[j]);
  }

  // ---- A table that does not change ----

  lemma TotalBounded(table: seq<Row>, rows: seq<Row>)
    requires Distinct(rows) && forall r :: r in rows ==> r in table
    ensures |rows| <= |table|
  {
    DistinctMultiset(rows);
    forall r ensures multiset(rows)[r] <= multiset(table)[r] {
      if r in rows {
        assert r in multiset(table);
      }
    }
    assert multiset(rows) <= multiset(table);
    assert multiset(table) == multiset(rows) + (multiset(table) - multiset(rows));
    assert |multiset(table)| == |multiset(rows)| + |multiset(table) - multiset(rows)|;
  }

  function Same(table: seq<Row>, n: nat): (r: seq<seq<Row>>)
    ensures |r| == n && forall i :: 0 <= i < n ==> r[i] == table
  {
    seq(n, _ => table)
  }

  lemma OneMorePage(table: seq<Row>, f: Filter, limit: nat, pages: seq<Page>, p: Page)
    requires IsChain(Same(table, |pages|), f, limit, pages) && IsPage(table, f, CursorAt(pages, |pages|), limit, p)
    requires pages != [] ==> pages[|pages| - 1].next.Some?
    ensures IsChain(Same(table, |pages| + 1), f, limit, pages + [p]) && Items(pages + [p]) == Items(pages) + p.items
  {
    assert (pages + [p])[..|pages|] == pages;
    assert Same(table, |pages| + 1)[..|pages|] == Same(table, |pages|);
    assert CursorAt(pages + [p], |pages|) == CursorAt(pages, |pages|);
  }

  lemma ItemsBounded(table: seq<Row>, f: Filter, limit: nat, pages: seq<Page>)
    requires IsChain(Same(table, |pages|), f, limit, pages) && pages != [] && pages[|pages| - 1].next.Some?
    ensures |pages| <= |table|
  {
    ChainDescends(Same(table, |pages|), f, limit, pages);
    DescendingDistinct(Items(pages));
    forall r | r in Items(pages) ensures r in table { ChainSound(Same(table, |pages|), f, limit, pages, r); }
    TotalBounded(table, Items(pages));
  }

  /** Two strictly descending sequences of the same rows are the same. */
  lemma DescendingUnique(a: seq<Row>, b: seq<Row>)
    requires Descending(a) && Descending(b) && forall r :: r in a <==> r in b
    ensures a == b
  {
    DescendingDistinct(a);
    DescendingDistinct(b);
    forall x, y | x in a && y in a && InOrder(x, y) && InOrder(y, x) ensures x == y {
      var i :| 0 <= i < |a| && a[i] == x;
      var j :| 0 <= j < |a| && a[j] == y;
      OrderFacts(x, y);
      OrderFacts(y, x);
    }
    SortedUnique(InOrder, a, b);
  }

  lemma CompleteIsWhole(table: seq<Row>, f: Filter, limit: nat, pages: seq<Page>)
    requires IsTable(table)
    requires IsChain(Same(table, |pages|), f, limit, pages) && pages != [] && pages[|pages| - 1].next.None?
    ensures Items(pages) == Sort(InOrder, Select(table, f, None))
  {
    var selected := Select(table, f, None);
    SelectIsTable(table, f, None);
    SortDescends(selected);
    ChainDescends(Same(table, |pages|), f, limit, pages);
    forall r ensures r in Items(pages) <==> r in selected {
      if r in Items(pages) {
        ChainSound(Same(table, |pages|), f, limit, pages, r);
      } else if r in selected {
        NothingSkipped(Same(table, |pages|), f, limit, pages, r);
      }
    }
    DescendingUnique(Items(pages), Sort(InOrder, selected));
  }

  method ReadPage(table: seq<Row>, f: Filter, cursor: Option<string>, limit: nat) returns (p: Page)
    requires IsTable(table)
    ensures IsPage(table, f, cursor, limit, p)
  {
    p := Query(table, f, cursor, limit);
    PageFacts(table, f, cursor, limit);
  }

  /** Following the cursors of a table that does not change ends, and yields exactly the matching rows in order. */
  method ReadAll(table: seq<Row>, f: Filter, limit: nat) returns (rows: seq<Row>)
    requires IsTable(table)
    ensures rows == Sort(InOrder, Select(table, f, None))
  {
    rows := [];
    var cursor := None;
    ghost var pages: seq<Page> := [];
    while true
      invariant IsChain(Same(table, |pages|), f, limit, pages) && rows == Items(pages)
      invariant cursor == CursorAt(pages, |pages|) && (pages != [] ==> cursor.Some?)
      decreases |table| + 1 - |pages|
    {
      var page := ReadPage(table, f, cursor, limit);
      OneMorePage(table, f, limit, pages, page);
      rows, pages := rows + page.items, pages + [page];
      if page.next.None? {
        break;
      }
      ItemsBounded(table, f, limit, pages);
      cursor := page.next;
    }
    CompleteIsWhole(table, f, limit, pages);
  }
}
