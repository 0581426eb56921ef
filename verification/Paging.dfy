/**
  The offset-paginated history of one user, on one table and on a table other workers grow.

  The database orders ids by its collation; `rank` stands for any such order, as a number
  per id. Rows are listed newest first, ties broken by the greater id.
 */
module Paging {
  import opened Prelude
  import opened Ledger
  import opened Pipeline
  import opened Safety

  type Rank = string -> real

  datatype Query = Query(user: string, dateFrom: Option<int>, dateTo: Option<int>)

  /** `_range_filter`: both bounds are inclusive. */
  predicate Matches(row: Row, q: Query) {
    && row.user == q.user
    && (q.dateFrom.Some? ==> row.timestamp >= q.dateFrom.value)
    && (q.dateTo.Some? ==> row.timestamp <= q.dateTo.value)
  }

  function Matching(table: Table, q: Query): set<Row> {
    set id | id in table && Matches(table[id], q) :: table[id]
  }

  predicate Before(a: Row, b: Row, rank: Rank) {
    a.timestamp > b.timestamp || (a.timestamp == b.timestamp && rank(a.id) > rank(b.id))
  }

  /** Ids are unique and the collation tells any two apart. */
  ghost predicate Orderable(rows: set<Row>, rank: Rank) {
    forall a, b :: a in rows && b in rows && a != b ==> rank(a.id) != rank(b.id)
  }

  // ------------------------------------------------------------------- ORDER BY

  lemma BeforeIsTransitive(a: Row, b: Row, c: Row, rank: Rank)
    requires Before(a, b, rank) && Before(b, c, rank)
    ensures Before(a, c, rank)
  {
  }

  lemma BeforeIsTotal(a: Row, b: Row, rank: Rank)
    requires rank(a.id) != rank(b.id)
    ensures Before(a, b, rank) != Before(b, a, rank)
  {
  }

  lemma {:induction false} NewestExists(rows: set<Row>, rank: Rank)
    requires rows != {} && Orderable(rows, rank)
    ensures exists r :: r in rows && forall x :: x in rows && x != r ==> Before(r, x, rank)
    decreases rows
  {
    var r :| r in rows;
    var rest := rows - {r};
    if rest == {} {
      assert rows == {r};
    } else {
      NewestExists(rest, rank);
      var n :| n in rest && forall x :: x in rest && x != n ==> Before(n, x, rank);
      BeforeIsTotal(r, n, rank);
      hide Before;
      var best := if Before(r, n, rank) then r else n;
      forall x | x in rows && x != best ensures Before(best, x, rank) {
        if best == r && x != n {
          assert x in rest;
          BeforeIsTransitive(r, n, x, rank);
        }
      }
    }
  }

  ghost function Newest(rows: set<Row>, rank: Rank): (r: Row)
    requires rows != {} && Orderable(rows, rank)
    ensures r in rows && forall x :: x in rows && x != r ==> Before(r, x, rank)
  {
    NewestExists(rows, rank);
    var r :| r in rows && forall x :: x in rows && x != r ==> Before(r, x, rank);
    r
  }

  ghost function Sorted(rows: set<Row>, rank: Rank): seq<Row>
    requires Orderable(rows, rank)
    decreases rows
  {
    if rows == {} then []
    else var n := Newest(rows, rank); [n] + Sorted(rows - {n}, rank)
  }

  /** How many rows come before `r`. */
  ghost function Position(rows: set<Row>, r: Row, rank: Rank): nat {
    |set x | x in rows && Before(x, r, rank)|
  }

  lemma {:induction false} SortedLength(rows: set<Row>, rank: Rank)
    requires Orderable(rows, rank)
    ensures |Sorted(rows, rank)| == |rows|
    decreases rows
  {
    if rows != {} {
      SortedLength(rows - {Newest(rows, rank)}, rank);
    }
  }

  /** Every row stands at its position. */
  lemma {:induction false} RowAtPosition(rows: set<Row>, rank: Rank, r: Row)
    requires Orderable(rows, rank) && r in rows
    ensures Position(rows, r, rank) < |Sorted(rows, rank)| == |rows|
    ensures Sorted(rows, rank)[Position(rows, r, rank)] == r
    decreases rows
  {
    SortedLength(rows, rank);
    var n := Newest(rows, rank);
    NewestIsFirst(rows, rank, r);
    if r != n {
      RowAtPosition(rows - {n}, rank, r);
    }
  }

  /** And nothing but rows is listed. */
  lemma {:induction false} PositionOfRow(rows: set<Row>, rank: Rank, i: nat)
    requires Orderable(rows, rank) && i < |Sorted(rows, rank)|
    ensures Sorted(rows, rank)[i] in rows && Position(rows, Sorted(rows, rank)[i], rank) == i
    decreases rows
  {
    var n := Newest(rows, rank);
    if i > 0 {
      PositionOfRow(rows - {n}, rank, i - 1);
    }
    NewestIsFirst(rows, rank, Sorted(rows, rank)[i]);
  }

  lemma NewestIsFirst(rows: set<Row>, rank: Rank, r: Row)
    requires rows != {} && Orderable(rows, rank) && r in rows
    ensures var n := Newest(rows, rank);
            Position(rows, r, rank) == if r == n then 0 else 1 + Position(rows - {n}, r, rank)
  {
    var n := Newest(rows, rank);
    if r == n {
      forall x | x in rows ensures !Before(x, n, rank) {
        assert x != n ==> Before(n, x, rank);
      }
      assert (set x | x in rows && Before(x, n, rank)) == {};
    } else {
      assert (set x | x in rows && Before(x, r, rank)) == {n} + (set x | x in rows - {n} && Before(x, r, rank));
    }
  }

  /** More rows can only push a row further back. */
  lemma PositionGrows(rows: set<Row>, more: set<Row>, r: Row, rank: Rank)
    requires rows <= more
    ensures Position(rows, r, rank) <= Position(more, r, rank)
  {
    var x, y := (set a | a in rows && Before(a, r, rank)), (set a | a in more && Before(a, r, rank));
    assert y == x + (y - x);
  }

  // ---------------------------------------------------------------- one request

  /** LIMIT and OFFSET. */
  function Slice(s: seq<Row>, offset: nat, limit: nat): (page: seq<Row>)
    ensures |page| <= limit
  {
    if offset >= |s| then [] else if offset + limit >= |s| then s[offset..] else s[offset..offset + limit]
  }

  datatype Page = Page(items: seq<Row>, total: nat, limit: nat, offset: nat, hasMore: bool)

  datatype PageError = BadRange

  /** `limit or api_page_size`, clamped to `api_max_page_size`; 0 counts as no limit given. */
  function PageSize(limit: Option<nat>, defaultSize: nat, maxSize: nat): nat {
    var wanted := if limit.Some? && limit.value > 0 then limit.value else defaultSize;
    if wanted < maxSize then wanted else maxSize
  }

  /** The size of a page: what was asked for, or the default, but never more than the maximum. */
  ghost predicate RightSize(size: nat, limit: Option<nat>, defaultSize: nat, maxSize: nat) {
    && (limit.Some? && limit.value >= 1 ==> size == if limit.value <= maxSize then limit.value else maxSize)
    && (limit == None || limit == Some(0) ==> size == if defaultSize <= maxSize then defaultSize else maxSize)
  }

  /** The endpoint: the count and the listing are two statements and may see two tables. */
  ghost function ListTransactions(counted: Table, listed: Table, q: Query, limit: Option<nat>, offset: nat,
                                  defaultSize: nat, maxSize: nat, rank: Rank): Result<Page, PageError>
    requires Orderable(Matching(listed, q), rank)
  {
    if q.dateFrom.Some? && q.dateTo.Some? && q.dateFrom.value > q.dateTo.value then Err(BadRange)
    else
      var size := PageSize(limit, defaultSize, maxSize);
      Ok(PageOf(|Matching(counted, q)|, Sorted(Matching(listed, q), rank), offset, size))
  }

  function PageOf(total: nat, rows: seq<Row>, offset: nat, size: nat): Page {
    var items := Slice(rows, offset, size);
    Page(items, total, size, offset, offset + |items| < total)
  }

  /** Each page of one table state holds exactly the rows at its positions. */
  lemma PageHoldsItsPositions(table: Table, q: Query, limit: Option<nat>, offset: nat,
                              defaultSize: nat, maxSize: nat, rank: Rank, r: Row)
    requires Orderable(Matching(table, q), rank)
    requires ListTransactions(table, table, q, limit, offset, defaultSize, maxSize, rank).Ok?
    ensures var page := ListTransactions(table, table, q, limit, offset, defaultSize, maxSize, rank).value;
            var rows := Matching(table, q);
            && (r in page.items <==> r in rows && offset <= Position(rows, r, rank) < offset + page.limit)
            && (page.hasMore <==> offset + |page.items| < |rows|)
            && RightSize(page.limit, limit, defaultSize, maxSize)
  {
    var rows := Matching(table, q);
    SortedLength(rows, rank);
    InSlice(rows, rank, offset, PageSize(limit, defaultSize, maxSize), r);
  }

  lemma InSlice(rows: set<Row>, rank: Rank, offset: nat, size: nat, r: Row)
    requires Orderable(rows, rank)
    ensures r in Slice(Sorted(rows, rank), offset, size) <==>
            r in rows && offset <= Position(rows, r, rank) < offset + size
  {
    hide Sorted, Position, Orderable, Slice;
    var s := Sorted(rows, rank);
    if r in Slice(s, offset, size) {
      var i := SlicedFrom(s, offset, size, r);
      PositionOfRow(rows, rank, i);
    }
    if r in rows {
      RowAtPosition(rows, rank, r);
      var k := Position(rows, r, rank);
      if offset <= k < offset + size { SliceHolds(s, offset, size, k); }
    }
  }

  lemma SlicedFrom(s: seq<Row>, offset: nat, size: nat, r: Row) returns (i: nat)
    requires r in Slice(s, offset, size)
    ensures offset <= i < offset + size && i < |s| && s[i] == r
  {
    var page := Slice(s, offset, size);
    var k :| 0 <= k < |page| && page[k] == r;
    i := offset + k;
  }

  lemma SliceHolds(s: seq<Row>, offset: nat, size: nat, k: nat)
    requires offset <= k < offset + size && k < |s|
    ensures s[k] in Slice(s, offset, size)
  {
    assert Slice(s, offset, size)[k - offset] == s[k];
  }

  // ---------------------------------------------------- walking a table that stands

  /** Follow `has_more`, advancing the offset by the length of each page. */
  function Walk(s: seq<Row>, offset: nat, size: nat): seq<seq<Row>>
    requires size > 0
    decreases if offset < |s| then |s| - offset else 0
  {
    var page := PageOf(|s|, s, offset, size);
    [page.items] + (if page.hasMore then Walk(s, offset + |page.items|, size) else [])
  }

  function Concat(pages: seq<seq<Row>>): seq<Row> {
    if pages == [] then [] else pages[0] + Concat(pages[1..])
  }

  predicate FullButLast(pages: seq<seq<Row>>, size: nat) {
    |pages| >= 1 && forall i :: 0 <= i < |pages| - 1 ==> |pages[i]| == size
  }

  lemma FullCons(page: seq<Row>, pages: seq<seq<Row>>, size: nat)
    requires |page| == size && FullButLast(pages, size)
    ensures FullButLast([page] + pages, size)
  {
  }

  /**
    A walk over a fixed table ends; its pages put together are the rest of the listing, in
    order and each row once; every page but the last is full.
   */
  lemma {:induction false} PagesTile(s: seq<Row>, offset: nat, size: nat)
    requires size > 0 && offset <= |s|
    ensures var pages := Walk(s, offset, size);
            && Concat(pages) == s[offset..]
            && FullButLast(pages, size)
    decreases |s| - offset
  {
    hide Walk, Concat, PageOf, FullButLast;
    if offset + size < |s| {
      FirstPage(s, offset, size);
      PagesTile(s, offset + size, size);
      var page, rest := s[offset..offset + size], Walk(s, offset + size, size);
      ConcatCons(page, rest);
      FullCons(page, rest, size);
      assert page + s[offset + size..] == s[offset..];
    } else {
      LastPage(s, offset, size);
    }
  }

  /** Newest first, ties broken by the greater id; so no row is listed twice. */
  ghost predicate Ordered(s: seq<Row>, rank: Rank) {
    forall i, j :: 0 <= i < j < |s| ==> Before(s[i], s[j], rank)
  }

  lemma {:induction false} SortedIsOrdered(rows: set<Row>, rank: Rank)
    requires Orderable(rows, rank)
    ensures forall r :: r in Sorted(rows, rank) <==> r in rows
    ensures Ordered(Sorted(rows, rank), rank)
    decreases rows
  {
    if rows != {} {
      var n := Newest(rows, rank);
      SortedIsOrdered(rows - {n}, rank);
      assert Sorted(rows, rank) == [n] + Sorted(rows - {n}, rank);
    }
  }

  /** The walk over the rows of one query: all of them, in order, each once. */
  lemma ListingTiles(table: Table, q: Query, size: nat, rank: Rank)
    requires size > 0 && Orderable(Matching(table, q), rank)
    ensures var pages := Walk(Sorted(Matching(table, q), rank), 0, size);
            && (forall r :: r in Concat(pages) <==>
                  && r in table.Values && r.user == q.user
                  && (q.dateFrom.Some? ==> q.dateFrom.value <= r.timestamp)
                  && (q.dateTo.Some? ==> r.timestamp <= q.dateTo.value))
            && Ordered(Concat(pages), rank) && |Concat(pages)| == |Matching(table, q)|
            && FullButLast(pages, size)
  {
    var s := Sorted(Matching(table, q), rank);
    PagesTile(s, 0, size);
    SortedIsOrdered(Matching(table, q), rank);
    SortedLength(Matching(table, q), rank);
    assert s[0..] == s;
    assert forall r :: r in Matching(table, q) <==> r in table.Values && Matches(r, q);
  }

  lemma FirstPage(s: seq<Row>, offset: nat, size: nat)
    requires size > 0 && offset + size < |s|
    ensures Walk(s, offset, size) == [s[offset..offset + size]] + Walk(s, offset + size, size)
  {
  }

  lemma LastPage(s: seq<Row>, offset: nat, size: nat)
    requires size > 0 && offset <= |s| <= offset + size
    ensures Concat(Walk(s, offset, size)) == s[offset..] && FullButLast(Walk(s, offset, size), size)
  {
    assert Slice(s, offset, size) == s[offset..];
    assert Walk(s, offset, size) == [s[offset..]] + [];
    ConcatCons(s[offset..], []);
  }

  lemma ConcatCons(page: seq<Row>, pages: seq<seq<Row>>)
    ensures Concat([page] + pages) == page + Concat(pages)
  {
    assert ([page] + pages)[1..] == pages;
  }

  // ------------------------------------------------------------- the endpoint itself

  /** What the caller asked for, in the fields of the row. */
  ghost predicate Wanted(row: Row, q: Query) {
    && row.user == q.user
    && (q.dateFrom.Some? ==> q.dateFrom.value <= row.timestamp)
    && (q.dateTo.Some? ==> row.timestamp <= q.dateTo.value)
  }

  lemma MatchingIsWanted(table: Table, q: Query)
    ensures forall r :: r in Matching(table, q) <==> r in table.Values && Wanted(r, q)
    ensures Matching(table, q) == set r | r in table.Values && Wanted(r, q)
  {
  }

  /** Newest first; among rows of one moment the greater id first. */
  ghost predicate NewestFirst(rows: seq<Row>, rank: Rank) {
    forall i, j :: 0 <= i < j < |rows| ==>
      rows[i].timestamp >= rows[j].timestamp
      && (rows[i].timestamp == rows[j].timestamp ==> rank(rows[i].id) > rank(rows[j].id))
  }

  /**
    One request, whatever the two statements see: it is refused exactly if the range is reversed;
    otherwise the total counts the wanted rows of the first, and the items are wanted rows
    of the second, in order, as many as the page holds or as there are from the offset on.
   */
  lemma EndpointAnswers(counted: Table, listed: Table, q: Query, limit: Option<nat>, offset: nat,
                        defaultSize: nat, maxSize: nat, rank: Rank)
    requires Orderable(Matching(listed, q), rank)
    ensures var r := ListTransactions(counted, listed, q, limit, offset, defaultSize, maxSize, rank);
            && (r.Err? <==> q.dateFrom.Some? && q.dateTo.Some? && q.dateFrom.value > q.dateTo.value)
            && (r.Ok? ==>
                  var page, there := r.value, |set row | row in listed.Values && Wanted(row, q)|;
                  && RightSize(page.limit, limit, defaultSize, maxSize) && page.offset == offset
                  && page.total == |set row | row in counted.Values && Wanted(row, q)|
                  && (page.hasMore <==> offset + |page.items| < page.total)
                  && |page.items| == (if there <= offset then 0
                                      else if there - offset < page.limit then there - offset else page.limit)
                  && (forall row :: row in page.items ==> row in listed.Values && Wanted(row, q))
                  && NewestFirst(page.items, rank))
  {
    hide Matching, Sorted, Orderable, Wanted, PageSize, RightSize, Slice, NewestFirst, Ordered;
    MatchingIsWanted(counted, q);
    MatchingIsWanted(listed, q);
    SizeIsRight(limit, defaultSize, maxSize);
    var rows := Matching(listed, q);
    SortedLength(rows, rank);
    SortedIsOrdered(rows, rank);
    SliceInOrder(Sorted(rows, rank), offset, PageSize(limit, defaultSize, maxSize), rank);
  }

  lemma SizeIsRight(limit: Option<nat>, defaultSize: nat, maxSize: nat)
    ensures RightSize(PageSize(limit, defaultSize, maxSize), limit, defaultSize, maxSize)
  {
  }

  lemma SliceInOrder(s: seq<Row>, offset: nat, size: nat, rank: Rank)
    requires Ordered(s, rank)
    ensures NewestFirst(Slice(s, offset, size), rank)
    ensures forall r :: r in Slice(s, offset, size) ==> r in s
    ensures |Slice(s, offset, size)| ==
            if |s| <= offset then 0 else if |s| - offset < size then |s| - offset else size
  {
    var page := Slice(s, offset, size);
    assert forall i :: 0 <= i < |page| ==> page[i] == s[offset + i];
  }

  /** A client that follows `has_more` over one table state. */
  ghost function Visit(table: Table, q: Query, limit: Option<nat>, offset: nat, defaultSize: nat, maxSize: nat,
                       rank: Rank): seq<Page>
    requires Orderable(Matching(table, q), rank) && PageSize(limit, defaultSize, maxSize) > 0
    requires ListTransactions(table, table, q, limit, offset, defaultSize, maxSize, rank).Ok?
    decreases |Matching(table, q)| - offset
  {
    SortedLength(Matching(table, q), rank);
    var page := ListTransactions(table, table, q, limit, offset, defaultSize, maxSize, rank).value;
    [page] +
    (if page.hasMore then Visit(table, q, limit, offset + |page.items|, defaultSize, maxSize, rank) else [])
  }

  function ItemsOf(pages: seq<Page>): seq<seq<Row>> {
    if pages == [] then [] else [pages[0].items] + ItemsOf(pages[1..])
  }

  lemma {:induction false} VisitIsWalk(table: Table, q: Query, limit: Option<nat>, offset: nat, defaultSize: nat,
                                       maxSize: nat, rank: Rank)
    requires Orderable(Matching(table, q), rank) && PageSize(limit, defaultSize, maxSize) > 0
    requires ListTransactions(table, table, q, limit, offset, defaultSize, maxSize, rank).Ok?
    ensures ItemsOf(Visit(table, q, limit, offset, defaultSize, maxSize, rank)) ==
            Walk(Sorted(Matching(table, q), rank), offset, PageSize(limit, defaultSize, maxSize))
    decreases |Matching(table, q)| - offset
  {
    hide Visit, Walk, ItemsOf, ListTransactions, Matching, Sorted, Orderable, PageSize;
    var size := PageSize(limit, defaultSize, maxSize);
    var page := VisitNext(table, q, limit, offset, defaultSize, maxSize, rank);
    WalkNext(Sorted(Matching(table, q), rank), offset, size);
    if page.hasMore {
      VisitIsWalk(table, q, limit, offset + |page.items|, defaultSize, maxSize, rank);
      ItemsCons(page, Visit(table, q, limit, offset + |page.items|, defaultSize, maxSize, rank));
    } else {
      ItemsCons(page, []);
    }
  }

  lemma VisitNext(table: Table, q: Query, limit: Option<nat>, offset: nat, defaultSize: nat, maxSize: nat, rank: Rank)
    returns (page: Page)
    requires Orderable(Matching(table, q), rank) && PageSize(limit, defaultSize, maxSize) > 0
    requires ListTransactions(table, table, q, limit, offset, defaultSize, maxSize, rank).Ok?
    ensures var rows := Sorted(Matching(table, q), rank);
            page == PageOf(|rows|, rows, offset, PageSize(limit, defaultSize, maxSize))
    ensures page.hasMore ==>
              && ListTransactions(table, table, q, limit, offset + |page.items|, defaultSize, maxSize, rank).Ok?
              && 0 <= |Matching(table, q)| - (offset + |page.items|) < |Matching(table, q)| - offset
    ensures Visit(table, q, limit, offset, defaultSize, maxSize, rank) ==
            [page] + if page.hasMore
                     then Visit(table, q, limit, offset + |page.items|, defaultSize, maxSize, rank) else []
  {
    hide Matching, Sorted, Orderable, PageSize, PageOf;
    var rows := Sorted(Matching(table, q), rank);
    SortedLength(Matching(table, q), rank);
    PageAdvances(rows, offset, PageSize(limit, defaultSize, maxSize));
    page := ListTransactions(table, table, q, limit, offset, defaultSize, maxSize, rank).value;
  }

  lemma PageAdvances(s: seq<Row>, offset: nat, size: nat)
    requires size > 0
    ensures var page := PageOf(|s|, s, offset, size);
            page.hasMore ==> 0 <= |s| - (offset + |page.items|) < |s| - offset
  {
  }

  lemma WalkNext(s: seq<Row>, offset: nat, size: nat)
    requires size > 0
    ensures var page := PageOf(|s|, s, offset, size);
            Walk(s, offset, size) == [page.items] + if page.hasMore then Walk(s, offset + |page.items|, size) else []
  {
  }

  lemma ItemsCons(page: Page, rest: seq<Page>)
    ensures ItemsOf([page] + rest) == [page.items] + ItemsOf(rest)
    ensures ItemsOf([]) == []
  {
    assert ([page] + rest)[1..] == rest;
  }

  /**
    Following `has_more` from offset 0 over one table state gives exactly the rows the caller asked
    for, both bounds included, each once, newest first with the greater id first among equals.
   */
  lemma EndpointWalk(table: Table, q: Query, limit: Option<nat>, defaultSize: nat, maxSize: nat, rank: Rank)
    requires Orderable(Matching(table, q), rank) && PageSize(limit, defaultSize, maxSize) > 0
    requires ListTransactions(table, table, q, limit, 0, defaultSize, maxSize, rank).Ok?
    ensures var rows := Concat(ItemsOf(Visit(table, q, limit, 0, defaultSize, maxSize, rank)));
            && (forall r :: r in rows <==>
                  && r in table.Values && r.user == q.user
                  && (q.dateFrom.Some? ==> q.dateFrom.value <= r.timestamp)
                  && (q.dateTo.Some? ==> r.timestamp <= q.dateTo.value))
            && NewestFirst(rows, rank)
  {
    VisitIsWalk(table, q, limit, 0, defaultSize, maxSize, rank);
    ListingTiles(table, q, PageSize(limit, defaultSize, maxSize), rank);
    var rows := Concat(Walk(Sorted(Matching(table, q), rank), 0, PageSize(limit, defaultSize, maxSize)));
    hide Walk, Concat, Sorted, Matching, ListTransactions, Visit, ItemsOf, PageSize, Orderable;
    OrderedIsNewestFirst(rows, rank);
  }

  lemma OrderedIsNewestFirst(rows: seq<Row>, rank: Rank)
    requires Ordered(rows, rank)
    ensures NewestFirst(rows, rank)
  {
  }

  /** With a page size of 0 (a maximum of 0 is not refused) a walk over any row never advances. */
  lemma ZeroPageSizeNeverAdvances(s: seq<Row>, offset: nat, size: nat)
    requires offset < |s|
    ensures var page := PageOf(|s|, s, offset, size);
            (page.hasMore && offset + |page.items| == offset) <==> size == 0
  {
  }

  // -------------------------------------------------- walking a table that grows

  /** What the two statements of one request see. */
  datatype Request = Request(counted: set<Row>, listed: set<Row>)

  ghost predicate AllOrderable(reqs: seq<Request>, rank: Rank) {
    forall i :: 0 <= i < |reqs| ==> Orderable(reqs[i].listed, rank)
  }

  /** The table only grows: from the count to the listing, and from one request to the next. */
  predicate Growing(reqs: seq<Request>) {
    && (forall i :: 0 <= i < |reqs| ==> reqs[i].counted <= reqs[i].listed)
    && (forall i :: 0 < i < |reqs| ==> reqs[i - 1].listed <= reqs[i].counted)
  }

  lemma RestStillGrows(reqs: seq<Request>, rank: Rank)
    requires AllOrderable(reqs, rank) && Growing(reqs) && |reqs| > 1
    ensures AllOrderable(reqs[1..], rank) && Growing(reqs[1..])
    ensures reqs[0].listed <= reqs[1].listed
  {
    var rest := reqs[1..];
    assert forall i :: 0 <= i < |rest| ==> rest[i] == reqs[i + 1];
  }

  ghost function PageAt(req: Request, offset: nat, size: nat, rank: Rank): Page
    requires Orderable(req.listed, rank)
  {
    PageOf(|req.counted|, Sorted(req.listed, rank), offset, size)
  }

  /** The number of requests the client makes, if `has_more` ever becomes false. */
  ghost function StopsAfter(reqs: seq<Request>, offset: nat, size: nat, rank: Rank): Option<nat>
    requires AllOrderable(reqs, rank)
  {
    if reqs == [] then None
    else
      var page := PageAt(reqs[0], offset, size, rank);
      if !page.hasMore then Some(1)
      else
        var rest := StopsAfter(reqs[1..], offset + |page.items|, size, rank);
        if rest.Some? then Some(rest.value + 1) else None
  }

  ghost function Collected(reqs: seq<Request>, offset: nat, size: nat, rank: Rank): set<Row>
    requires AllOrderable(reqs, rank)
  {
    if reqs == [] then {}
    else
      var page := PageAt(reqs[0], offset, size, rank);
      (set r | r in page.items) +
      (if page.hasMore then Collected(reqs[1..], offset + |page.items|, size, rank) else {})
  }

  /**
    Paging under concurrent inserts never skips: if the table only grows and the last request
    counts and lists the same rows, a client that advances `offset` by the page length until
    `has_more` is false collects every row that was listable at the start.
   */
  lemma {:induction false} NoRowSkipped(reqs: seq<Request>, offset: nat, size: nat, rank: Rank, n: nat, r: Row)
    requires AllOrderable(reqs, rank) && Growing(reqs)
    requires StopsAfter(reqs, offset, size, rank) == Some(n)
    requires 0 < n <= |reqs| && reqs[n - 1].counted == reqs[n - 1].listed
    requires r in reqs[0].listed && Position(reqs[0].listed, r, rank) >= offset
    ensures r in Collected(reqs, offset, size, rank)
    decreases n
  {
    hide PageAt, Position, Growing, Orderable, StopsAfter, Collected;
    var page := PageAt(reqs[0], offset, size, rank);
    FirstRequest(reqs, offset, size, rank);
    if r !in page.items {
      MissedRowIsBehind(reqs[0], offset, size, rank, r);
      if page.hasMore {
        RestStillGrows(reqs, rank);
        PositionGrows(reqs[0].listed, reqs[1].listed, r, rank);
        NoRowSkipped(reqs[1..], offset + |page.items|, size, rank, n - 1, r);
      }
    }
  }

  /** One request of a walk, and the walk that goes on from there. */
  lemma FirstRequest(reqs: seq<Request>, offset: nat, size: nat, rank: Rank)
    requires AllOrderable(reqs, rank) && reqs != []
    ensures var page := PageAt(reqs[0], offset, size, rank);
            && (forall r :: r in page.items ==> r in Collected(reqs, offset, size, rank))
            && (!page.hasMore ==> StopsAfter(reqs, offset, size, rank) == Some(1))
            && (page.hasMore ==>
                  && AllOrderable(reqs[1..], rank)
                  && Collected(reqs[1..], offset + |page.items|, size, rank) <= Collected(reqs, offset, size, rank)
                  && forall n :: StopsAfter(reqs, offset, size, rank) == Some(n) ==>
                       n > 1 && |reqs| > 1 && StopsAfter(reqs[1..], offset + |page.items|, size, rank) == Some(n - 1))
  {
    hide PageAt;
  }

  /** A row that is not on the page although it is not before it comes after it, so there is more. */
  lemma MissedRowIsBehind(req: Request, offset: nat, size: nat, rank: Rank, r: Row)
    requires Orderable(req.listed, rank) && r in req.listed && Position(req.listed, r, rank) >= offset
    requires r !in PageAt(req, offset, size, rank).items
    ensures var page := PageAt(req, offset, size, rank);
            && Position(req.listed, r, rank) >= offset + |page.items|
            && (req.counted == req.listed ==> page.hasMore)
  {
    RowAtPosition(req.listed, rank, r);
    InSlice(req.listed, rank, offset, size, r);
  }

  /** A walk from offset 0 collects everything that was there when it began. */
  lemma WalkCollectsEverything(reqs: seq<Request>, size: nat, rank: Rank, n: nat)
    requires AllOrderable(reqs, rank) && Growing(reqs)
    requires StopsAfter(reqs, 0, size, rank) == Some(n)
    requires 0 < n <= |reqs| && reqs[n - 1].counted == reqs[n - 1].listed
    ensures reqs[0].counted <= Collected(reqs, 0, size, rank)
  {
    forall r | r in reqs[0].counted ensures r in Collected(reqs, 0, size, rank) {
      NoRowSkipped(reqs, 0, size, rank, n, r);
    }
  }

  /** The rows that arrive between the count and the listing of one request and are listed before `r`. */
  ghost function Newer(req: Request, r: Row, rank: Rank): set<Row> {
    set x | x in req.listed - req.counted && Before(x, r, rank)
  }

  lemma NewerPushBack(req: Request, r: Row, rank: Rank)
    requires req.counted <= req.listed
    ensures Position(req.listed, r, rank) == Position(req.counted, r, rank) + |Newer(req, r, rank)|
  {
    var x, y := (set a | a in req.counted && Before(a, r, rank)), (set a | a in req.listed && Before(a, r, rank));
    assert y == x + Newer(req, r, rank);
  }

  /**
    Exactly when one request misses a row it has counted at or after its offset: when so many
    newer rows arrive between its count and its listing that they push the row off the page.
   */
  lemma RequestMissesIff(req: Request, offset: nat, size: nat, rank: Rank, r: Row)
    requires Orderable(req.listed, rank) && req.counted <= req.listed
    requires r in req.counted && Position(req.counted, r, rank) >= offset
    ensures r !in PageAt(req, offset, size, rank).items <==>
            |Newer(req, r, rank)| >= offset + size - Position(req.counted, r, rank)
  {
    NewerPushBack(req, r, rank);
    InSlice(req.listed, rank, offset, size, r);
  }

  lemma BeforeIsAhead(rows: set<Row>, a: Row, b: Row, rank: Rank)
    requires a in rows && Before(a, b, rank)
    ensures Position(rows, a, rank) < Position(rows, b, rank)
  {
    var x, y := (set c | c in rows && Before(c, a, rank)), (set c | c in rows && Before(c, b, rank));
    assert a in y && a !in x;
    forall c | c in x ensures c in y {
      BeforeIsTransitive(c, a, b, rank);
    }
    hide Before;
    OneMoreRow(x, y, a);
  }

  lemma OneMoreRow(x: set<Row>, y: set<Row>, a: Row)
    requires x <= y && a in y && a !in x
    ensures |x| < |y|
  {
    assert y == (x + {a}) + (y - (x + {a}));
  }

  /** Whoever collects a row has collected every row that was before it at the start. */
  lemma {:induction false} OlderIsLater(reqs: seq<Request>, offset: nat, size: nat, rank: Rank, r: Row, o: Row)
    requires AllOrderable(reqs, rank) && Growing(reqs) && reqs != []
    requires r in reqs[0].listed && o in reqs[0].listed && Before(r, o, rank)
    requires Position(reqs[0].listed, r, rank) >= offset && o in Collected(reqs, offset, size, rank)
    ensures r in Collected(reqs, offset, size, rank)
    decreases |reqs|
  {
    var page := PageAt(reqs[0], offset, size, rank);
    FirstRequest(reqs, offset, size, rank);
    if r !in page.items {
      MissedRowIsBehind(reqs[0], offset, size, rank, r);
      BeforeIsAhead(reqs[0].listed, r, o, rank);
      OnPageIsWithin(reqs[0], offset, size, rank, o);
      RestAfterPage(reqs, offset, size, rank, o);
      RestStillGrows(reqs, rank);
      PositionGrows(reqs[0].listed, reqs[1].listed, r, rank);
      hide PageAt, Position, Growing, AllOrderable, Collected, Before;
      OlderIsLater(reqs[1..], offset + |page.items|, size, rank, r, o);
    }
  }

  lemma OnPageIsWithin(req: Request, offset: nat, size: nat, rank: Rank, r: Row)
    requires Orderable(req.listed, rank)
    ensures var page := PageAt(req, offset, size, rank);
            r in page.items ==> Position(req.listed, r, rank) < offset + |page.items|
  {
    var page := PageAt(req, offset, size, rank);
    if r in page.items {
      var i :| 0 <= i < |page.items| && page.items[i] == r;
      assert Sorted(req.listed, rank)[offset + i] == r;
      PositionOfRow(req.listed, rank, offset + i);
    }
  }

  lemma RestAfterPage(reqs: seq<Request>, offset: nat, size: nat, rank: Rank, r: Row)
    requires AllOrderable(reqs, rank) && reqs != []
    requires r in Collected(reqs, offset, size, rank) && r !in PageAt(reqs[0], offset, size, rank).items
    ensures var page := PageAt(reqs[0], offset, size, rank);
            page.hasMore && |reqs| > 1 && AllOrderable(reqs[1..], rank)
            && r in Collected(reqs[1..], offset + |page.items|, size, rank)
  {
    hide PageAt;
  }

  /** So a walk skips nothing that was there when it began if and only if it collects the oldest such row. */
  lemma WalkSkipsNothingIff(reqs: seq<Request>, size: nat, rank: Rank, oldest: Row)
    requires AllOrderable(reqs, rank) && Growing(reqs) && reqs != []
    requires oldest in reqs[0].counted && forall r :: r in reqs[0].counted && r != oldest ==> Before(r, oldest, rank)
    ensures reqs[0].counted <= Collected(reqs, 0, size, rank) <==> oldest in Collected(reqs, 0, size, rank)
  {
    if oldest in Collected(reqs, 0, size, rank) {
      forall r | r in reqs[0].counted ensures r in Collected(reqs, 0, size, rank) {
        if r != oldest { OlderIsLater(reqs, 0, size, rank, r, oldest); }
      }
    }
  }

  /** The offset of the last of the `n` requests a walk makes. */
  ghost function LastOffset(reqs: seq<Request>, offset: nat, size: nat, rank: Rank, n: nat): nat
    requires AllOrderable(reqs, rank) && 1 <= n <= |reqs|
    decreases n
  {
    if n == 1 then offset
    else LastOffset(reqs[1..], offset + |PageAt(reqs[0], offset, size, rank).items|, size, rank, n - 1)
  }

  /** What the first `n - 1` pages of a walk hold. */
  ghost function Earlier(reqs: seq<Request>, offset: nat, size: nat, rank: Rank, n: nat): set<Row>
    requires AllOrderable(reqs, rank) && 1 <= n <= |reqs|
    decreases n
  {
    if n == 1 then {}
    else
      var page := PageAt(reqs[0], offset, size, rank);
      (set r | r in page.items) + Earlier(reqs[1..], offset + |page.items|, size, rank, n - 1)
  }

  /**
    Exactly when a walk misses a row that was there when it began: the row is on no page but the last
    could hold it, and newer rows arriving between the last count and the last listing push it off.
   */
  lemma {:induction false} WalkMissesIff(reqs: seq<Request>, offset: nat, size: nat, rank: Rank, n: nat, r: Row)
    requires AllOrderable(reqs, rank) && Growing(reqs)
    requires 1 <= n <= |reqs| && StopsAfter(reqs, offset, size, rank) == Some(n)
    requires r in reqs[0].counted && Position(reqs[0].counted, r, rank) >= offset
    ensures r in reqs[n - 1].counted
    ensures r !in Collected(reqs, offset, size, rank) <==>
            && r !in Earlier(reqs, offset, size, rank, n)
            && |Newer(reqs[n - 1], r, rank)| >=
               LastOffset(reqs, offset, size, rank, n) + size - Position(reqs[n - 1].counted, r, rank)
    decreases n
  {
    hide PageAt, Position, Growing, Orderable, Newer;
    var page := PageAt(reqs[0], offset, size, rank);
    FirstRequest(reqs, offset, size, rank);
    CountedIsListed(reqs);
    if n == 1 {
      LastPageIsAll(reqs, offset, size, rank);
      RequestMissesIff(reqs[0], offset, size, rank, r);
    } else {
      NotTheLast(reqs, offset, size, rank, n);
      RestStillGrows(reqs, rank);
      CountedIsListed(reqs[1..]);
      if r in page.items {
        StillCounted(reqs, r, n);
      } else {
        NewerPushBack(reqs[0], r, rank);
        MissedRowIsBehind(reqs[0], offset, size, rank, r);
        PositionGrows(reqs[0].listed, reqs[1].counted, r, rank);
        WalkMissesIff(reqs[1..], offset + |page.items|, size, rank, n - 1, r);
      }
    }
  }

  lemma CountedIsListed(reqs: seq<Request>)
    requires Growing(reqs) && reqs != []
    ensures reqs[0].counted <= reqs[0].listed
    ensures |reqs| > 1 ==> reqs[0].listed <= reqs[1].counted
  {
  }

  lemma {:induction false} StillCounted(reqs: seq<Request>, r: Row, n: nat)
    requires Growing(reqs) && 1 <= n <= |reqs| && r in reqs[0].counted
    ensures r in reqs[n - 1].counted
    decreases n
  {
    if n > 1 {
      StillCounted(reqs, r, n - 1);
      assert reqs[n - 2].counted <= reqs[n - 2].listed <= reqs[n - 1].counted;
    }
  }

  lemma LastPageIsAll(reqs: seq<Request>, offset: nat, size: nat, rank: Rank)
    requires AllOrderable(reqs, rank) && reqs != [] && StopsAfter(reqs, offset, size, rank) == Some(1)
    ensures Collected(reqs, offset, size, rank) == set r | r in PageAt(reqs[0], offset, size, rank).items
  {
    hide PageAt;
    var page := PageAt(reqs[0], offset, size, rank);
    assert |reqs| > 1 ==> StopsAfter(reqs[1..], offset + |page.items|, size, rank) != Some(0);
  }

  lemma NotTheLast(reqs: seq<Request>, offset: nat, size: nat, rank: Rank, n: nat)
    requires AllOrderable(reqs, rank) && 1 < n <= |reqs| && StopsAfter(reqs, offset, size, rank) == Some(n)
    ensures var page := PageAt(reqs[0], offset, size, rank);
            && page.hasMore && AllOrderable(reqs[1..], rank)
            && StopsAfter(reqs[1..], offset + |page.items|, size, rank) == Some(n - 1)
            && Collected(reqs, offset, size, rank) ==
               (set r | r in page.items) + Collected(reqs[1..], offset + |page.items|, size, rank)
  {
    hide PageAt;
  }

  /** So exactly when it skips anything that was there: when that happens to the oldest such row. */
  lemma WalkSkipsIff(reqs: seq<Request>, size: nat, rank: Rank, n: nat, oldest: Row)
    requires AllOrderable(reqs, rank) && Growing(reqs)
    requires 1 <= n <= |reqs| && StopsAfter(reqs, 0, size, rank) == Some(n)
    requires oldest in reqs[0].counted && forall r :: r in reqs[0].counted && r != oldest ==> Before(r, oldest, rank)
    ensures !(reqs[0].counted <= Collected(reqs, 0, size, rank)) <==>
            && oldest !in Earlier(reqs, 0, size, rank, n)
            && |Newer(reqs[n - 1], oldest, rank)| >=
               LastOffset(reqs, 0, size, rank, n) + size - Position(reqs[n - 1].counted, oldest, rank)
  {
    WalkSkipsNothingIff(reqs, size, rank, oldest);
    WalkMissesIff(reqs, 0, size, rank, n, oldest);
  }

  /**
    The condition is needed: when a newer row is inserted between the count and the listing
    of the last request, the walk stops early and the row that was there is never returned.
   */
  lemma InsertBetweenCountAndListSkips(present: Row, inserted: Row, rank: Rank)
    requires rank(inserted.id) != rank(present.id) && inserted.timestamp > present.timestamp
    ensures var reqs := [Request({present}, {present, inserted})];
            && AllOrderable(reqs, rank) && Growing(reqs)
            && StopsAfter(reqs, 0, 1, rank) == Some(1)
            && Collected(reqs, 0, 1, rank) == {inserted}
  {
    var rows := {present, inserted};
    var reqs := [Request({present}, rows)];
    assert Newest(rows, rank) == inserted;
    var page := PageAt(reqs[0], 0, 1, rank);
    assert Sorted(rows, rank)[..1] == [inserted];
    SortedLength(rows, rank);
    assert page.items == [inserted];
  }

  /** In a run of the pipeline what matches a query only grows, so its snapshots are such requests. */
  lemma MatchingGrows(cfg: Settings, past: seq<Action>, future: seq<Action>, q: Query)
    ensures Matching(Exec(cfg, INITIAL, past).table, q) <= Matching(Exec(cfg, INITIAL, past + future).table, q)
  {
    ExecSplit(cfg, INITIAL, past, future);
    RunGrows(cfg, Exec(cfg, INITIAL, past), future);
  }

  /** And its rows are told apart by any collation that tells ids apart. */
  lemma MatchingIsOrderable(cfg: Settings, run: seq<Action>, q: Query, rank: Rank)
    requires LegalRun(cfg, INITIAL, run)
    requires forall a, b :: a != b ==> rank(a) != rank(b)
    ensures Orderable(Matching(Exec(cfg, INITIAL, run).table, q), rank)
  {
    Reachable(cfg, run);
  }
}
