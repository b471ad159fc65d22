/** Keyset paging in the read API: over a fully loaded sorted list, and over a query that fetches one
    row more than the page. */
module Paging {
  import opened Wrappers

  /** Time and id, each in its own total order. */
  datatype Key = Key(at: int, id: int)

  datatype Row = Row(key: Key, body: nat)

  /** A decoded cursor; the codec makes text and payload correspond one to one. */
  datatype Cursor = Cursor(endpoint: string, filters: string, revision: string, key: Key)

  /** What one request fixes besides the cursor. */
  datatype Request = Request(endpoint: string, filters: string, revision: string, limit: nat)

  datatype PageResult = Page(rows: seq<Row>, next: Option<Cursor>) | FilterMismatch | RevisionStale | BoundaryMissing

  predicate Before(a: Key, b: Key, descending: bool) {
    if descending then b.at < a.at || (b.at == a.at && b.id < a.id)
    else a.at < b.at || (a.at == b.at && a.id < b.id)
  }

  predicate DistinctKeys(rows: seq<Row>) {
    forall i, j :: 0 <= i < j < |rows| ==> rows[i].key != rows[j].key
  }

  predicate Sorted(rows: seq<Row>, descending: bool) {
    forall i, j :: 0 <= i < j < |rows| ==> Before(rows[i].key, rows[j].key, descending)
  }

  predicate HasKey(rows: seq<Row>, key: Key) {
    exists i :: 0 <= i < |rows| && rows[i].key == key
  }

  // ---- Queries: filter, order, take ----

  function Where(rows: seq<Row>, keep: Row -> bool): seq<Row> {
    if rows == [] then [] else (if keep(rows[0]) then [rows[0]] else []) + Where(rows[1..], keep)
  }

  function Insert(row: Row, rows: seq<Row>, descending: bool): seq<Row> {
    if rows == [] || Before(row.key, rows[0].key, descending) then [row] + rows
    else [rows[0]] + Insert(row, rows[1..], descending)
  }

  function OrderBy(rows: seq<Row>, descending: bool): seq<Row> {
    if rows == [] then [] else Insert(rows[0], OrderBy(rows[1..], descending), descending)
  }

  function Take(rows: seq<Row>, n: nat): seq<Row> {
    if |rows| <= n then rows else rows[..n]
  }

  // ---- Paging over the loaded list ----

  function IndexAfter(rows: seq<Row>, key: Key): Option<nat> {
    if rows == [] then None
    else if rows[0].key == key then Some(1)
    else var tail := IndexAfter(rows[1..], key); if tail.None? then None else Some(tail.value + 1)
  }

  function CursorOf(q: Request, key: Key): Cursor {
    Cursor(q.endpoint, q.filters, q.revision, key)
  }

  function PageFrom(rows: seq<Row>, q: Request, start: nat): PageResult
    requires start <= |rows|
  {
    var page := Take(rows[start..], q.limit);
    Page(page, if start + q.limit < |rows| && page != [] then Some(CursorOf(q, page[|page| - 1].key)) else None)
  }

  function LoadedPage(rows: seq<Row>, q: Request, cursor: Option<Cursor>): PageResult {
    if cursor.None? then PageFrom(rows, q, 0)
    else if cursor.value.endpoint != q.endpoint || cursor.value.filters != q.filters then FilterMismatch
    else if cursor.value.revision != q.revision then RevisionStale
    else
      var start := IndexAfter(rows, cursor.value.key);
      if start.None? then BoundaryMissing else
        IndexAfterBounds(rows, cursor.value.key);
        PageFrom(rows, q, start.value)
  }

  lemma {:induction false} IndexAfterBounds(rows: seq<Row>, key: Key)
    ensures IndexAfter(rows, key).Some? <==> HasKey(rows, key)
    ensures var i := IndexAfter(rows, key); i.Some? ==> 0 < i.value <= |rows| && rows[i.value - 1].key == key
  {
    if rows != [] && rows[0].key != key {
      IndexAfterBounds(rows[1..], key);
      if HasKey(rows, key) {
        var i :| 0 <= i < |rows| && rows[i].key == key;
        assert rows[1..][i - 1].key == key;
      }
    }
  }

  /** These rows are the page from this place on, and the cursor is the last one's key if more follow. */
  predicate IsPageAt(rows: seq<Row>, q: Request, start: nat, page: seq<Row>, next: Option<Cursor>) {
    && start + |page| <= |rows| && |page| <= q.limit && (start + |page| < |rows| ==> |page| == q.limit)
    && (forall i :: 0 <= i < |page| ==> page[i] == rows[start + i])
    && (next.Some? <==> page != [] && start + |page| < |rows|)
    && (next.Some? ==> next.value == Cursor(q.endpoint, q.filters, q.revision, rows[start + |page| - 1].key))
  }

  lemma PageFromInColumns(rows: seq<Row>, q: Request, start: nat)
    requires start <= |rows|
    ensures PageFrom(rows, q, start).Page?
    ensures IsPageAt(rows, q, start, PageFrom(rows, q, start).rows, PageFrom(rows, q, start).next)
  {
  }

  /** The page and its errors in columns: a cursor of another endpoint or filter, of another revision, or
      of no row of the list is refused in this order. */
  lemma LoadedPageInColumns(rows: seq<Row>, q: Request, cursor: Option<Cursor>)
    ensures var r := LoadedPage(rows, q, cursor);
            && (cursor.None? ==> r.Page? && IsPageAt(rows, q, 0, r.rows, r.next))
            && (cursor.Some? ==>
                  var c := cursor.value;
                  if c.endpoint != q.endpoint || c.filters != q.filters then r == FilterMismatch
                  else if c.revision != q.revision then r == RevisionStale
                  else if forall i :: 0 <= i < |rows| ==> rows[i].key != c.key then r == BoundaryMissing
                  else r.Page? && exists i :: 0 <= i < |rows| && rows[i].key == c.key &&
                                              IsPageAt(rows, q, i + 1, r.rows, r.next))
  {
    hide PageFrom, IsPageAt;
    if cursor.None? {
      PageFromInColumns(rows, q, 0);
    } else {
      var c := cursor.value;
      IndexAfterBounds(rows, c.key);
      if c.endpoint == q.endpoint && c.filters == q.filters && c.revision == q.revision && HasKey(rows, c.key) {
        var start := IndexAfter(rows, c.key).value;
        PageFromInColumns(rows, q, start);
        assert rows[start - 1].key == c.key;
      }
    }
  }

  /** The in-memory endpoint as the source writes it. */
  method PageLoadedRows(rows: seq<Row>, q: Request, cursor: Option<Cursor>) returns (r: PageResult)
    ensures r == LoadedPage(rows, q, cursor)
  {
    var start := 0;
    if cursor.Some? {
      var payload := cursor.value;
      if payload.endpoint != q.endpoint || payload.filters != q.filters {
        return FilterMismatch;
      }
      if payload.revision != q.revision {
        return RevisionStale;
      }
      start := -1;
      var index := 0;
      while index < |rows|
        invariant 0 <= index <= |rows| && start == -1
        invariant IndexAfter(rows, payload.key) ==
                  var tail := IndexAfter(rows[index..], payload.key);
                  if tail.None? then None else Some(tail.value + index)
      {
        assert rows[index..][1..] == rows[index + 1..];
        if rows[index].key == payload.key {
          start := index + 1;
          break;
        }
        index := index + 1;
      }
      IndexAfterBounds(rows, payload.key);
      if start < 0 {
        return BoundaryMissing;
      }
    }
    var page := Take(rows[start..], q.limit);
    var next: Option<Cursor> := None;
    if start + q.limit < |rows| && page != [] {
      next := Some(CursorOf(q, page[|page| - 1].key));
    }
    r := Page(page, next);
  }

  // ---- Paging in the database ----

  /** What a fetch of one row more than the page tells. */
  function FetchedPage(rest: seq<Row>, q: Request): PageResult {
    var fetched := Take(rest, q.limit + 1);
    var page := Take(fetched, q.limit);
    Page(page, if |fetched| > q.limit && page != [] then Some(CursorOf(q, page[|page| - 1].key)) else None)
  }

  /** The boundary of the query: strictly past the cursor's key. */
  function Past(keep: Row -> bool, cursor: Option<Cursor>, descending: bool): Row -> bool {
    (row: Row) => keep(row) && (cursor.None? || Before(cursor.value.key, row.key, descending))
  }

  /** Strict boundary, limit plus one, and the page with what the extra row says. */
  function QueriedPage(table: seq<Row>, keep: Row -> bool, descending: bool, q: Request,
                       cursor: Option<Cursor>): PageResult {
    if cursor.Some? && (cursor.value.endpoint != q.endpoint || cursor.value.filters != q.filters) then FilterMismatch
    else
      var page := FetchedPage(OrderBy(Where(table, Past(keep, cursor, descending)), descending), q);
      if cursor.Some? && cursor.value.revision != q.revision then RevisionStale else page
  }

  // ---- Ordering facts ----

  lemma {:induction false} WhereMembers(rows: seq<Row>, keep: Row -> bool, row: Row)
    ensures row in Where(rows, keep) <==> row in rows && keep(row)
  {
    if rows != [] {
      WhereMembers(rows[1..], keep, row);
      assert rows == [rows[0]] + rows[1..];
    }
  }

  lemma {:induction false} WhereDistinct(rows: seq<Row>, keep: Row -> bool)
    requires DistinctKeys(rows)
    ensures DistinctKeys(Where(rows, keep))
  {
    if rows != [] {
      WhereDistinct(rows[1..], keep);
      forall i | 0 <= i < |Where(rows[1..], keep)|
        ensures Where(rows[1..], keep)[i].key != rows[0].key
      {
        WhereMembers(rows[1..], keep, Where(rows[1..], keep)[i]);
      }
    }
  }

  lemma TailKeys(rows: seq<Row>, key: Key)
    requires rows != []
    ensures HasKey(rows[1..], key) ==> HasKey(rows, key)
    ensures DistinctKeys(rows) ==> !HasKey(rows[1..], rows[0].key)
  {
    forall i | 0 <= i < |rows[1..]|
      ensures rows[1..][i] == rows[i + 1]
    {
    }
  }

  lemma KeysComeFrom(some: seq<Row>, rows: seq<Row>, key: Key)
    requires forall r :: r in some ==> r in rows
    ensures HasKey(some, key) ==> HasKey(rows, key)
  {
    if HasKey(some, key) {
      var i :| 0 <= i < |some| && some[i].key == key;
      assert some[i] in rows;
    }
  }

  lemma {:induction false} InsertSorted(row: Row, rows: seq<Row>, descending: bool)
    requires Sorted(rows, descending) && !HasKey(rows, row.key)
    ensures Sorted(Insert(row, rows, descending), descending)
    ensures forall r :: r in Insert(row, rows, descending) <==> r == row || r in rows
  {
    if rows != [] && !Before(row.key, rows[0].key, descending) {
      assert rows[0].key != row.key;
      TailKeys(rows, row.key);
      InsertSorted(row, rows[1..], descending);
      var tail := Insert(row, rows[1..], descending);
      assert rows == [rows[0]] + rows[1..];
      forall i | 0 <= i < |tail|
        ensures Before(rows[0].key, tail[i].key, descending)
      {
        assert tail[i] in tail;
        if tail[i] != row {
          assert tail[i] in rows[1..];
        }
      }
    }
  }

  lemma {:induction false} OrderBySorts(rows: seq<Row>, descending: bool)
    requires DistinctKeys(rows)
    ensures Sorted(OrderBy(rows, descending), descending)
    ensures forall r :: r in OrderBy(rows, descending) <==> r in rows
  {
    if rows != [] {
      var tail := OrderBy(rows[1..], descending);
      OrderBySorts(rows[1..], descending);
      TailKeys(rows, rows[0].key);
      KeysComeFrom(tail, rows[1..], rows[0].key);
      InsertSorted(rows[0], tail, descending);
      assert rows == [rows[0]] + rows[1..];
    }
  }

  lemma BothEmpty(a: seq<Row>, b: seq<Row>)
    requires forall r :: r in a <==> r in b
    ensures a != [] <==> b != []
  {
    if a != [] {
      assert a[0] in b;
    }
    if b != [] {
      assert b[0] in a;
    }
  }

  /** Two strictly sorted lists with the same rows are the same list. */
  lemma {:induction false} SortedIsUnique(a: seq<Row>, b: seq<Row>, descending: bool)
    requires Sorted(a, descending) && Sorted(b, descending)
    requires forall r :: r in a <==> r in b
    ensures a == b
  {
    BothEmpty(a, b);
    if a != [] {
      assert a[0] in b && b[0] in a;
      assert a[0] == b[0] by {
        var i :| 0 <= i < |b| && b[i] == a[0];
        var j :| 0 <= j < |a| && a[j] == b[0];
      }
      forall r
        ensures r in a[1..] <==> r in b[1..]
      {
        SortedTailMembers(a, descending, r);
        SortedTailMembers(b, descending, r);
      }
      SortedIsUnique(a[1..], b[1..], descending);
    }
  }

  lemma SortedTailMembers(a: seq<Row>, descending: bool, r: Row)
    requires a != [] && Sorted(a, descending)
    ensures r in a[1..] <==> r in a && r != a[0]
  {
    assert a == [a[0]] + a[1..];
    if r in a[1..] {
      var i :| 0 <= i < |a[1..]| && a[1..][i] == r;
      assert a[i + 1] == r && Before(a[0].key, a[i + 1].key, descending);
    }
  }

  /** Rows strictly past a key of a sorted list are the rows after it. */
  lemma PastIsSuffix(rows: seq<Row>, start: nat, descending: bool, r: Row)
    requires Sorted(rows, descending) && 0 < start <= |rows|
    ensures r in rows[start..] <==> r in rows && Before(rows[start - 1].key, r.key, descending)
  {
    if r in rows[start..] {
      var i :| 0 <= i < |rows[start..]| && rows[start..][i] == r;
      assert rows[start + i] == r;
    }
    if r in rows && Before(rows[start - 1].key, r.key, descending) {
      var i :| 0 <= i < |rows| && rows[i] == r;
      assert i >= start;
      assert rows[start..][i - start] == r;
    }
  }

  /** The query past a boundary row returns the rest of the fully loaded list. */
  lemma QueryIsSuffix(table: seq<Row>, keep: Row -> bool, descending: bool, start: nat)
    requires DistinctKeys(table) && start <= |OrderBy(Where(table, keep), descending)|
    ensures var rows := OrderBy(Where(table, keep), descending);
            start > 0 ==>
              OrderBy(Where(table, (row: Row) => keep(row) && Before(rows[start - 1].key, row.key, descending)),
                      descending) == rows[start..]
  {
    if start > 0 {
      var rows := OrderBy(Where(table, keep), descending);
      var past := (row: Row) => keep(row) && Before(rows[start - 1].key, row.key, descending);
      WhereDistinct(table, keep);
      WhereDistinct(table, past);
      OrderBySorts(Where(table, keep), descending);
      OrderBySorts(Where(table, past), descending);
      forall r
        ensures r in OrderBy(Where(table, past), descending) <==> r in rows[start..]
      {
        WhereMembers(table, past, r);
        WhereMembers(table, keep, r);
        PastIsSuffix(rows, start, descending, r);
      }
      SortedIsUnique(OrderBy(Where(table, past), descending), rows[start..], descending);
    }
  }

  lemma {:induction false} WhereSame(rows: seq<Row>, p: Row -> bool, q: Row -> bool)
    requires forall r :: p(r) == q(r)
    ensures Where(rows, p) == Where(rows, q)
  {
    if rows != [] {
      WhereSame(rows[1..], p, q);
    }
  }

  // ---- Main results ----

  predicate Matches(q: Request, cursor: Option<Cursor>) {
    cursor.Some? ==>
      cursor.value.endpoint == q.endpoint && cursor.value.filters == q.filters && cursor.value.revision == q.revision
  }

  lemma FetchedIsPageFrom(rows: seq<Row>, q: Request, start: nat)
    requires start <= |rows|
    ensures FetchedPage(rows[start..], q) == PageFrom(rows, q, start)
  {
    TakeOneMore(rows[start..], q.limit);
  }

  lemma PastNothing(table: seq<Row>, keep: Row -> bool, descending: bool)
    ensures Where(table, Past(keep, None, descending)) == Where(table, keep)
  {
    WhereSame(table, keep, Past(keep, None, descending));
  }

  lemma PastKnownRow(table: seq<Row>, keep: Row -> bool, descending: bool, cursor: Cursor)
    requires DistinctKeys(table) && HasKey(OrderBy(Where(table, keep), descending), cursor.key)
    ensures var rows := OrderBy(Where(table, keep), descending);
            var start := IndexAfter(rows, cursor.key);
            && start.Some? && start.value <= |rows|
            && OrderBy(Where(table, Past(keep, Some(cursor), descending)), descending) == rows[start.value..]
  {
    hide OrderBy, Where, DistinctKeys, HasKey, IndexAfter;
    var rows := OrderBy(Where(table, keep), descending);
    IndexAfterBounds(rows, cursor.key);
    var start := IndexAfter(rows, cursor.key).value;
    QueryIsSuffix(table, keep, descending, start);
    WhereSame(table, Past(keep, Some(cursor), descending),
              (row: Row) => keep(row) && Before(rows[start - 1].key, row.key, descending));
  }

  /** The database path and the loaded path give the same page, the same next cursor or the same error,
      exactly when the cursor is absent, does not belong to the request, or names a row of the list; for
      any other boundary only the loaded path refuses. */
  lemma DatabaseMatchesLoaded(table: seq<Row>, keep: Row -> bool, descending: bool, q: Request, cursor: Option<Cursor>)
    requires DistinctKeys(table) && q.limit >= 1
    ensures var rows := OrderBy(Where(table, keep), descending);
            QueriedPage(table, keep, descending, q, cursor) == LoadedPage(rows, q, cursor)
            <==> !Matches(q, cursor) || cursor.None? || HasKey(rows, cursor.value.key)
  {
    hide OrderBy, Where, DistinctKeys, HasKey, IndexAfter, Take, PageFrom, Past;
    var rows := OrderBy(Where(table, keep), descending);
    if Matches(q, cursor) {
      if cursor.None? {
        PastNothing(table, keep, descending);
        assert rows[0..] == rows;
        FetchedIsPageFrom(rows, q, 0);
      } else {
        IndexAfterBounds(rows, cursor.value.key);
        if HasKey(rows, cursor.value.key) {
          PastKnownRow(table, keep, descending, cursor.value);
          FetchedIsPageFrom(rows, q, IndexAfter(rows, cursor.value.key).value);
        }
      }
    }
  }

  lemma TakeOneMore(rows: seq<Row>, n: nat)
    ensures Take(Take(rows, n + 1), n) == Take(rows, n)
    ensures |Take(rows, n + 1)| > n <==> |rows| > n
  {
  }

  /** Where a page starts, for a cursor that belongs to the request. */
  function StartOf(rows: seq<Row>, cursor: Option<Cursor>): nat {
    if cursor.None? then 0 else
      var i := IndexAfter(rows, cursor.value.key);
      if i.None? then 0 else i.value
  }

  lemma {:induction false} IndexAfterIsExact(rows: seq<Row>, i: nat)
    requires DistinctKeys(rows) && i < |rows|
    ensures IndexAfter(rows, rows[i].key) == Some(i + 1)
  {
    if i > 0 {
      assert rows[0].key != rows[i].key;
      IndexAfterIsExact(rows[1..], i - 1);
      assert rows[1..][i - 1] == rows[i];
    }
  }

  lemma NextStart(rows: seq<Row>, q: Request, cursor: Option<Cursor>)
    requires DistinctKeys(rows) && q.limit >= 1 && Matches(q, cursor)
    requires cursor.Some? ==> HasKey(rows, cursor.value.key)
    ensures var start := StartOf(rows, cursor);
            && start <= |rows| && LoadedPage(rows, q, cursor).Page?
            && LoadedPage(rows, q, cursor) == PageFrom(rows, q, start)
            && (start + q.limit < |rows| ==>
                  && LoadedPage(rows, q, cursor).rows == rows[start..start + q.limit]
                  && LoadedPage(rows, q, cursor).next.Some?
                  && var next := LoadedPage(rows, q, cursor).next;
                     Matches(q, next) && HasKey(rows, next.value.key) && StartOf(rows, next) == start + q.limit)
            && (start + q.limit >= |rows| ==> LoadedPage(rows, q, cursor) == Page(rows[start..], None))
  {
    if cursor.Some? {
      IndexAfterBounds(rows, cursor.value.key);
    }
    var start := StartOf(rows, cursor);
    if start + q.limit < |rows| {
      var page := Take(rows[start..], q.limit);
      assert page[q.limit - 1] == rows[start + q.limit - 1];
      IndexAfterIsExact(rows, start + q.limit - 1);
    }
  }

  /** The pages a client sees by following `next_cursor`. */
  function Follow(rows: seq<Row>, q: Request, cursor: Option<Cursor>): seq<seq<Row>>
    requires DistinctKeys(rows) && q.limit >= 1 && Matches(q, cursor)
    requires cursor.Some? ==> HasKey(rows, cursor.value.key)
    decreases |rows| - StartOf(rows, cursor)
  {
    NextStart(rows, q, cursor);
    var r := LoadedPage(rows, q, cursor);
    [r.rows] + if r.next.None? then [] else Follow(rows, q, r.next)
  }

  function Concat(pages: seq<seq<Row>>): seq<Row> {
    if pages == [] then [] else pages[0] + Concat(pages[1..])
  }

  /** The number of pages for n rows: at least one. */
  function PageCount(n: nat, limit: nat): nat
    requires limit >= 1
  {
    if n == 0 then 1 else (n + limit - 1) / limit
  }

  lemma ConcatFirst(page: seq<Row>, rest: seq<seq<Row>>)
    ensures Concat([page] + rest) == page + Concat(rest)
  {
    assert ([page] + rest)[1..] == rest;
  }

  /** Every page but the last is full. */
  predicate FullButLast(pages: seq<seq<Row>>, limit: nat) {
    forall i :: 0 <= i < |pages| - 1 ==> |pages[i]| == limit
  }

  lemma FullFirst(page: seq<Row>, rest: seq<seq<Row>>, limit: nat)
    requires |page| == limit && FullButLast(rest, limit)
    ensures FullButLast([page] + rest, limit)
  {
    forall i | 0 <= i < |[page] + rest| - 1
      ensures |([page] + rest)[i]| == limit
    {
      if i > 0 {
        assert ([page] + rest)[i] == rest[i - 1];
      }
    }
  }

  lemma {:induction false} FollowFrom(rows: seq<Row>, q: Request, cursor: Option<Cursor>)
    requires DistinctKeys(rows) && q.limit >= 1 && Matches(q, cursor)
    requires cursor.Some? ==> HasKey(rows, cursor.value.key)
    ensures var start := StartOf(rows, cursor);
            && start <= |rows|
            && Concat(Follow(rows, q, cursor)) == rows[start..]
            && |Follow(rows, q, cursor)| == PageCount(|rows| - start, q.limit)
            && FullButLast(Follow(rows, q, cursor), q.limit)
    decreases |rows| - StartOf(rows, cursor)
  {
    hide DistinctKeys, HasKey, StartOf, PageCount, LoadedPage, PageFrom, Take, IndexAfter, FullButLast, Concat, Matches;
    NextStart(rows, q, cursor);
    var start := StartOf(rows, cursor);
    var r := LoadedPage(rows, q, cursor);
    if start + q.limit >= |rows| {
      LastPage(rows[start..], q.limit);
      assert Follow(rows, q, cursor) == [rows[start..]];
    } else {
      var rest := Follow(rows, q, r.next);
      FollowFrom(rows, q, r.next);
      assert Follow(rows, q, cursor) == [r.rows] + rest;
      ConcatFirst(r.rows, rest);
      FullFirst(r.rows, rest, q.limit);
      assert rows[start..] == rows[start..start + q.limit] + rows[start + q.limit..];
      OnePageLess(|rows| - start, q.limit);
    }
  }

  lemma LastPage(page: seq<Row>, limit: nat)
    requires limit >= 1 && |page| <= limit
    ensures Concat([page]) == page && FullButLast([page], limit) && PageCount(|page|, limit) == 1
  {
    ConcatFirst(page, []);
    assert [page] + [] == [page];
    assert page + [] == page;
    LastPageCount(|page|, limit);
  }

  lemma LastPageCount(n: nat, limit: nat)
    requires limit >= 1 && n <= limit
    ensures PageCount(n, limit) == 1
  {
    if n > 0 {
      assert limit <= n + limit - 1 < 2 * limit;
      assert (n + limit - 1) / limit == 1;
    }
  }

  lemma OnePageLess(n: nat, limit: nat)
    requires limit >= 1 && n > limit
    ensures PageCount(n, limit) == 1 + PageCount(n - limit, limit)
  {
    DivLess(n + limit - 1, limit);
  }

  lemma DivLess(a: nat, b: nat)
    requires b >= 1 && a >= b
    ensures a / b == 1 + (a - b) / b
  {
    var q := (a - b) / b;
    assert q * b <= a - b < q * b + b;
    assert (1 + q) * b == q * b + b;
    assert (1 + q) * b <= a < (1 + q) * b + b;
    UniqueQuotient(a, b, 1 + q);
  }

  lemma NextMultiple(p: nat, q: nat, b: nat)
    requires p < q
    ensures p * b + b <= q * b
  {
    assert (p + 1) * b <= q * b;
  }

  lemma UniqueQuotient(a: nat, b: nat, q: nat)
    requires b >= 1 && q * b <= a < q * b + b
    ensures a / b == q
  {
    var p := a / b;
    assert p * b <= a < p * b + b;
    if p < q {
      NextMultiple(p, q, b);
    } else if p > q {
      NextMultiple(q, p, b);
    }
  }

  lemma MatchingRows(table: seq<Row>, keep: Row -> bool, descending: bool)
    requires DistinctKeys(table)
    ensures var rows := OrderBy(Where(table, keep), descending);
            && DistinctKeys(rows) && Sorted(rows, descending)
            && (forall r :: r in rows <==> r in table && keep(r))
  {
    var rows := OrderBy(Where(table, keep), descending);
    WhereDistinct(table, keep);
    OrderBySorts(Where(table, keep), descending);
    forall r
      ensures r in rows <==> r in table && keep(r)
    {
      WhereMembers(table, keep, r);
    }
    assert DistinctKeys(rows) by {
      assert forall i, j :: 0 <= i < j < |rows| ==> Before(rows[i].key, rows[j].key, descending);
    }
  }

  lemma SortedInColumns(rows: seq<Row>, descending: bool)
    requires Sorted(rows, descending)
    ensures forall i, j :: 0 <= i < j < |rows| ==>
              if rows[i].key.at != rows[j].key.at then descending <==> rows[i].key.at > rows[j].key.at
              else descending <==> rows[i].key.id > rows[j].key.id
  {
    forall i, j | 0 <= i < j < |rows|
      ensures Before(rows[i].key, rows[j].key, descending)
    {
    }
  }

  predicate IsOnPath(rows: seq<Row>, q: Request, cursor: Option<Cursor>) {
    Matches(q, cursor) && (cursor.Some? ==> HasKey(rows, cursor.value.key))
  }

  /** The pages a client sees by following `next_cursor` through the database. */
  function FollowQueried(table: seq<Row>, keep: Row -> bool, descending: bool, q: Request,
                         cursor: Option<Cursor>): seq<seq<Row>>
    requires DistinctKeys(table) && q.limit >= 1 && IsOnPath(OrderBy(Where(table, keep), descending), q, cursor)
    decreases |OrderBy(Where(table, keep), descending)| - StartOf(OrderBy(Where(table, keep), descending), cursor)
  {
    var rows := OrderBy(Where(table, keep), descending);
    MatchingRows(table, keep, descending);
    DatabaseMatchesLoaded(table, keep, descending, q, cursor);
    NextStart(rows, q, cursor);
    var r := QueriedPage(table, keep, descending, q, cursor);
    [r.rows] + if r.next.None? then [] else FollowQueried(table, keep, descending, q, r.next)
  }

  lemma {:induction false} BothPathsFollowAlike(table: seq<Row>, keep: Row -> bool, descending: bool, q: Request,
                                                cursor: Option<Cursor>)
    requires DistinctKeys(table) && q.limit >= 1 && IsOnPath(OrderBy(Where(table, keep), descending), q, cursor)
    ensures DistinctKeys(OrderBy(Where(table, keep), descending))
    ensures FollowQueried(table, keep, descending, q, cursor) ==
            Follow(OrderBy(Where(table, keep), descending), q, cursor)
    decreases |OrderBy(Where(table, keep), descending)| - StartOf(OrderBy(Where(table, keep), descending), cursor)
  {
    hide OrderBy, Where, DistinctKeys, Sorted, HasKey, StartOf, QueriedPage, LoadedPage, PageFrom, Matches;
    var rows := OrderBy(Where(table, keep), descending);
    MatchingRows(table, keep, descending);
    DatabaseMatchesLoaded(table, keep, descending, q, cursor);
    NextStart(rows, q, cursor);
    var r := LoadedPage(rows, q, cursor);
    if StartOf(rows, cursor) + q.limit < |rows| {
      BothPathsFollowAlike(table, keep, descending, q, r.next);
    }
  }

  /** Following the cursors from the start, through the loaded list or through the database, visits every
      matching row exactly once, in order, in full pages but the last, and as many of them as the rows
      need. */
  lemma FollowingVisitsEveryRow(table: seq<Row>, keep: Row -> bool, descending: bool, q: Request)
    requires DistinctKeys(table) && q.limit >= 1
    ensures var rows := OrderBy(Where(table, keep), descending);
            && DistinctKeys(rows) && Sorted(rows, descending)
            && (forall i, j :: 0 <= i < j < |rows| ==>
                  if rows[i].key.at != rows[j].key.at then descending <==> rows[i].key.at > rows[j].key.at
                  else descending <==> rows[i].key.id > rows[j].key.id)
            && (forall r :: r in rows <==> r in table && keep(r))
            && var pages := Follow(rows, q, None);
            && pages == FollowQueried(table, keep, descending, q, None)
            && Concat(pages) == rows && |pages| == PageCount(|rows|, q.limit) && FullButLast(pages, q.limit)
  {
    hide OrderBy, Where, Sorted, Follow, FollowQueried, Concat, PageCount, FullButLast;
    var rows := OrderBy(Where(table, keep), descending);
    MatchingRows(table, keep, descending);
    SortedInColumns(rows, descending);
    FollowFrom(rows, q, None);
    BothPathsFollowAlike(table, keep, descending, q, None);
    assert rows[0..] == rows;
  }
}
