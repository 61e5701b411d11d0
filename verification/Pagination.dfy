/** Offset pagination of article search (internal/service/search.go): cursors are printed and parsed decimal offsets. */
module Pagination {
  import opened Prelude
  import Decimal

  datatype Page<T> = Page(items: seq<T>, hasNextPage: bool, startCursor: string, endCursor: string, totalCount: nat)

  datatype Outcome<T> = Found(page: Page<T>) | DbError | Panic

  const DEFAULT_SIZE := 10
  const MAX_SIZE := 100

  function PageSize(first: Option<int>): int {
    match first
    case None => DEFAULT_SIZE
    case Some(n) => Min(n, MAX_SIZE)
  }

  /** How an offset is printed as a cursor, and how a cursor is read. */
  datatype Cursors = Cursors(show: int -> string, scan: string -> Option<int>)

  /** fmt.Sprintf and fmt.Sscanf with "%d". */
  function Decimals(): Cursors {
    Cursors(n => Decimal.Format(n), s => Decimal.Scan(s))
  }

  /** All that following the cursors rests on. */
  ghost predicate RoundTrips(cs: Cursors) {
    forall n :: InInt64(n) ==> cs.scan(cs.show(n)) == Some(n)
  }

  lemma DecimalsRoundTrip()
    ensures RoundTrips(Decimals())
  {
    forall n | InInt64(n) ensures Decimals().scan(Decimals().show(n)) == Some(n) { Decimal.ScanFormat(n); }
  }

  /** A cursor that is missing or does not scan means the beginning. */
  function OffsetOf(cs: Cursors, after: Option<string>): int {
    if after.Some? && cs.scan(after.value).Some? then cs.scan(after.value).value else 0
  }

  /** OFFSET and LIMIT on a result in a fixed order; a negative limit or offset writes no clause. */
  function Fetch<T>(rows: seq<T>, offset: int, limit: int): seq<T> {
    var rest := if offset <= 0 then rows else rows[Min(offset, |rows|)..];
    if limit < 0 then rest else rest[..Min(limit, |rest|)]
  }

  /** Where a page that begins at row `start` ends. */
  function EndOf(start: nat, size: nat, n: nat): nat {
    Min(start + size, n)
  }

  /** What a page is, said of the rows: a window of them, with a next page when it ends early. */
  function PageAt<T>(cs: Cursors, rows: seq<T>, offset: int, size: nat): Page<T> {
    var start: nat := Min(NonNeg(offset), |rows|);
    var end := EndOf(start, size, |rows|);
    Page(rows[start..end], end < |rows|, cs.show(offset), cs.show(offset + (end - start)), |rows|)
  }

  function Answer<T>(cs: Cursors, rows: seq<T>, after: Option<string>, first: Option<int>, dbOk: bool): Outcome<T> {
    if !dbOk then DbError
    else if PageSize(first) < 0 then Panic
    else Found(PageAt(cs, rows, OffsetOf(cs, after), PageSize(first)))
  }

  /** One row more than the page is asked for, to learn whether there is a next page. */
  lemma FetchWindow<T>(cs: Cursors, rows: seq<T>, offset: int, size: nat)
    ensures var items := Fetch(rows, offset, size + 1);
      && (|items| > size <==> PageAt(cs, rows, offset, size).hasNextPage)
      && (if |items| > size then items[..size] else items) == PageAt(cs, rows, offset, size).items
  {
    var start: nat := Min(NonNeg(offset), |rows|);
    assert rows[0..] == rows;
    var items := Fetch(rows, offset, size + 1);
    assert items == rows[start..][..Min(size + 1, |rows| - start)];
  }

  /**
    rows are the user's articles that pass the filters, in the order of the query; cs is Decimals() in the program.
    items[:pageSize] panics for a negative size.
   */
  method Search<T>(cs: Cursors, rows: seq<T>, after: Option<string>, first: Option<int>, dbOk: bool)
    returns (r: Outcome<T>)
    ensures r == Answer(cs, rows, after, first, dbOk)
  {
    var offset := 0;
    if after.Some? {
      var scanned := cs.scan(after.value);
      if scanned.Some? { offset := scanned.value; }
    }
    var pageSize := 10;
    if first.Some? {
      pageSize := first.value;
      if pageSize > 100 { pageSize := 100; }
    }
    if !dbOk { return DbError; }
    var total := |rows|;
    var items := Fetch(rows, offset, pageSize + 1);
    var hasNextPage := |items| > pageSize;
    if hasNextPage {
      if pageSize < 0 { return Panic; }
      items := items[..pageSize];
    }
    FetchWindow(cs, rows, offset, pageSize);
    r := Found(Page(items, hasNextPage, cs.show(offset), cs.show(offset + |items|), total));
  }

  /** How many rows a client gets at most: what it asks for up to a hundred, and ten if it does not ask. */
  ghost predicate Asked(first: Option<int>, size: int) {
    && (first.None? ==> size == 10)
    && (first.Some? ==> size <= first.value && size <= 100 && (size == first.value || size == 100))
  }

  /** Where the search begins: at the offset that the cursor names, if there is a cursor that scans; else at 0. */
  ghost predicate BeginsAt(cs: Cursors, after: Option<string>, offset: int) {
    if after.Some? && exists n :: cs.scan(after.value) == Some(n) then cs.scan(after.value) == Some(offset)
    else offset == 0
  }

  /**
    A page holds the rows from the offset on, in order and as many as were asked for as far as there are any, says
    whether there are more, and counts all; its start cursor brings the same page again. A negative size panics.
   */
  lemma PageHoldsWindow<T>(cs: Cursors, rows: seq<T>, after: Option<string>, first: Option<int>, offset: int, size: int)
    requires RoundTrips(cs) && Asked(first, size) && BeginsAt(cs, after, offset) && InInt64(offset)
    ensures var start: nat := if offset < 0 then 0 else if offset > |rows| then |rows| else offset;
      match Answer(cs, rows, after, first, true)
      case Found(page) =>
        && size >= 0
        && |page.items| == (if size < |rows| - start then size else |rows| - start)
        && (forall k :: 0 <= k < |page.items| ==> page.items[k] == rows[start + k])
        && (page.hasNextPage <==> start + |page.items| < |rows|) && page.totalCount == |rows|
        && cs.scan(page.startCursor) == Some(offset)
        && Answer(cs, rows, Some(page.startCursor), first, true) == Found(page)
      case Panic => size < 0
      case DbError => false
    ensures Answer(cs, rows, after, first, false) == DbError
  {
    assert OffsetOf(cs, after) == offset && PageSize(first) == size;
  }

  // ---------- following the cursors ----------

  /** Pages obtained by following EndCursor from the start, as long as HasNextPage says so. */
  ghost predicate Chain<T>(cs: Cursors, rows: seq<T>, first: Option<int>, pages: seq<Page<T>>) {
    && |pages| > 0
    && Found(pages[0]) == Answer(cs, rows, None, first, true)
    && forall i :: 0 < i < |pages| ==> Continues(cs, rows, first, pages[i - 1], pages[i])
  }

  /** `next` is what the client gets for the end cursor of `page`. */
  ghost predicate Continues<T>(cs: Cursors, rows: seq<T>, first: Option<int>, page: Page<T>, next: Page<T>) {
    page.hasNextPage && Found(next) == Answer(cs, rows, Some(page.endCursor), first, true)
  }

  /** A chain that has come to its end. */
  ghost predicate Walk<T>(cs: Cursors, rows: seq<T>, first: Option<int>, pages: seq<Page<T>>) {
    Chain(cs, rows, first, pages) && !pages[|pages| - 1].hasNextPage
  }

  /** The rows on the first k pages. */
  function Items<T>(pages: seq<Page<T>>, k: nat): seq<T>
    requires k <= |pages|
  {
    if k == 0 then [] else Items(pages, k - 1) + pages[k - 1].items
  }

  /** How many of n rows k pages cover. */
  function Covered(k: nat, size: nat, n: nat): (c: nat)
    ensures c <= n
  {
    if k == 0 then 0 else EndOf(Covered(k - 1, size, n), size, n)
  }

  lemma {:induction false} CoveredIs(k: nat, size: nat, n: nat)
    ensures Covered(k, size, n) == Min(k * size, n)
  {
    if k == 0 {
      assert k * size == 0;
    } else {
      CoveredIs(k - 1, size, n);
      assert k * size == (k - 1) * size + size;
    }
  }

  lemma PageCovers<T>(cs: Cursors, rows: seq<T>, c: nat, size: nat)
    requires c <= |rows|
    ensures var page := PageAt(cs, rows, c, size); var e := EndOf(c, size, |rows|);
      rows[..c] + page.items == rows[..e] && page.endCursor == cs.show(e) && (page.hasNextPage <==> e < |rows|)
  {
    var e := EndOf(c, size, |rows|);
    assert rows[..c] + rows[c..e] == rows[..e];
  }

  /** The first k pages give the rows they cover, in order, and the cursor stands behind those. */
  lemma {:induction false} ChainIsPrefix<T>(cs: Cursors, rows: seq<T>, first: Option<int>, pages: seq<Page<T>>, k: nat)
    requires RoundTrips(cs) && |rows| <= MAX_INT64 && Chain(cs, rows, first, pages) && 0 < k <= |pages|
    ensures PageSize(first) >= 0
    ensures var c := Covered(k, PageSize(first), |rows|);
      Items(pages, k) == rows[..c] && pages[k - 1].endCursor == cs.show(c) && (pages[k - 1].hasNextPage <==> c < |rows|)
    decreases k
  {
    var size := PageSize(first);
    PageCovers(cs, rows, Covered(k - 1, size, |rows|), size);
    if k == 1 {
      assert Items(pages, 0) == [] == rows[..0];
    } else {
      ChainIsPrefix(cs, rows, first, pages, k - 1);
      assert Continues(cs, rows, first, pages[k - 2], pages[k - 1]);
    }
  }

  /** A completed walk shows every row exactly once, in order, and takes no page more than the rows fill. */
  lemma WalkIsComplete<T>(cs: Cursors, rows: seq<T>, first: Option<int>, pages: seq<Page<T>>)
    requires RoundTrips(cs) && |rows| <= MAX_INT64 && Walk(cs, rows, first, pages)
    ensures Items(pages, |pages|) == rows
    ensures |pages| * PageSize(first) >= |rows|
    ensures |pages| > 1 ==> (|pages| - 1) * PageSize(first) < |rows|
  {
    ChainIsPrefix(cs, rows, first, pages, |pages|);
    CoveredIs(|pages|, PageSize(first), |rows|);
    if |pages| > 1 {
      ChainIsPrefix(cs, rows, first, pages, |pages| - 1);
      CoveredIs(|pages| - 1, PageSize(first), |rows|);
      assert Continues(cs, rows, first, pages[|pages| - 2], pages[|pages| - 1]);
    }
  }

  /** Every chain can be followed to its end when pages are not empty. */
  lemma {:induction false} ChainCompletes<T>(cs: Cursors, rows: seq<T>, first: Option<int>, pages: seq<Page<T>>)
    returns (walk: seq<Page<T>>)
    requires RoundTrips(cs) && |rows| <= MAX_INT64 && Chain(cs, rows, first, pages) && PageSize(first) >= 1
    ensures pages <= walk && Walk(cs, rows, first, walk)
    decreases |rows| - Covered(|pages|, PageSize(first), |rows|)
  {
    ChainIsPrefix(cs, rows, first, pages, |pages|);
    var last := pages[|pages| - 1];
    if last.hasNextPage {
      var next := PageAt(cs, rows, OffsetOf(cs, Some(last.endCursor)), PageSize(first));
      var longer := pages + [next];
      walk := ChainCompletes(cs, rows, first, longer);
    } else {
      walk := pages;
    }
  }

  /** There is a completed walk exactly when the page size is positive, or is zero and there is nothing to show. */
  lemma WalkEndsExactly<T>(cs: Cursors, rows: seq<T>, first: Option<int>)
    requires RoundTrips(cs) && |rows| <= MAX_INT64
    ensures (exists pages :: Walk(cs, rows, first, pages))
      <==> PageSize(first) >= 1 || (PageSize(first) == 0 && rows == [])
  {
    var size := PageSize(first);
    forall pages | Walk(cs, rows, first, pages) ensures size >= 1 || (size == 0 && rows == []) {
      WalkIsComplete(cs, rows, first, pages);
      ChainIsPrefix(cs, rows, first, pages, |pages|);
      if size == 0 { assert |pages| * size == 0; }
    }
    if size >= 0 {
      var start := [PageAt(cs, rows, 0, size)];
      assert Chain(cs, rows, first, start);
      if size >= 1 {
        var walk := ChainCompletes(cs, rows, first, start);
      } else if rows == [] {
        assert Walk(cs, rows, first, start);
      }
    }
  }

  /** The program's own cursors: with a positive page size a client can page to the end, and then has seen it all. */
  lemma EveryArticleOnce<T>(rows: seq<T>, first: Option<int>)
    requires |rows| <= MAX_INT64 && PageSize(first) >= 1
    ensures exists pages :: Walk(Decimals(), rows, first, pages)
    ensures forall pages :: Walk(Decimals(), rows, first, pages) ==> Items(pages, |pages|) == rows
  {
    var cs := Decimals();
    DecimalsRoundTrip();
    WalkEndsExactly(cs, rows, first);
    forall pages | Walk(cs, rows, first, pages) ensures Items(pages, |pages|) == rows {
      WalkIsComplete(cs, rows, first, pages);
    }
  }

  /** From a cursor of one's own making: the next page begins where this one ended unless the offset was negative. */
  lemma NextPageFollowsExactly<T>(cs: Cursors, rows: seq<T>, offset: int, size: nat)
    requires RoundTrips(cs) && |rows| <= MAX_INT64 && InInt64(offset) && size >= 1
      && PageAt(cs, rows, offset, size).hasNextPage
    ensures var page := PageAt(cs, rows, offset, size);
      NonNeg(OffsetOf(cs, Some(page.endCursor))) == NonNeg(offset) + |page.items| <==> offset >= 0
  {
    var page := PageAt(cs, rows, offset, size);
  }
}
