/** The pagination pattern every list query repeats: select the matching rows
    together with `COUNT(*) OVER() AS total_count`, skip `(page - 1) * pageSize`
    of them, keep at most `pageSize`, and read `total` off the first row
    returned (`rows[0]?.total_count ?? 0`). The window count is taken over all
    matching rows, before OFFSET and LIMIT apply. */
module Paging {
  import opened Common

  /** The service defaults when the caller leaves `page` or `pageSize` out. */
  const DefaultPage: int := 1
  const DefaultPageSize: int := 5

  /** The `{ data, total, page, pageSize }` envelope every list query returns
      (`PaginatedUsers`, `PaginatedPosts`, `PaginatedAlbums`). */
  datatype Paginated<T> = Paginated(data: seq<T>, total: int, page: int, pageSize: int)

  /** A result row of the query: the row and its `total_count` column. */
  datatype Counted<T> = Counted(row: T, totalCount: nat)

  function Min(a: int, b: int): int { if a <= b then a else b }

  /** `(page - 1) * pageSize`: negative when `page` is below 1 and `pageSize` is positive. */
  function Offset(page: int, pageSize: int): int
  {
    (page - 1) * pageSize
  }

  /** The database rejects a negative OFFSET or LIMIT. This message stands for
      the database's own error text, which the model does not reproduce. */
  const NegativeWindow: string := "OFFSET and LIMIT must not be negative"

  /** The query runs: neither OFFSET nor LIMIT is negative. */
  predicate Accepted(page: int, pageSize: int)
  {
    Offset(page, pageSize) >= 0 && pageSize >= 0
  }

  /** The query runs exactly when `pageSize` is not negative and either `page`
      is at least 1 or `pageSize` is 0. */
  lemma AcceptedExactly(page: int, pageSize: int)
    ensures Accepted(page, pageSize) <==> pageSize >= 0 && (page >= 1 || pageSize == 0)
  {
    if pageSize > 0 && page < 1 {
      assert (page - 1) * pageSize <= -pageSize by {
        assert (page - 1) * pageSize == -((1 - page) * pageSize);
        assert (1 - page) * pageSize >= pageSize;
      }
    }
  }

  /** `OFFSET offset LIMIT limit`: the rows from position `offset` on, at most `limit` of them. */
  function Window<T>(rows: seq<T>, offset: nat, limit: nat): (w: seq<T>)
    ensures |w| <= limit
    ensures |w| == if offset >= |rows| then 0 else Min(limit, |rows| - offset)
    ensures forall i :: 0 <= i < |w| ==> w[i] == rows[offset + i]
  {
    if offset >= |rows| then [] else rows[offset..Min(offset + limit, |rows|)]
  }

  /** `COUNT(*) OVER()`: every row carries the number of rows in the whole result. */
  function CountOver<T>(rows: seq<T>): (r: seq<Counted<T>>)
    ensures |r| == |rows|
    ensures forall i :: 0 <= i < |rows| ==> r[i].row == rows[i] && r[i].totalCount == |rows|
  {
    seq(|rows|, i requires 0 <= i < |rows| => Counted(rows[i], |rows|))
  }

  /** One page of the matching rows, in the envelope the services return. */
  function PageOf<T>(matching: seq<T>, page: int, pageSize: int): (r: Paginated<T>)
    requires Accepted(page, pageSize)
    ensures r.page == page && r.pageSize == pageSize
    ensures |r.data| <= pageSize
    ensures r.data == Window(matching, Offset(page, pageSize), pageSize)
    ensures r.total == if r.data == [] then 0 else |matching|
    ensures Offset(page, pageSize) >= |matching| ==> r.data == [] && r.total == 0
  {
    var query := Window(CountOver(matching), Offset(page, pageSize), pageSize);
    var total := if |query| > 0 then query[0].totalCount else 0;
    Paginated(Map(query, (c: Counted<T>) => c.row), total, page, pageSize)
  }

  /** The list query with the services' defaults (`page = 1`, `pageSize = 5`):
      one page of the matching rows, or the database's error when the window
      is negative. */
  function ListPage<T>(matching: seq<T>, page: Option<int>, pageSize: Option<int>): (r: Result<Paginated<T>>)
    ensures r.Ok? <==> Accepted(Coalesce(page, DefaultPage), Coalesce(pageSize, DefaultPageSize))
    ensures r.Err? ==> r.error == StorageError(NegativeWindow)
    ensures r.Ok? ==> r.value.page == Coalesce(page, DefaultPage) && r.value.pageSize == Coalesce(pageSize, DefaultPageSize)
    ensures r.Ok? ==> r.value == PageOf(matching, r.value.page, r.value.pageSize)
  {
    var p := Coalesce(page, DefaultPage);
    var size := Coalesce(pageSize, DefaultPageSize);
    if Accepted(p, size) then Ok(PageOf(matching, p, size)) else Err(StorageError(NegativeWindow))
  }

  /** The pages 1 to n, one after the other. */
  function FirstPages<T>(rows: seq<T>, pageSize: nat, n: nat): seq<T>
  {
    if n == 0 then [] else FirstPages(rows, pageSize, n - 1) + Window(rows, Offset(n, pageSize), pageSize)
  }

  // The arithmetic of consecutive offsets, kept apart to keep PagesTile small.
  lemma OffsetArithmetic(n: nat, pageSize: nat)
    requires n >= 1
    ensures Offset(n, pageSize) == (n - 1) * pageSize >= 0
    ensures n * pageSize == Offset(n, pageSize) + pageSize
  {
  }

  /** Consecutive pages tile the matching rows: pages 1 to n together are
      exactly the first n * pageSize rows, with no row skipped or repeated. */
  lemma {:induction false} PagesTile<T>(rows: seq<T>, pageSize: nat, n: nat)
    ensures FirstPages(rows, pageSize, n) == rows[..Min(n * pageSize, |rows|)]
  {
    if n > 0 {
      PagesTile(rows, pageSize, n - 1);
      var offset := Offset(n, pageSize);
      OffsetArithmetic(n, pageSize);
      var before := Min(offset, |rows|);
      var w := Window(rows, offset, pageSize);
      if offset >= |rows| {
        assert before == |rows|;
        assert Min(n * pageSize, |rows|) == |rows|;
      } else {
        assert before == offset;
        assert w == rows[offset..Min(n * pageSize, |rows|)];
        assert rows[..offset] + rows[offset..Min(n * pageSize, |rows|)] == rows[..Min(n * pageSize, |rows|)];
      }
    }
  }

  /** Page n starts where pages 1 to n - 1 end: those pages hold exactly the
      rows before `Offset(n, pageSize)`, or all rows when there are fewer. */
  lemma OffsetOfPage<T>(rows: seq<T>, pageSize: nat, n: nat)
    requires n >= 1
    ensures Offset(n, pageSize) >= 0
    ensures FirstPages(rows, pageSize, n - 1) == rows[..Min(Offset(n, pageSize), |rows|)]
  {
    var m: nat := n - 1;
    PagesTile(rows, pageSize, m);
    assert m * pageSize == Offset(n, pageSize);
  }

  /** Enough pages hold every matching row. */
  lemma AllPagesHoldEveryRow<T>(rows: seq<T>, pageSize: nat, n: nat)
    requires n * pageSize >= |rows|
    ensures FirstPages(rows, pageSize, n) == rows
  {
    PagesTile(rows, pageSize, n);
    assert rows[..|rows|] == rows;
  }

  /** The listing of a page holds, at each position `slot` below `pageSize`,
      the row `Offset(page, pageSize) + slot` of the matching rows when there
      is one, and its total is the number of matching rows. */
  lemma RowIsListed<T>(rows: seq<T>, page: int, pageSize: int, slot: nat)
    requires page >= 1 && slot < pageSize
    requires Offset(page, pageSize) + slot < |rows|
    ensures var r := ListPage(rows, Some(page), Some(pageSize));
            && r.Ok?
            && r.value.total == |rows|
            && slot < |r.value.data|
            && r.value.data[slot] == rows[Offset(page, pageSize) + slot]
  {
    AcceptedExactly(page, pageSize);
  }

  /** Row i of the matching rows is row i % pageSize of page i / pageSize + 1. */
  lemma RowOnItsPage<T>(rows: seq<T>, pageSize: nat, i: nat)
    requires pageSize >= 1 && i < |rows|
    ensures var w := Window(rows, Offset(i / pageSize + 1, pageSize), pageSize);
            i % pageSize < |w| && w[i % pageSize] == rows[i]
  {
    var p := i / pageSize + 1;
    assert Offset(p, pageSize) == (i / pageSize) * pageSize;
    assert (i / pageSize) * pageSize + i % pageSize == i;
  }
}
