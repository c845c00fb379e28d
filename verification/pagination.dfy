/** `PaginatedResponse.create`: the page envelope the list endpoints return
    around one page of records. */
module Pagination {
  import opened Wrappers

  /** Python's `//` on ints: the floor of the exact quotient. */
  function FloorDiv(a: int, b: int): (q: int)
    requires b != 0
    ensures b > 0 ==> b * q <= a < b * q + b
    ensures b < 0 ==> b * q + b < a <= b * q
  {
    if b > 0 then a / b else (-a) / (-b)
  }

  /** The response body: the page's records, the counts it was built from,
      and the derived page count and neighbour flags. */
  datatype Paginated<T> = Paginated(
    data: seq<T>,
    total: int,
    page: int,
    perPage: int,
    totalPages: int,
    hasNext: bool,
    hasPrev: bool)

  /** `PaginatedResponse.create(data, total, page, per_page)`. A zero
      `per_page` makes the ceiling division raise ZeroDivisionError; the
      views never pass one, as they declare `per_page` with `ge=1`. */
  function CreatePage<T>(data: seq<T>, total: int, page: int, perPage: int): (r: Result<Paginated<T>, Failure>)
    ensures r.Failure? <==> perPage == 0
    ensures r.Failure? ==> r.error == DivisionByZero
    ensures r.Success? ==> var p := r.value;
              p.data == data && p.total == total && p.page == page && p.perPage == perPage
    ensures r.Success? ==> (r.value.hasNext <==> page < r.value.totalPages)
    ensures r.Success? ==> (r.value.hasPrev <==> page > 1)
  {
    if perPage == 0 then Failure(DivisionByZero)
    else
      var totalPages := FloorDiv(total + perPage - 1, perPage);
      Success(Paginated(data, total, page, perPage, totalPages, page < totalPages, page > 1))
  }

  /** For a positive page size and a non-negative total, `total_pages` is the
      ceiling of total / per_page: the fewest pages that hold every record. */
  lemma TotalPagesIsCeiling<T>(data: seq<T>, total: int, page: int, perPage: int)
    requires perPage >= 1 && total >= 0
    ensures var p := CreatePage(data, total, page, perPage).value;
            && p.totalPages >= 0
            && p.totalPages * perPage >= total
            && (p.totalPages > 0 ==> (p.totalPages - 1) * perPage < total)
            && (p.totalPages == 0 <==> total == 0)
  {
    var n := CreatePage(data, total, page, perPage).value.totalPages;
    assert perPage * n <= total + perPage - 1 < perPage * n + perPage;
    assert (n - 1) * perPage == n * perPage - perPage;
    if n < 0 {
      MulMonotone(n, -1, perPage);
    }
  }

  /** An empty table has no pages and no next page. */
  lemma EmptyHasNoPages<T>(data: seq<T>, page: int, perPage: int)
    requires perPage >= 1
    ensures CreatePage(data, 0, page, perPage).value.totalPages == 0
    ensures page >= 0 ==> !CreatePage(data, 0, page, perPage).value.hasNext
  {
    TotalPagesIsCeiling(data, 0, page, perPage);
  }

  /** `has_next` says that records lie beyond page `page`: for a positive page
      size, a next page exists exactly when the first `page * per_page`
      records do not exhaust the total. */
  lemma HasNextIffRecordsRemain<T>(data: seq<T>, total: int, page: int, perPage: int)
    requires perPage >= 1 && total >= 0
    ensures CreatePage(data, total, page, perPage).value.hasNext <==> page * perPage < total
  {
    var n := CreatePage(data, total, page, perPage).value.totalPages;
    TotalPagesIsCeiling(data, total, page, perPage);
    if page < n {
      assert page <= n - 1;
      if n > 0 {
        MulMonotone(page, n - 1, perPage);
      }
    } else {
      MulMonotone(n, page, perPage);
    }
  }

  lemma MulMonotone(a: int, b: int, c: int)
    requires a <= b && c >= 0
    ensures a * c <= b * c
  {
    assert b * c - a * c == (b - a) * c;
  }
}
