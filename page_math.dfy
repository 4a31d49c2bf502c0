/** The page-count arithmetic shared by the listing pages:
    `Math.ceil(total / perPage)` with a positive page size. */
module PageMath {

  function Min(a: int, b: int): int {
    if a <= b then a else b
  }

  /** `Math.ceil(total / perPage)`: the least page count whose pages hold
      `total` items. */
  function TotalPages(total: int, perPage: int): (n: int)
    requires perPage > 0
    ensures (n - 1) * perPage < total <= n * perPage
  {
    var q := total / perPage;
    var r := total % perPage;
    assert total == q * perPage + r;
    if r == 0 then q else q + 1
  }

  /** The ceiling is the only page count with that property. */
  lemma TotalPagesUnique(total: int, perPage: int, n: int)
    requires perPage > 0
    requires (n - 1) * perPage < total <= n * perPage
    ensures n == TotalPages(total, perPage)
  {
    var m := TotalPages(total, perPage);
    MulOrder(m - 1, n, perPage);
    MulOrder(n - 1, m, perPage);
  }

  /** Multiplying by a positive page size keeps the order of page counts. */
  lemma MulOrder(a: int, b: int, p: int)
    requires p > 0
    ensures a < b <==> a * p < b * p
  {
    assert b * p - a * p == (b - a) * p;
  }

  /** No items means no pages; some items means at least one page, and a
      count of items no larger than the page size means exactly one. */
  lemma TotalPagesOfCount(total: nat, perPage: int)
    requires perPage > 0
    ensures total == 0 <==> TotalPages(total, perPage) == 0
    ensures 0 < total <= perPage ==> TotalPages(total, perPage) == 1
    ensures TotalPages(total, perPage) >= 0
  {
    var n := TotalPages(total, perPage);
    MulOrder(n, 0, perPage);
    MulOrder(n - 1, 0, perPage);
    MulOrder(n - 1, 1, perPage);
  }

  /** Page `page` of `ceil(total / perPage)` pages starts inside the list,
      and its last item is at `min(page * perPage, total)`: the page holds
      `min(perPage, total - (page - 1) * perPage)` items. */
  lemma PageSlice(page: int, perPage: int, total: int)
    requires perPage > 0 && 1 <= page <= TotalPages(total, perPage)
    ensures 0 <= (page - 1) * perPage < total
    ensures (page - 1) * perPage + Min(perPage, total - (page - 1) * perPage) == Min(page * perPage, total)
  {
    var n := TotalPages(total, perPage);
    MulOrder(0, page - 1, perPage);
    MulOrder(page - 1, n - 1, perPage);
    assert (page - 1) * perPage + perPage == page * perPage;
  }

  /** A page past the last one starts after the end of the list. */
  lemma PagePastEnd(page: int, perPage: int, total: int)
    requires perPage > 0 && page > TotalPages(total, perPage)
    ensures (page - 1) * perPage >= total
  {
    var n := TotalPages(total, perPage);
    MulOrder(n - 1, page - 1, perPage);
    assert (n - 1) * perPage + perPage == n * perPage;
  }
}
