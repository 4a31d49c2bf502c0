/** The `Home` page: the categories, a page at a time.  The URL's query
    parameters, the current page, the page size and the total reported by the
    server are the page's state; each handler is a method on it. */
module HomePage {
  import opened Wrappers
  import opened JsText
  import opened Locations
  import opened PageMath
  import opened ApiRequests
  import CategoryListing

  /** The sizes offered by the per-page selector. */
  const PerPageOptions: set<int> := {4, 6, 8, 10}

  /** The first category shown: `(currentPage - 1) * perPage + 1`, with no
      special case for an empty list. */
  function FirstShown(page: int, perPage: int): int {
    (page - 1) * perPage + 1
  }

  /** The last category shown: `min(currentPage * perPage, total)`. */
  function LastShown(page: int, perPage: int, total: int): int {
    Min(page * perPage, total)
  }

  /** The categories request for the current page and page size. */
  function FetchUrl(page: int, perPage: int): string {
    RequestUrl("/api/categories", [Param("page", IntToString(page)), Param("limit", IntToString(perPage))])
  }

  /** The server reads back the page and the page size the page sent. */
  lemma FetchReadBack(page: int, perPage: int)
    ensures CategoriesParams(FetchUrl(page, perPage))
      == CategoryListing.ListingParams(Some(IntToString(page)), Some(IntToString(perPage)))
  {
    var query := [Param("page", IntToString(page)), Param("limit", IntToString(perPage))];
    NumberIsTransparent(page);
    NumberIsTransparent(perPage);
    RequestUrlReadBack("/api/categories", query);
    var q := RequestQuery(FetchUrl(page, perPage));
    assert q == query;
    assert Get(q[1..], "limit") == Some(IntToString(perPage));
  }

  /** The server answers the fetch for `page` with `perPage` rows from
      offset `(page - 1) * perPage`. */
  lemma ServedPage<Row>(page: int, perPage: int, table: seq<Row>)
    requires perPage > 0 && page >= 1
    ensures (page - 1) * perPage >= 0
    ensures CategoryListing.GetCategories(CategoriesParams(FetchUrl(page, perPage)), table, true)
      == CategoryListing.Listing(CategoryListing.LimitOffset(table, perPage, (page - 1) * perPage), |table|)
  {
    FetchReadBack(page, perPage);
    var p := CategoryListing.ListingParams(Some(IntToString(page)), Some(IntToString(perPage)));
    CategoryListing.RenderedParamsReadBack(page, perPage);
    CategoryListing.ListedPage(p, table);
  }

  /** On an in-range page, the rows from the page's offset are the rows at
      positions `FirstShown .. LastShown`. */
  lemma PageRows<Row>(page: int, perPage: int, table: seq<Row>)
    requires perPage > 0 && 1 <= page <= TotalPages(|table|, perPage)
    ensures 1 <= FirstShown(page, perPage) <= LastShown(page, perPage, |table|) <= |table|
    ensures (page - 1) * perPage >= 0
    ensures CategoryListing.LimitOffset(table, perPage, (page - 1) * perPage)
      == table[FirstShown(page, perPage) - 1..LastShown(page, perPage, |table|)]
  {
    PageSlice(page, perPage, |table|);
  }

  /** On a page between 1 and the page count, the "Showing X – Y of Z" range
      lies within the list, and the server answers with exactly the
      categories at positions X .. Y and the total. */
  lemma ShownRangeIsServedPage<Row>(page: int, perPage: int, table: seq<Row>)
    requires perPage > 0 && 1 <= page <= TotalPages(|table|, perPage)
    ensures 1 <= FirstShown(page, perPage) <= LastShown(page, perPage, |table|) <= |table|
    ensures CategoryListing.GetCategories(CategoriesParams(FetchUrl(page, perPage)), table, true)
      == CategoryListing.Listing(table[FirstShown(page, perPage) - 1..LastShown(page, perPage, |table|)], |table|)
  {
    ServedPage(page, perPage, table);
    PageRows(page, perPage, table);
  }

  /** With no categories the range reads "1 – 0". */
  lemma EmptyShowsOneToZero(perPage: int)
    requires perPage > 0
    ensures FirstShown(1, perPage) == 1 && LastShown(1, perPage, 0) == 0
  {
  }

  class Home {
    /** The URL's query parameters. */
    var query: seq<Param>
    var currentPage: int
    var categoriesPerPage: int
    var totalCategories: int

    /** A page size chosen from the selector (8 at first). */
    predicate Valid()
      reads this
    {
      categoriesPerPage in PerPageOptions
    }

    function TotalPagesShown(): int
      reads this
      requires Valid()
    {
      TotalPages(totalCategories, categoriesPerPage)
    }

    /** The page as first rendered for the URL's query. */
    constructor (query0: seq<Param>)
      ensures Valid()
      ensures query == query0 && currentPage == PageFromUrl(query0)
      ensures categoriesPerPage == 8 && totalCategories == 0
    {
      query := query0;
      currentPage := PageFromUrl(query0);
      categoriesPerPage := 8;
      totalCategories := 0;
    }

    /** The current page follows the URL. */
    method SyncPage()
      requires Valid()
      modifies this
      ensures Valid()
      ensures currentPage == PageFromUrl(query)
      ensures query == old(query) && categoriesPerPage == old(categoriesPerPage)
      ensures totalCategories == old(totalCategories)
    {
      currentPage := PageFromUrl(query);
    }

    /** The server's answer to the fetch sets the total. */
    method ReceiveTotal(total: int)
      requires Valid()
      modifies this
      ensures Valid()
      ensures totalCategories == total
      ensures query == old(query) && currentPage == old(currentPage)
      ensures categoriesPerPage == old(categoriesPerPage)
    {
      totalCategories := total;
    }

    /** A new page size: the URL is reset to page 1 alone. */
    method OnPerPageChange(size: int)
      requires Valid() && size in PerPageOptions
      modifies this
      ensures Valid()
      ensures query == [Param("page", "1")] && PageFromUrl(query) == 1
      ensures categoriesPerPage == size
      ensures currentPage == old(currentPage) && totalCategories == old(totalCategories)
    {
      query := [Param("page", "1")];
      categoriesPerPage := size;
      assert ParseInt("1") == Some(1) by { ParseIntOfIntToString(1); }
    }

    /** A page emitted by the pagination control is taken only when it lies
        between 1 and the page count; otherwise nothing changes. */
    method OnPageChange(page: int)
      requires Valid()
      modifies this
      ensures Valid()
      ensures 1 <= page <= TotalPagesShown() ==>
        query == [Param("page", IntToString(page))] && PageFromUrl(query) == page
      ensures !(1 <= page <= TotalPagesShown()) ==> query == old(query)
      ensures currentPage == old(currentPage) && categoriesPerPage == old(categoriesPerPage)
      ensures totalCategories == old(totalCategories)
    {
      if page >= 1 && page <= TotalPagesShown() {
        query := [Param("page", IntToString(page))];
        ParseIntOfIntToString(page);
      }
    }
  }
}
