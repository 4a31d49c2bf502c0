/** The `AllProducts` page: the search results, a page at a time.  The URL's
    query parameters, the current page, the page size and the total reported
    by the server are the page's state; each handler is a method on it. */
module AllProducts {
  import opened Wrappers
  import opened JsText
  import opened Locations
  import opened PageMath
  import opened ApiRequests
  import CategoryListing

  /** The sizes offered by the per-page selector. */
  const PerPageOptions: set<int> := {4, 8, 12, 16}

  /** `searchParams.get("search") || ""`. */
  function SearchOf(query: seq<Param>): string {
    Get(query, "search").GetOr("")
  }

  /** `setSearchParams({ page, search })`. */
  function PageQuery(page: int, search: string): seq<Param> {
    [Param("page", IntToString(page)), Param("search", search)]
  }

  /** The first item shown: 0 when there are no products, otherwise
      `startIndex + 1`. */
  function FirstShown(page: int, perPage: int, total: int): int {
    if total == 0 then 0 else (page - 1) * perPage + 1
  }

  /** The last item shown: `min(endIndex, total)`. */
  function LastShown(page: int, perPage: int, total: int): int {
    Min((page - 1) * perPage + perPage, total)
  }

  /** The products request as the page writes it: the search text is put
      into the URL as it is, without encoding. */
  function FetchUrl(page: int, perPage: int, search: string): string {
    RequestUrl("/api/products", [Param("page", IntToString(page)), Param("limit", IntToString(perPage)),
                                 Param("search", search)])
  }

  /** The products request with the search text encoded by `encode`, as the
      navigation bar does before it navigates here. */
  function FetchUrlEncoded(page: int, perPage: int, search: string, encode: string -> string): string {
    RequestUrl("/api/products", [Param("page", IntToString(page)), Param("limit", IntToString(perPage)),
                                 Param("search", encode(search))])
  }

  /** The query written on a page change or a page-size change keeps the
      search text, and its page reads back as the page written (0 as 1). */
  lemma PageQueryReadBack(page: int, search: string)
    ensures SearchOf(PageQuery(page, search)) == search
    ensures PageFromUrl(PageQuery(page, search)) == (if page == 0 then 1 else page)
  {
    ParseIntOfIntToString(page);
    assert Get(PageQuery(page, search)[1..], "search") == Some(search);
  }

  /** On a page between 1 and the page count, the "Showing X–Y of Z" range
      is the page's own slice of the results: it starts after the
      `(page - 1) * perPage` items of the earlier pages, ends inside the
      list, and counts as many items as the slice holds. */
  lemma ShownRangeIsPageSlice<T>(page: int, perPage: int, results: seq<T>)
    requires perPage > 0 && 1 <= page <= TotalPages(|results|, perPage)
    ensures var first, last := FirstShown(page, perPage, |results|), LastShown(page, perPage, |results|);
      1 <= first <= last <= |results|
      && first - 1 == (page - 1) * perPage
      && last - first + 1 == |CategoryListing.LimitOffset(results, perPage, (page - 1) * perPage)|
  {
    PageSlice(page, perPage, |results|);
  }

  /** With no products the range is "0–0". */
  lemma EmptyShowsZero(page: int, perPage: int)
    requires page >= 1 && perPage > 0
    ensures FirstShown(page, perPage, 0) == 0 && LastShown(page, perPage, 0) == 0
  {
    MulOrder(0, page, perPage);
  }

  /** A page past the last one (reachable through the URL) shows a range
      whose start lies after its end. */
  lemma PastLastPageShowsInvertedRange(page: int, perPage: int, total: int)
    requires perPage > 0 && total > 0 && page > TotalPages(total, perPage)
    ensures FirstShown(page, perPage, total) > LastShown(page, perPage, total)
  {
    PagePastEnd(page, perPage, total);
  }

  /** As written, a search text holding `&` is cut there: the server reads
      only what comes before it as the search text. */
  lemma SearchCutAtAmpersand(page: int, perPage: int, before: string, after: string)
    requires '&' !in before && '#' !in before
    ensures ProductsParams(FetchUrl(page, perPage, before + "&" + after)).search == Some(before)
  {
    CutQuery(page, perPage, before, after);
    var q := RequestQuery(FetchUrl(page, perPage, before + "&" + after));
    SearchIsThird(q, before);
  }

  /** As written, a search text holding `#` is cut there as well: the rest
      of the URL is a fragment, which the browser does not send. */
  lemma SearchCutAtFragment(page: int, perPage: int, before: string, after: string)
    requires '&' !in before && '#' !in before
    ensures RequestQuery(FetchUrl(page, perPage, before + "#" + after))
      == [Param("page", IntToString(page)), Param("limit", IntToString(perPage)), Param("search", before)]
    ensures ProductsParams(FetchUrl(page, perPage, before + "#" + after)).search == Some(before)
  {
    var p, l := IntToString(page), IntToString(perPage);
    var query := [Param("page", p), Param("limit", l), Param("search", before)];
    NumberIsTransparent(page);
    NumberIsTransparent(perPage);
    CutQueryPart(page, perPage, before + "#" + after);
    BeforeFragmentAt(before, after);
    RenderThree(p, l, before);
    ParseRenderedQuery(query);
    SearchIsThird(query, before);
  }

  lemma SearchIsThird(q: seq<Param>, v: string)
    requires |q| >= 3 && q[0].key == "page" && q[1].key == "limit" && q[2] == Param("search", v)
    ensures Get(q, "search") == Some(v)
  {
    assert Get(q, "search") == Get(q[1..], "search");
    assert q[1..][1..] == q[2..];
    assert Get(q[1..], "search") == Get(q[2..], "search");
  }

  /** The first three parameters the server reads from that request. */
  lemma CutQuery(page: int, perPage: int, before: string, after: string)
    requires '&' !in before && '#' !in before
    ensures var q := RequestQuery(FetchUrl(page, perPage, before + "&" + after));
      |q| >= 3 && q[0] == Param("page", IntToString(page)) && q[1] == Param("limit", IntToString(perPage))
      && q[2] == Param("search", before)
  {
    var p, l := IntToString(page), IntToString(perPage);
    NumberIsTransparent(page);
    NumberIsTransparent(perPage);
    CutQueryPart(page, perPage, before + "&" + after);
    var sent := BeforeFragment(after);
    SplitOnFirst(before + "&", after, '#');
    var c := "search" + "=" + before;
    assert "search" + "=" + BeforeFragment(before + "&" + after) == c + "&" + sent;
    ParseThree("page", p, "limit", l, "search", before, sent);
  }

  /** Three `key=value` pieces in front of any rest are read back as the
      first three parameters. */
  lemma ParseThree(k1: string, v1: string, k2: string, v2: string, k3: string, v3: string, rest: string)
    requires '=' !in k1 && '=' !in k2 && '=' !in k3
    requires '&' !in k1 && '&' !in k2 && '&' !in k3 && '&' !in v1 && '&' !in v2 && '&' !in v3
    ensures var q := ParseQuery((k1 + "=" + v1) + "&" + ((k2 + "=" + v2) + "&" + ((k3 + "=" + v3) + "&" + rest)));
      |q| >= 3 && q[0] == Param(k1, v1) && q[1] == Param(k2, v2) && q[2] == Param(k3, v3)
  {
    var a, b, c := k1 + "=" + v1, k2 + "=" + v2, k3 + "=" + v3;
    CutAtAmpersands(a, b, c, rest);
    var pieces := SplitOn(a + "&" + (b + "&" + (c + "&" + rest)), '&');
    ParsePieceOfRendered(k1, v1);
    ParsePieceOfRendered(k2, v2);
    ParsePieceOfRendered(k3, v3);
    assert ParsePieces(pieces)[0] == ParsePiece(a);
    assert ParsePieces(pieces)[1] == ParsePiece(b);
    assert ParsePieces(pieces)[2] == ParsePiece(c);
  }

  /** The query part of the request, written out: the search text is sent
      up to its first `#`. */
  lemma CutQueryPart(page: int, perPage: int, search: string)
    ensures QueryPart(FetchUrl(page, perPage, search))
      == ("page" + "=" + IntToString(page)) + "&" + (("limit" + "=" + IntToString(perPage)) + "&" + ("search" + "=" + BeforeFragment(search)))
  {
    var p, l := IntToString(page), IntToString(perPage);
    NumberIsTransparent(page);
    NumberIsTransparent(perPage);
    var a, b, c := "page" + "=" + p, "limit" + "=" + l, "search" + "=";
    RenderThree(p, l, search);
    assert '?' !in "/api/products" && '#' !in "/api/products";
    QueryPartOf("/api/products", RenderQuery([Param("page", p), Param("limit", l), Param("search", search)]));
    NoFragmentInHead(p, l);
    var head := a + "&" + (b + "&" + c);
    RegroupLast(a, b, c, search);
    SplitOnFirst(head, search, '#');
    RegroupLast(a, b, c, BeforeFragment(search));
  }

  lemma NoFragmentInHead(p: string, l: string)
    requires '#' !in p && '#' !in l
    ensures '#' !in ("page" + "=" + p) + "&" + (("limit" + "=" + l) + "&" + ("search" + "="))
  {
  }

  lemma RegroupLast(a: string, b: string, c: string, d: string)
    ensures a + "&" + (b + "&" + (c + d)) == (a + "&" + (b + "&" + c)) + d
  {
  }

  lemma RenderThree(p: string, l: string, v: string)
    ensures RenderQuery([Param("page", p), Param("limit", l), Param("search", v)])
      == ("page" + "=" + p) + "&" + (("limit" + "=" + l) + "&" + ("search" + "=" + v))
  {
    var pieces := RenderPieces([Param("page", p), Param("limit", l), Param("search", v)]);
    assert pieces == ["page" + "=" + p, "limit" + "=" + l, "search" + "=" + v];
    JoinOfThree("page" + "=" + p, "limit" + "=" + l, "search" + "=" + v);
  }

  lemma JoinOfThree(a: string, b: string, c: string)
    ensures Join([a, b, c], "&") == a + "&" + (b + "&" + c)
  {
    assert [a, b, c][1..] == [b, c];
    assert [b, c][1..] == [c];
    assert Join([c], "&") == c;
    assert Join([b, c], "&") == b + "&" + c;
  }

  lemma CutAtAmpersands(a: string, b: string, c: string, rest: string)
    requires '&' !in a && '&' !in b && '&' !in c
    ensures var s := SplitOn(a + "&" + (b + "&" + (c + "&" + rest)), '&');
      |s| >= 3 && s[0] == a && s[1] == b && s[2] == c
  {
    var y := c + ['&'] + rest;
    var x := b + ['&'] + y;
    assert a + "&" + (b + "&" + (c + "&" + rest)) == a + ['&'] + x;
    SplitOnAt(a, x, '&');
    SplitOnAt(b, y, '&');
    SplitOnAt(c, rest, '&');
    assert SplitOn(a + ['&'] + x, '&') == [a] + ([b] + ([c] + SplitOn(rest, '&')));
  }

  /** With an encoding whose output holds no `&` and no `#` and a decoding
      that undoes it, the server decodes exactly the search text. */
  lemma EncodedSearchReadBack(page: int, perPage: int, search: string,
                              encode: string -> string, decode: string -> string)
    requires forall s :: '&' !in encode(s) && '#' !in encode(s)
    requires forall s :: decode(encode(s)) == s
    ensures ProductsParams(FetchUrlEncoded(page, perPage, search, encode)).search == Some(encode(search))
    ensures decode(ProductsParams(FetchUrlEncoded(page, perPage, search, encode)).search.value) == search
  {
    var e := encode(search);
    EncodedQuery(page, perPage, e);
    assert FetchUrlEncoded(page, perPage, search, encode) == FetchUrl(page, perPage, e);
    var q := RequestQuery(FetchUrl(page, perPage, e));
    SearchIsThird(q, e);
  }

  /** A search text without `&` or `#` is split back out whole, as the raw
      third parameter; percent-decoding and `+` are left to the caller. */
  lemma EncodedQuery(page: int, perPage: int, e: string)
    requires '&' !in e && '#' !in e
    ensures RequestQuery(FetchUrl(page, perPage, e))
      == [Param("page", IntToString(page)), Param("limit", IntToString(perPage)), Param("search", e)]
  {
    NumberIsTransparent(page);
    NumberIsTransparent(perPage);
    TransparentThree("page", IntToString(page), "limit", IntToString(perPage), "search", e);
    RequestUrlReadBack("/api/products", [Param("page", IntToString(page)), Param("limit", IntToString(perPage)), Param("search", e)]);
  }

  class AllProductsPage {
    /** The URL's query parameters. */
    var query: seq<Param>
    var currentPage: int
    var productsPerPage: int
    var totalProducts: int

    /** A page size chosen from the selector (8 at first). */
    predicate Valid()
      reads this
    {
      productsPerPage in PerPageOptions
    }

    function SearchQuery(): string
      reads this
    {
      SearchOf(query)
    }

    function TotalPagesShown(): int
      reads this
      requires Valid()
    {
      TotalPages(totalProducts, productsPerPage)
    }

    /** The page as first rendered for the URL's query. */
    constructor (query0: seq<Param>)
      ensures Valid()
      ensures query == query0 && currentPage == PageFromUrl(query0)
      ensures productsPerPage == 8 && totalProducts == 0
    {
      query := query0;
      currentPage := PageFromUrl(query0);
      productsPerPage := 8;
      totalProducts := 0;
    }

    /** On mount, a URL without a page (or with an empty one) is rewritten
        to page 1 with the same search text. */
    method EnsurePageParam()
      requires Valid()
      modifies this
      ensures Valid()
      ensures old(Get(query, "page")).None? || old(Get(query, "page")) == Some("") ==>
        query == PageQuery(1, old(SearchQuery())) && PageFromUrl(query) == 1
      ensures old(Get(query, "page")).Some? && old(Get(query, "page")) != Some("") ==> query == old(query)
      ensures SearchQuery() == old(SearchQuery())
      ensures currentPage == old(currentPage) && productsPerPage == old(productsPerPage)
      ensures totalProducts == old(totalProducts)
    {
      var page := Get(query, "page");
      if page.None? || page == Some("") {
        var search := SearchQuery();
        query := PageQuery(1, search);
        PageQueryReadBack(1, search);
      }
    }

    /** The current page follows the URL. */
    method SyncPage()
      requires Valid()
      modifies this
      ensures Valid()
      ensures currentPage == PageFromUrl(query)
      ensures query == old(query) && productsPerPage == old(productsPerPage)
      ensures totalProducts == old(totalProducts)
    {
      currentPage := PageFromUrl(query);
    }

    /** The server's answer to the fetch sets the total. */
    method ReceiveTotal(total: int)
      requires Valid()
      modifies this
      ensures Valid()
      ensures totalProducts == total
      ensures query == old(query) && currentPage == old(currentPage)
      ensures productsPerPage == old(productsPerPage)
    {
      totalProducts := total;
    }

    /** A new page size: back to page 1, keeping the search text. */
    method OnPerPageChange(size: int)
      requires Valid() && size in PerPageOptions
      modifies this
      ensures Valid()
      ensures query == PageQuery(1, old(SearchQuery())) && productsPerPage == size
      ensures SearchQuery() == old(SearchQuery()) && PageFromUrl(query) == 1
      ensures currentPage == old(currentPage) && totalProducts == old(totalProducts)
    {
      var search := SearchQuery();
      query := PageQuery(1, search);
      productsPerPage := size;
      PageQueryReadBack(1, search);
    }

    /** A page emitted by the pagination control is written to the URL
        unchecked, keeping the search text. */
    method OnPageChange(page: int)
      requires Valid()
      modifies this
      ensures Valid()
      ensures query == PageQuery(page, old(SearchQuery()))
      ensures SearchQuery() == old(SearchQuery())
      ensures PageFromUrl(query) == (if page == 0 then 1 else page)
      ensures currentPage == old(currentPage) && productsPerPage == old(productsPerPage)
      ensures totalProducts == old(totalProducts)
    {
      var search := SearchQuery();
      query := PageQuery(page, search);
      PageQueryReadBack(page, search);
    }
  }
}
