/** The `CategoryProducts` page: the products of one category, eight to a
    page.  Its state only mirrors the URL: the current page is read from the
    `page` parameter, and a page change writes the URL. */
module CategoryProducts {
  import opened Wrappers
  import opened JsText
  import opened Locations
  import opened PageMath
  import opened ApiRequests
  import SearchQuery
  import CategoryCard

  const ProductsPerPage := 8

  /** `Math.ceil(totalProducts / productsPerPage)`. */
  function PageCount(total: int): int {
    TotalPages(total, ProductsPerPage)
  }

  /** The products request for category `id` (the route parameter) and the
      current page. */
  function FetchUrl(id: string, currentPage: int): string {
    RequestUrl("/api/products", [Param("catid", id), Param("page", IntToString(currentPage)),
                                 Param("limit", IntToString(ProductsPerPage))])
  }

  /** `categoryName.replace(/-/g, " ")`. */
  function Heading(name: string): (r: string)
    ensures |r| == |name|
    ensures forall i :: 0 <= i < |name| ==> r[i] == (if name[i] == '-' then ' ' else name[i])
    ensures '-' !in r
  {
    if name == [] then [] else [if name[0] == '-' then ' ' else name[0]] + Heading(name[1..])
  }

  /** `setSearchParams({ page })`: the new query holds the page and nothing
      else. */
  function OnPageChange(location: Location, page: int): Location {
    Location(location.path, [Param("page", IntToString(page))])
  }

  /** `ceil(total / 8)`: the pages of eight hold every product, and no
      fewer pages would. */
  lemma PageCountBounds(total: nat)
    ensures (PageCount(total) - 1) * 8 < total <= PageCount(total) * 8
    ensures total == 0 <==> PageCount(total) == 0
  {
    TotalPagesOfCount(total, ProductsPerPage);
  }

  /** The request carries `catid`, the page and the limit, in that order,
      and the server reads them back as written. */
  lemma FetchQuery(id: string, currentPage: int)
    requires '&' !in id && '#' !in id
    ensures RequestQuery(FetchUrl(id, currentPage))
      == [Param("catid", id), Param("page", IntToString(currentPage)), Param("limit", "8")]
  {
    var query := [Param("catid", id), Param("page", IntToString(currentPage)), Param("limit", IntToString(8))];
    assert IntToString(8) == "8";
    NumberIsTransparent(currentPage);
    TransparentThree("catid", id, "page", IntToString(currentPage), "limit", IntToString(8));
    RequestUrlReadBack("/api/products", query);
  }

  /** The server's `req.query`: that category, the current page and a limit
      of 8, with no search text and no sort. */
  lemma FetchReadBack(id: string, currentPage: int)
    requires '&' !in id && '#' !in id
    ensures ProductsParams(FetchUrl(id, currentPage))
      == SearchQuery.SearchParams(Some(IntToString(currentPage)), Some("8"), None, Some(id), None)
  {
    FetchQuery(id, currentPage);
    FetchQueryGets(id, IntToString(currentPage));
  }

  lemma FetchQueryGets(id: string, page: string)
    ensures var q := [Param("catid", id), Param("page", page), Param("limit", "8")];
      Get(q, "catid") == Some(id) && Get(q, "page") == Some(page) && Get(q, "limit") == Some("8")
      && Get(q, "search") == None && Get(q, "sort") == None
  {
    var q := [Param("catid", id), Param("page", page), Param("limit", "8")];
    assert Get(q[1..], "page") == Some(page);
    assert Get(q[2..], "limit") == Some("8");
    assert q[0].key != "search" && q[1].key != "search" && q[2].key != "search";
    assert q[0].key != "sort" && q[1].key != "sort" && q[2].key != "sort";
  }

  /** So the search backend is asked for the products from
      `(page - 1) * 8` on, eight of them. */
  lemma FetchAsksForPage(id: string, currentPage: int, rows: seq<SearchQuery.CategoryRow>)
    requires '&' !in id && '#' !in id && currentPage != 0
    ensures SearchQuery.Compile(ProductsParams(FetchUrl(id, currentPage)), rows).from == (currentPage - 1) * 8
    ensures SearchQuery.Compile(ProductsParams(FetchUrl(id, currentPage)), rows).size == 8
  {
    FetchReadBack(id, currentPage);
    var p := ProductsParams(FetchUrl(id, currentPage));
    ParseIntOfIntToString(currentPage);
    ParseIntOfIntToString(8);
    assert ParseParam(p.page) == Some(currentPage);
    assert ParseParam(p.limit) == Some(8);
    SearchQuery.CompilePagination(p, rows);
  }

  /** A page change keeps the path, drops every other parameter, and the
      page read back is the one emitted (page 0 reads back as 1). */
  lemma PageChangeReadBack(location: Location, page: int)
    ensures OnPageChange(location, page).path == location.path
    ensures |OnPageChange(location, page).query| == 1
    ensures PageFromUrl(OnPageChange(location, page).query) == (if page == 0 then 1 else page)
  {
    ParseIntOfIntToString(page);
  }

  /** Words separated by single spaces: every white-space character is a
      plain space and is not followed by another. */
  predicate SingleSpaced(s: string) {
    forall i :: 0 <= i < |s| && IsSpace(s[i]) ==> s[i] == ' ' && (i + 1 < |s| ==> !IsSpace(s[i + 1]))
  }

  /** On a single-spaced string without `-`, turning spaces into `-` and back
      gives the string again. */
  lemma {:induction false} HeadingOfDashRuns(s: string)
    requires SingleSpaced(s) && '-' !in s
    ensures Heading(CategoryCard.DashRuns(s)) == s
  {
    if s != [] {
      var t := s[1..];
      assert SingleSpaced(t) && '-' !in t by {
        assert forall i :: 0 <= i < |t| ==> t[i] == s[i + 1];
      }
      HeadingOfDashRuns(t);
      var d := CategoryCard.DashRuns(t);
      if IsSpace(s[0]) {
        assert TrimStart(t) == t;
        assert CategoryCard.DashRuns(s) == "-" + d;
        assert ("-" + d)[1..] == d;
      } else {
        assert CategoryCard.DashRuns(s) == [s[0]] + d;
        assert ([s[0]] + d)[1..] == d;
      }
    }
  }

  /** The heading of a category page opened from its card is the category
      title in lower case, when the title is single-spaced and holds no `&`
      and no `-`. */
  lemma HeadingOfSlug(title: string)
    requires SingleSpaced(title) && '&' !in title && '-' !in title
    ensures Heading(CategoryCard.Slug(title)) == LowerAll(title)
  {
    var l := LowerAll(title);
    LowerAllAt(title);
    assert '&' !in l && '-' !in l by {
      forall i | 0 <= i < |l| ensures l[i] != '&' && l[i] != '-' { assert l[i] == Lower(title[i]); }
    }
    assert SingleSpaced(l) by {
      forall i | 0 <= i < |l| && IsSpace(l[i]) ensures l[i] == ' ' && (i + 1 < |l| ==> !IsSpace(l[i + 1])) {
        assert l[i] == Lower(title[i]);
        if i + 1 < |l| { assert l[i + 1] == Lower(title[i + 1]); }
      }
    }
    CategoryCard.RemoveAmpFixed(l);
    HeadingOfDashRuns(l);
  }

  /** A card's route opens the first page of its category. */
  lemma CardOpensFirstPage(title: string, id: nat)
    requires '?' !in CategoryCard.Slug(title) && '#' !in CategoryCard.Slug(title)
    ensures RequestQuery(CategoryCard.CardPath(title, id)) == [Param("page", "1")]
    ensures PageFromUrl(RequestQuery(CategoryCard.CardPath(title, id))) == 1
  {
    var n := NatToString(id);
    CategoryCard.NumberHasNoSeparator(id);
    var head := "/category/" + CategoryCard.Slug(title) + "/" + n;
    assert '?' !in head && '#' !in head;
    assert CategoryCard.CardPath(title, id) == head + "?" + "page=1";
    QueryPartOf(head, "page=1");
    BeforeFragmentWhole("page=1");
    CategoryCard.PageOneQuery();
    assert ParseInt("1") == Some(1) by { ParseIntOfIntToString(1); }
  }

  /** A `#` in the slug cuts the route short: the browser keeps the rest as
      the fragment, the query is empty, and the page is still the first. */
  lemma CardFragmentOpensFirstPage(title: string, id: nat, a: string, b: string)
    requires CategoryCard.Slug(title) == a + "#" + b && '#' !in a && '?' !in a && '/' !in a
    ensures RequestQuery(CategoryCard.CardPath(title, id)) == [Param("", "")]
    ensures PageFromUrl(RequestQuery(CategoryCard.CardPath(title, id))) == 1
  {
    CategoryCard.CardPathCutAtFragment(title, id, a, b);
    assert SplitOn("", '&') == [""];
    assert SplitOn("", '=') == [""];
  }
}
