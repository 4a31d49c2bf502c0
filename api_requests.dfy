/** The requests the pages send to the API: a path and `key=value` pairs
    written into a template string, and how the server's `req.query` reads
    them back. */
module ApiRequests {
  import opened Wrappers
  import opened JsText
  import opened Locations
  import SearchQuery
  import CategoryListing

  /** `${path}?${k1}=${v1}&${k2}=${v2}...`, with the values as they are. */
  function RequestUrl(path: string, query: seq<Param>): string {
    path + "?" + RenderQuery(query)
  }

  /** `req.query` of GET /api/products. */
  function ProductsParams(url: string): SearchQuery.SearchParams {
    var q := RequestQuery(url);
    SearchQuery.SearchParams(Get(q, "page"), Get(q, "limit"), Get(q, "search"), Get(q, "catid"), Get(q, "sort"))
  }

  /** `req.query` of GET /api/categories. */
  function CategoriesParams(url: string): CategoryListing.ListingParams {
    var q := RequestQuery(url);
    CategoryListing.ListingParams(Get(q, "page"), Get(q, "limit"))
  }

  /** Parameters whose keys hold no `=` or `&` and whose values hold no `&`
      reach the server as written, provided neither holds a `#`. */
  predicate Transparent(query: seq<Param>) {
    forall i :: 0 <= i < |query| ==>
      '=' !in query[i].key && '&' !in query[i].key && '&' !in query[i].value
      && '#' !in query[i].key && '#' !in query[i].value
  }

  lemma TransparentThree(k1: string, v1: string, k2: string, v2: string, k3: string, v3: string)
    requires '=' !in k1 && '&' !in k1 && '#' !in k1 && '&' !in v1 && '#' !in v1
    requires '=' !in k2 && '&' !in k2 && '#' !in k2 && '&' !in v2 && '#' !in v2
    requires '=' !in k3 && '&' !in k3 && '#' !in k3 && '&' !in v3 && '#' !in v3
    ensures Transparent([Param(k1, v1), Param(k2, v2), Param(k3, v3)])
  {
  }

  /** The server reads back transparent parameters exactly. */
  lemma RequestUrlReadBack(path: string, query: seq<Param>)
    requires '?' !in path && '#' !in path && |query| >= 1 && Transparent(query)
    ensures RequestQuery(RequestUrl(path, query)) == query
  {
    var pieces := RenderPieces(query);
    forall k | 0 <= k < |pieces| ensures '#' !in pieces[k] {
      assert pieces[k] == query[k].key + "=" + query[k].value;
    }
    JoinWithout(pieces, "&", '#');
    BeforeFragmentWhole(RenderQuery(query));
    QueryPartOf(path, RenderQuery(query));
    ParseRenderedQuery(query);
  }
}
