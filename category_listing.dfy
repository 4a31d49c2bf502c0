/** `getCategories` (GET /api/categories): one page of the categories table
    and the total number of categories.  The table is an input sequence in
    its stored order; `dbOk` says whether both queries succeed. */
module CategoryListing {
  import opened Wrappers
  import opened JsText
  import opened PageMath

  /** The query-string parameters; an absent parameter is `None`. */
  datatype ListingParams = ListingParams(page: Option<string>, limit: Option<string>)

  datatype ListingResponse<Row> =
    | Listing(categories: seq<Row>, total: int)
    | ServerError(status: int, message: string)

  const DefaultPage := 1
  const DefaultLimit := 6

  function PageOf(p: ListingParams): int { OrDefault(ParseParam(p.page), DefaultPage) }

  function LimitOf(p: ListingParams): int { OrDefault(ParseParam(p.limit), DefaultLimit) }

  function OffsetOf(p: ListingParams): int { (PageOf(p) - 1) * LimitOf(p) }

  /** `LIMIT limit OFFSET offset` over the table in its stored order: the
      rows from position `offset` on, at most `limit` of them. */
  function LimitOffset<Row>(table: seq<Row>, limit: nat, offset: nat): (r: seq<Row>)
    ensures |r| == Min(limit, |table| - Min(offset, |table|))
    ensures forall i :: 0 <= i < |r| ==> offset + i < |table| && r[i] == table[offset + i]
  {
    var start := Min(offset, |table|);
    table[start..Min(start + limit, |table|)]
  }

  /** The handler: a negative `LIMIT` or `OFFSET` is rejected by the
      database, and any failed query gives 500 "Server error". */
  function GetCategories<Row>(p: ListingParams, table: seq<Row>, dbOk: bool): ListingResponse<Row> {
    var limit := LimitOf(p);
    var offset := OffsetOf(p);
    if !dbOk || limit < 0 || offset < 0 then ServerError(500, "Server error")
    else Listing(LimitOffset(table, limit, offset), |table|)
  }

  /** A missing, unparsable or zero page is 1 and such a limit is 6 (not the
      8 of the product search); otherwise the parsed values are used, and
      page 1 starts at offset 0. */
  lemma ListingDefaults(p: ListingParams)
    ensures ParseParam(p.page).None? || ParseParam(p.page) == Some(0) ==> PageOf(p) == 1
    ensures ParseParam(p.limit).None? || ParseParam(p.limit) == Some(0) ==> LimitOf(p) == 6
    ensures ParseParam(p.page).Some? && ParseParam(p.page).value != 0 ==> PageOf(p) == ParseParam(p.page).value
    ensures ParseParam(p.limit).Some? && ParseParam(p.limit).value != 0 ==> LimitOf(p) == ParseParam(p.limit).value
    ensures PageOf(p) == 1 ==> OffsetOf(p) == 0
  {
  }

  /** The outcome: 500 "Server error" exactly when a query fails or the
      limit or offset is negative; otherwise the rows of the requested page
      (never more than the limit) and the count of the whole table, which
      does not depend on the page. */
  lemma ListingOutcome<Row>(p: ListingParams, table: seq<Row>, dbOk: bool)
    ensures var r := GetCategories(p, table, dbOk);
      (r.ServerError? <==> !dbOk || LimitOf(p) < 0 || OffsetOf(p) < 0)
      && (r.ServerError? ==> r == ServerError(500, "Server error"))
      && (r.Listing? ==>
            r.total == |table| && |r.categories| <= LimitOf(p)
            && forall i :: 0 <= i < |r.categories| ==> r.categories[i] == table[OffsetOf(p) + i])
  {
  }

  /** A negative page is not clamped: with a positive limit its offset is
      negative, and the request fails. */
  lemma NegativePageFails<Row>(p: ListingParams, table: seq<Row>, dbOk: bool)
    requires ParseParam(p.page).Some? && ParseParam(p.page).value < 0 && LimitOf(p) > 0
    ensures OffsetOf(p) < 0
    ensures GetCategories(p, table, dbOk) == ServerError(500, "Server error")
  {
    MulOrder(PageOf(p) - 1, 0, LimitOf(p));
  }

  /** A page from 1 on with a positive limit is the slice of the table
      that starts at `(page - 1) * limit`. */
  lemma ListedPage<Row>(p: ListingParams, table: seq<Row>)
    requires PageOf(p) >= 1 && LimitOf(p) >= 1
    ensures OffsetOf(p) >= 0
    ensures GetCategories(p, table, true) == Listing(LimitOffset(table, LimitOf(p), OffsetOf(p)), |table|)
  {
    MulOrder(0, PageOf(p) - 1, LimitOf(p));
  }

  /** The page and limit a client writes into the query string with `${n}`
      are the ones the handler reads back. */
  lemma RenderedParamsReadBack(k: int, limit: int)
    requires k != 0 && limit != 0
    ensures var p := ListingParams(Some(IntToString(k)), Some(IntToString(limit)));
      PageOf(p) == k && LimitOf(p) == limit && OffsetOf(p) == (k - 1) * limit
  {
    ParseIntOfIntToString(k);
    ParseIntOfIntToString(limit);
  }

  /** Pages 1 .. k of size `limit`, one after the other. */
  function Pages<Row>(table: seq<Row>, limit: nat, k: nat): seq<Row> {
    if k == 0 then [] else Pages(table, limit, k - 1) + LimitOffset(table, limit, (k - 1) * limit)
  }

  /** The first `k` pages are the first `k * limit` rows of the table: pages
      neither overlap nor leave gaps. */
  lemma {:induction false} PagesArePrefix<Row>(table: seq<Row>, limit: nat, k: nat)
    ensures Pages(table, limit, k) == table[..Min(k * limit, |table|)]
  {
    if k > 0 {
      PagesArePrefix(table, limit, k - 1);
      var offset := (k - 1) * limit;
      PageStep(k, limit);
      var a := Min(offset, |table|);
      var b := Min(offset + limit, |table|);
      assert LimitOffset(table, limit, offset) == table[a..b];
      assert table[..a] + table[a..b] == table[..b];
    }
  }

  lemma PageStep(k: nat, limit: nat)
    requires k > 0
    ensures (k - 1) * limit >= 0 && (k - 1) * limit + limit == k * limit
  {
  }

  /** Walking through all `ceil(total / limit)` pages lists every category
      exactly once, in table order. */
  lemma AllPagesListTable<Row>(table: seq<Row>, limit: int)
    requires limit > 0
    ensures TotalPages(|table|, limit) >= 0
    ensures Pages(table, limit, TotalPages(|table|, limit)) == table
  {
    TotalPagesOfCount(|table|, limit);
    PagesArePrefix(table, limit, TotalPages(|table|, limit));
  }
}
