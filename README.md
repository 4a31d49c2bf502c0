# A verified model of the shop's search, catalogue paging and form logic

This project models the core of a small e-commerce application. It has an
Express back end, which uses MySQL and Elasticsearch, and a React front end.
The model is written in Dafny and covers:

- **The product search compiler** (`GET /api/products`). It reads the raw
  query parameters and pulls a price bound out of the search text ("20000",
  "under N", "above N"). It normalises the text, infers at most one category
  from the category/synonym vocabulary, and assembles the Elasticsearch bool
  query: `from`, `size`, `sort`, `must` and `filter`. The query is produced
  as a value (`SearchQuery.EsSearch`). The imperative code is modelled by
  step methods. They are proved equal to a ghost specification
  (`SearchQuery.Compile`), and the properties are proved about that
  specification.
- **The Elasticsearch index lifecycle**:
  - the start-up routine creates the index only when it is absent, then
    bulk-syncs the catalogue;
  - the re-creation script deletes the index, then creates it;
  - the stand-alone sync script fills the index.

  The cluster is a class whose field maps each index name to its schema and
  its documents. Whether each remote call throws is an input, and a bulk
  call that returns is taken to apply every one of its items.
- **The category listing** (`GET /api/categories`): page and limit defaults,
  the offset, the page slice and the total.
- **The front end's paging**:
  - the `Home`, `AllProducts` and `CategoryProducts` pages, including each
    page's state and its handlers, which are methods on a class;
  - the `Pagination` component;
  - the requests each page sends, and what the server reads back from them.
- **Small client-side pieces**:
  - the category slug and card route of `CategoryCard`;
  - the `Navbar` search navigation, the search-box sync and the
    hide-on-scroll rule;
  - the `Auth` page's field validator, its sign-up error map and what a
    submit sends.

JavaScript's behaviour is written out where it matters:

- `parseInt` with its prefix parse, sign and `0x`;
- `x || d`, where `NaN` and `0` are falsy;
- the `\s` white-space set, `trim`, `split(/\s+/)` giving `[""]` for `""`,
  and ASCII `toLowerCase`;
- `for…in` visiting integer keys in ascending order;
- `Math.ceil`.

A front-end location is kept with decoded parameters, so the
`encodeURIComponent` a component applies and the decoding the router applies
cancel out. The server's `req.query` is modelled as a raw split:

- on the first `?`, then on `&`, then on the first `=` of each piece;
- the first value wins for a repeated key.

A URL is sent only up to its first `#`: the rest is a fragment that stays
in the browser. The read-backs state the raw split of what is sent. Values
are read back undecoded: a `%` escape or a `+`, which Express would decode
(`+` as a space), is kept as written.

Files, one module each:

- `wrappers.dfy` — `Option`.
- `js_text.dfy` — the JavaScript text and number primitives.
- `locations.dfy` — query strings and the `page` parameter.
- `api_requests.dfy` — the request URLs and what the controllers read.
- `search_query.dfy` — `productController.js`.
- `search_index.dfy` — the `server.js` start-up, `createIndex.js` and
  `syncProducts.js`.
- `category_listing.dfy` — `categoryController.js`.
- `page_math.dfy` — the page-count arithmetic.
- `pagination.dfy` — `Pagination.jsx`.
- `home_page.dfy`, `all_products.dfy`, `category_products.dfy` — the three
  paging pages.
- `category_card.dfy` — `CategoryCard.jsx`.
- `navbar.dfy` — `Navbar.jsx`.
- `auth_form.dfy` — `Auth.jsx`.

## Model

| member | source | states |
|---|---|---|
| SearchQuery.FindPattern | ecommerce-backend/controllers/productController.js:27-28 | the leftmost match of `word\s(\d+)`: one white-space character, a greedy digit run, no match starting earlier, and the captured number's value |
| SearchQuery.ReplaceFirst | ecommerce-backend/controllers/productController.js:32-37 | with a match, exactly the first match's span is removed: the text before it is kept and every later character moves left by the match's length; with no match the text is unchanged |
| SearchQuery.ReplaceFirstKeepsLaterMatches | ecommerce-backend/controllers/productController.js:32-37 | a match lying after the first one is still a match after the cut, moved left by the first match's length |
| SearchQuery.DigitsOnlyIsUpperBound | ecommerce-backend/controllers/productController.js:19-24 | a digits-only text becomes an `lte` bound on its value, leaves no text, and neither pattern fires |
| SearchQuery.PriceBoundChoice | ecommerce-backend/controllers/productController.js:19-38 | "above" overwrites "under", which overwrites a digits-only bound; each bound comes from the first occurrence; without any match the text is kept |
| SearchQuery.PriceTextCut | ecommerce-backend/controllers/productController.js:27-38 | the text left over: with only an "under" or only an "above" match, the trimmed text without that first match; with both, "under" is cut and the text trimmed, an "above" match is still there, and it is cut and the text trimmed again |
| SearchQuery.AboveSurvivesUnderCut | ecommerce-backend/controllers/productController.js:27-38 | when both patterns match, removing the "under" match leaves an "above" match, so the second replacement always fires |
| SearchQuery.UnderMatchesInsideWords | ecommerce-backend/controllers/productController.js:27-33 | no word boundary: "thunder 5" gives `lte 5` and leaves "th" |
| SearchQuery.UnderNeedsOneSpace | ecommerce-backend/controllers/productController.js:27-28 | "under  5" (two spaces) sets no bound and keeps its text |
| SearchQuery.StripDisallowed | ecommerce-backend/controllers/productController.js:46 | only a-z, 0-9 and white space remain, and the text does not grow |
| SearchQuery.StripDisallowedAppend | ecommerce-backend/controllers/productController.js:46 | the filter works character by character: it distributes over concatenation, so order is kept |
| SearchQuery.StripDisallowedOne | ecommerce-backend/controllers/productController.js:46 | a single character is kept iff it is a-z, 0-9 or white space; with the previous row this fixes the result on every text |
| SearchQuery.NormalizedForm | ecommerce-backend/controllers/productController.js:41-47 | a normalised text holds only a-z, 0-9 and white space, and does not start or end with white space |
| SearchQuery.NormalizedWords | ecommerce-backend/controllers/productController.js:49 | splitting a normalised text gives no empty word, except `[""]` for the empty text |
| SearchQuery.NormalizeNotIdempotent | ecommerce-backend/controllers/productController.js:41-47 | "a-nd" normalises to "and", which normalises to "" |
| SearchQuery.NormalizeStripsAndInsideWords | ecommerce-backend/controllers/productController.js:45 | "and" is replaced inside words: "Android" gives "roid" |
| SearchQuery.GroupRowsKeys | ecommerce-backend/controllers/productController.js:58-66 | the category map has exactly one entry per category id occurring in the rows |
| SearchQuery.GroupRowsContents | ecommerce-backend/controllers/productController.js:60-73 | each entry holds the words of all its category's rows, in row order |
| SearchQuery.CollectRowWords | ecommerce-backend/controllers/productController.js:68-72 | a row gives one or two words: first the normalised name, then, exactly when the synonym is neither NULL nor "", the normalised synonym |
| SearchQuery.BuildCategoryMap | ecommerce-backend/controllers/productController.js:58-73 | the `forEach` builds the grouped map of the rows |
| SearchQuery.FilterOut | ecommerce-backend/controllers/productController.js:83-85 | every residual word is a query word outside the category's word list, and every such query word is in the residual |
| SearchQuery.FilterOutAppend | ecommerce-backend/controllers/productController.js:83-85 | filtering distributes over concatenation, so the residual keeps the query's order |
| SearchQuery.FilterOutOne | ecommerce-backend/controllers/productController.js:83-85 | a single word is kept iff it is not in the category's word list |
| SearchQuery.FirstMatchIsSmallestMatching | ecommerce-backend/controllers/productController.js:75-89 | the chosen category is the smallest id sharing a word with the query; none is chosen exactly when no category shares one |
| SearchQuery.SmallestKey | ecommerce-backend/controllers/productController.js:75 | the next key `for…in` visits is the smallest remaining id |
| SearchQuery.FindCategory | ecommerce-backend/controllers/productController.js:75-89 | the loop with `break` returns the first match in ascending id order |
| SearchQuery.ExtractPriceSteps | ecommerce-backend/controllers/productController.js:14-38 | the statements on `cleanSearch` and `priceRange` compute the price extraction |
| SearchQuery.InferSteps | ecommerce-backend/controllers/productController.js:49-89 | the category-inference statements compute the inferred category and the residual |
| SearchQuery.AssembleSteps | ecommerce-backend/controllers/productController.js:91-139 | the clause pushes and the sort choice build the request from its parts |
| SearchQuery.CompileSearch | ecommerce-backend/controllers/productController.js:4-139 | the handler up to `client.search` sends exactly the request the specification compiles |
| SearchQuery.AssemblePagination | ecommerce-backend/controllers/productController.js:128-131 | `from = (page - 1) * limit` and `size = limit` on index "products"; page 1 starts at 0 (the offset is computed at line 12) |
| SearchQuery.CompilePagination | ecommerce-backend/controllers/productController.js:6-12 | a missing, unparsable or zero page means 1 and such a limit means 8; negative values pass through |
| SearchQuery.AssembleMust | ecommerce-backend/controllers/productController.js:91-104 | one clause: a `multi_match` over `proname^4`, `description^2`, AUTO, 75% iff the residual is non-empty, `match_all` otherwise (placed in the request at line 135) |
| SearchQuery.UnmatchedTextIsNotNormalized | ecommerce-backend/controllers/productController.js:95-103 | with no category match, the full-text clause gets the lower-cased, trimmed, price-stripped text without normalisation (the text comes from lines 14-37) |
| SearchQuery.AssembleFilters | ecommerce-backend/controllers/productController.js:106-121 | the filters are the URL category, then the inferred category (never suppressed), then the price; at most one price filter |
| SearchQuery.CompileSort | ecommerce-backend/controllers/productController.js:123-132 | price ascending iff "price_low", descending iff "price_high", otherwise no sort (the option is read at line 10) |
| SearchQuery.InferredCategoryIsFirstMatch | ecommerce-backend/controllers/productController.js:75-89 | the inferred category is the smallest id sharing a word with the normalised query; the residual is the other words joined by single spaces (the search words are split at line 49) |
| SearchQuery.InferredResidualWords | ecommerce-backend/controllers/productController.js:83-85 | the residual text, split again on white space, gives back exactly the kept words; it is "" when none is kept |
| SearchQuery.ToProducts | ecommerce-backend/controllers/productController.js:141-144 | one product per hit, in hit order, carrying the hit's id and source |
| SearchQuery.SearchProducts | ecommerce-backend/controllers/productController.js:4-154 | any failure gives 500 "Search failed"; otherwise the products of the hits and the backend's total |
| SearchIndex.SchemasAgree | ecommerce-backend/utils/createIndex.js:19-63 | the script's schema equals the server's; the chain is lowercase, synonym_filter, porter_stem over the standard tokenizer with eight synonym groups; the field types are as declared |
| SearchIndex.DocOf | ecommerce-backend/server.js:94-99 | a document carries exactly proname, description, `parseFloat(price)` and catid |
| SearchIndex.BulkBodyShape | ecommerce-backend/server.js:89-101 | the body has length 2n: for each row in order, an index action on "products" with `_id = prodid`, then its document |
| SearchIndex.BuildBulkBody | ecommerce-backend/utils/syncProducts.js:17-29 | the `forEach`/`push` loop builds that body |
| SearchIndex.BulkSyncEffect | ecommerce-backend/server.js:103 | after the bulk call, each id's document is built from its last row; other documents, the schema and other indices are untouched |
| SearchIndex.Cluster.Exists | ecommerce-backend/server.js:38 | reports whether the index exists, or that the call failed |
| SearchIndex.Cluster.Create | ecommerce-backend/server.js:42-80 | creates an empty index with the schema unless it exists or the call fails |
| SearchIndex.Cluster.Delete | ecommerce-backend/utils/createIndex.js:14-17 | removes the index when it exists and the call succeeds |
| SearchIndex.Cluster.Bulk | ecommerce-backend/server.js:103 | logs the request and, when the call returns, applies every action in it |
| SearchIndex.SetupElasticsearch | ecommerce-backend/server.js:35-113 | the start-up routine's effect on the cluster, the bulk requests sent and the outcome; every failure is caught |
| SearchIndex.SetupKeepsExistingSchema | ecommerce-backend/server.js:38-84 | an existing index keeps its schema; an absent one is created with the fixed schema |
| SearchIndex.SetupSyncsEveryProduct | ecommerce-backend/server.js:86-104 | the sync runs whether or not the index pre-existed, and, with every bulk item applied, every product gets its document |
| SearchIndex.SetupRequestsShape | ecommerce-backend/server.js:89-107 | at most one bulk request, always with refresh; none for an empty table or after a failed index step |
| SearchIndex.RecreateIndex | ecommerce-backend/utils/createIndex.js:10-69 | exists, delete if present, then create; each failure stops the script and is only logged |
| SearchIndex.RecreateGivesFreshIndex | ecommerce-backend/utils/createIndex.js:12-63 | a successful run leaves one empty "products" index with the fixed schema, and other indices unchanged |
| SearchIndex.RecreateIdempotent | ecommerce-backend/utils/createIndex.js:10-69 | running the script twice ends in the same state as once |
| SearchIndex.RecreateFailedCreateLosesIndex | ecommerce-backend/utils/createIndex.js:11-68 | a delete that succeeds followed by a create that fails leaves no index |
| SearchIndex.SyncProducts | ecommerce-backend/utils/syncProducts.js:4-37 | an empty or failed catalogue query sends nothing; otherwise one refreshing bulk request is sent |
| SearchIndex.SyncMatchesSetupSync | ecommerce-backend/utils/syncProducts.js:17-31 | on an existing index, the script has the same effect as the start-up sync |
| CategoryListing.LimitOffset | ecommerce-backend/controllers/categoryController.js:9-12 | `LIMIT limit OFFSET offset`: at most `limit` rows, position `offset + i` of the table |
| CategoryListing.ListingDefaults | ecommerce-backend/controllers/categoryController.js:4-6 | a missing, unparsable or zero page is 1 and such a limit is 6; page 1 starts at offset 0 |
| CategoryListing.ListingOutcome | ecommerce-backend/controllers/categoryController.js:3-25 | 500 "Server error" exactly on a failed query or a negative limit or offset; otherwise the page's rows and the whole table's count |
| CategoryListing.NegativePageFails | ecommerce-backend/controllers/categoryController.js:4-6 | a negative page is not clamped: its offset is negative and the request fails |
| CategoryListing.ListedPage | ecommerce-backend/controllers/categoryController.js:6-21 | a page from 1 on is the table slice starting at `(page - 1) * limit` |
| CategoryListing.RenderedParamsReadBack | ecommerce-backend/controllers/categoryController.js:4-6 | a non-zero page and limit written as decimals are read back unchanged, and the offset is `(page - 1) * limit` |
| CategoryListing.PagesArePrefix | ecommerce-backend/controllers/categoryController.js:9-12 | the first k pages are the first `k * limit` rows: no overlap and no gap |
| CategoryListing.AllPagesListTable | ecommerce-backend/controllers/categoryController.js:9-21 | walking all `ceil(total / limit)` pages lists every category once, in order |
| PageMath.TotalPages | frontend/src/pages/Home.jsx:44 | `ceil(total / perPage)`: the pages hold every item and one page fewer would not |
| PageMath.TotalPagesUnique | frontend/src/pages/AllProducts.jsx:55 | the ceiling is the only count with that property |
| PageMath.TotalPagesOfCount | frontend/src/pages/CategoryProducts.jsx:39 | no items means no pages; up to one page of items means exactly one |
| PageMath.PageSlice | frontend/src/pages/AllProducts.jsx:55-57 | an in-range page starts inside the list and ends at `min(page * perPage, total)` |
| PageMath.PagePastEnd | frontend/src/pages/AllProducts.jsx:55-57 | a page past the last starts after the end of the list |
| Pagination.ButtonsFrom | frontend/src/components/Pagination.jsx:14-26 | one button per index, numbered and emitting `index + 1`, highlighted iff it is the current page |
| Pagination.ButtonsAreNumbered | frontend/src/components/Pagination.jsx:14-26 | `max(totalPages, 0)` buttons numbered 1, 2, … in order, button k emitting k |
| Pagination.HighlightIsCurrentPage | frontend/src/components/Pagination.jsx:18-22 | at most one button is highlighted, and one exactly when `1 <= currentPage <= totalPages`; it is the current page |
| Pagination.ControlsEmitNeighbours | frontend/src/components/Pagination.jsx:6-34 | Prev is disabled iff on page 1 and emits `currentPage - 1`; Next is disabled iff on the last page and emits `currentPage + 1`; no clamping |
| Pagination.EnabledControlsStayInRange | frontend/src/components/Pagination.jsx:6-34 | from an in-range page, an enabled Prev or Next emits an in-range page |
| Pagination.NextEnabledWithoutPages | frontend/src/components/Pagination.jsx:28-31 | with no pages, Next stays enabled and emits page 2 |
| JsText.LowerAll | ecommerce-backend/controllers/productController.js:14 | ASCII `toLowerCase` keeps the length |
| JsText.TrimSpec | ecommerce-backend/controllers/productController.js:14 | `trim` keeps a slice of its input with only white space cut away on either side, and the result neither starts nor ends with white space |
| JsText.SplitWs | ecommerce-backend/controllers/productController.js:49 | `split(/\s+/)` gives at least one piece, none holding white space |
| JsText.SplitWsOfWordRun | ecommerce-backend/controllers/productController.js:49 | a word followed by a white-space run of any length is one piece, and the text after the run splits on its own; a trailing run gives a last piece "" |
| JsText.SplitWsOfLeadingRun | ecommerce-backend/controllers/productController.js:49 | a leading white-space run of any length gives one empty first piece |
| JsText.SplitWsOfJoin | ecommerce-backend/controllers/productController.js:49 | splitting non-empty, space-free words joined by single spaces gives back exactly those words |
| JsText.SplitTrimmed | ecommerce-backend/controllers/productController.js:49 | after `trim` no piece is empty, except the single `""` of the empty text |
| JsText.OrDefault | ecommerce-backend/controllers/productController.js:6-7 | `NaN` and 0 give the default; any other value passes through |
| JsText.ParseIntOfIntToString | frontend/src/pages/Home.jsx:10 | `parseInt` reads back every integer written with `${n}` |
| Locations.Get | frontend/src/pages/AllProducts.jsx:10 | `get` is `None` iff no parameter has the key, and otherwise the value of the first parameter that has it |
| Locations.ParseRenderedQuery | frontend/src/pages/Home.jsx:26-28 | the server's raw query parsing reads back the parameters a template URL writes |
| Locations.PageFromUrlDefaults | frontend/src/pages/Home.jsx:10 | a missing or unparsable page is 1, and a non-zero page written as a decimal is read back |
| ApiRequests.RequestUrlReadBack | frontend/src/pages/CategoryProducts.jsx:24-26 | `req.query` holds exactly the parameters of the request URL when the path holds no `?` or `#`, no key holds `=`, and no key or value holds `&` or `#` |
| CategoryCard.RemoveAmp | frontend/src/components/CategoryCard.jsx:6 | no `&` remains, and the text does not grow |
| CategoryCard.DashRuns | frontend/src/components/CategoryCard.jsx:6 | no white space remains |
| CategoryCard.DashRunsAt | frontend/src/components/CategoryCard.jsx:6 | each maximal white-space run becomes exactly one `-` |
| CategoryCard.RemoveAmpKeepsChars | frontend/src/components/CategoryCard.jsx:6 | every character left comes from the text |
| CategoryCard.DashRunsChars | frontend/src/components/CategoryCard.jsx:6 | every character of the result is `-` or a non-space character of the text |
| CategoryCard.SlugForm | frontend/src/components/CategoryCard.jsx:6 | a slug holds no `&` and no white space |
| CategoryCard.SlugIdempotent | frontend/src/components/CategoryCard.jsx:6 | slugging a slug changes nothing |
| CategoryCard.SlugLeadingDash | frontend/src/components/CategoryCard.jsx:6 | no trim: leading white space gives a leading `-` |
| CategoryCard.SlugTrailingDash | frontend/src/components/CategoryCard.jsx:6 | no trim: trailing white space gives a trailing `-` |
| CategoryCard.SlugOfAmpersandPair | frontend/src/components/CategoryCard.jsx:6 | "A & B" with single words gives `a-b` with one hyphen |
| CategoryCard.HomeAndKitchen | frontend/src/components/CategoryCard.jsx:6 | "Home & Kitchen" gives "home-kitchen" |
| CategoryCard.CardPathParts | frontend/src/components/CategoryCard.jsx:10 | for a slug without `?`, `/` or `#`, the path's segments are `category`, the slug and the id, and the query is `page=1` |
| CategoryCard.CardPathCutAtFragment | frontend/src/components/CategoryCard.jsx:10 | a `#` in the slug ends the route there: the path stops at the slug's part before `#`, with no id, and the query is empty |
| CategoryProducts.Heading | frontend/src/pages/CategoryProducts.jsx:44 | character by character, each `-` becomes a space and every other character is kept |
| CategoryProducts.HeadingOfDashRuns | frontend/src/pages/CategoryProducts.jsx:44 | on single-spaced text without `-`, the heading undoes the dashing |
| CategoryProducts.HeadingOfSlug | frontend/src/pages/CategoryProducts.jsx:44 | opened from its card, the heading is the lower-cased title when the title is single-spaced and holds no `&` or `-` |
| CategoryProducts.PageCountBounds | frontend/src/pages/CategoryProducts.jsx:39 | `ceil(total / 8)` pages of eight hold every product and no fewer would; 0 iff no products (the page size is set at line 15) |
| CategoryProducts.FetchQuery | frontend/src/pages/CategoryProducts.jsx:24-26 | the request carries catid, page and limit 8, in that order |
| CategoryProducts.FetchReadBack | frontend/src/pages/CategoryProducts.jsx:24-26 | the server reads that category, the page and limit 8, with no search and no sort |
| CategoryProducts.FetchAsksForPage | frontend/src/pages/CategoryProducts.jsx:24-26 | the search request asks for eight products from `(page - 1) * 8` |
| CategoryProducts.PageChangeReadBack | frontend/src/pages/CategoryProducts.jsx:68-71 | a page change keeps the path, sets only `page`, and reads back as the page emitted (0 as 1) |
| CategoryProducts.CardOpensFirstPage | frontend/src/pages/CategoryProducts.jsx:11 | for a slug without `?` or `#`, the query of a card's route is exactly `page=1`, so page 1 opens |
| CategoryProducts.CardFragmentOpensFirstPage | frontend/src/pages/CategoryProducts.jsx:11 | with a `#` in the slug the query is empty, and the page still defaults to 1 |
| AllProducts.PageQueryReadBack | frontend/src/pages/AllProducts.jsx:119-123 | the written query keeps the search text and reads back the page (0 as 1) |
| AllProducts.ShownRangeIsPageSlice | frontend/src/pages/AllProducts.jsx:55-57 | on an in-range page, "Showing X–Y" is exactly the page's slice of the results |
| AllProducts.EmptyShowsZero | frontend/src/pages/AllProducts.jsx:70-71 | no products shows "0–0" |
| AllProducts.PastLastPageShowsInvertedRange | frontend/src/pages/AllProducts.jsx:70-71 | a page past the last shows a range whose start is after its end |
| AllProducts.SearchCutAtAmpersand | frontend/src/pages/AllProducts.jsx:38-40 | as written, the server reads a search text only up to its first `&` |
| AllProducts.SearchCutAtFragment | frontend/src/pages/AllProducts.jsx:38-40 | as written, a `#` in the search text ends the request: the server reads the page, the limit and the text before the `#` |
| AllProducts.EncodedSearchReadBack | frontend/src/pages/AllProducts.jsx:38-40 | with an encoding that writes no `&` or `#`, the server reads the encoding, which decodes to the whole text |
| AllProducts.AllProductsPage.constructor | frontend/src/pages/AllProducts.jsx:10-16 | the page starts at the URL's page, 8 per page, total 0 |
| AllProducts.AllProductsPage.EnsurePageParam | frontend/src/pages/AllProducts.jsx:20-27 | a missing or empty page is rewritten to page 1, keeping the search text |
| AllProducts.AllProductsPage.SyncPage | frontend/src/pages/AllProducts.jsx:30-32 | the current page follows the URL |
| AllProducts.AllProductsPage.ReceiveTotal | frontend/src/pages/AllProducts.jsx:43 | the total is the server's |
| AllProducts.AllProductsPage.OnPerPageChange | frontend/src/pages/AllProducts.jsx:100-113 | back to page 1 with the same search text and the new size |
| AllProducts.AllProductsPage.OnPageChange | frontend/src/pages/AllProducts.jsx:119-123 | the page is written unchecked, keeping the search text |
| HomePage.FetchReadBack | frontend/src/pages/Home.jsx:26-28 | the server reads back the page and page size sent |
| HomePage.ShownRangeIsServedPage | frontend/src/pages/Home.jsx:54-55 | on an in-range page, 1 <= X <= Y <= total for "Showing X – Y", and the server answers with exactly the categories at positions X to Y (`table[X-1..Y]`) and the total |
| HomePage.EmptyShowsOneToZero | frontend/src/pages/Home.jsx:54-55 | no categories shows "1 – 0" |
| HomePage.Home.constructor | frontend/src/pages/Home.jsx:10-15 | the page starts at the URL's page, 8 per page, total 0 |
| HomePage.Home.SyncPage | frontend/src/pages/Home.jsx:18-20 | the current page follows the URL |
| HomePage.Home.ReceiveTotal | frontend/src/pages/Home.jsx:31 | the total is the server's |
| HomePage.Home.OnPerPageChange | frontend/src/pages/Home.jsx:85-95 | the URL becomes page 1 alone, with the new size |
| HomePage.Home.OnPageChange | frontend/src/pages/Home.jsx:102-107 | a page between 1 and the page count is written; any other leaves the URL unchanged |
| Navbar.SearchTargetReadBack | frontend/src/components/Navbar.jsx:71-77 | the search lands on page 1 of the results for the trimmed text, which the box then shows |
| Navbar.NavbarState.constructor | frontend/src/components/Navbar.jsx:8-27 | the bar starts shown, at scroll 0, with the box synced to the location |
| Navbar.NavbarState.SyncWithLocation | frontend/src/components/Navbar.jsx:17-27 | on the results page the box takes `search` (or ""), elsewhere it is cleared |
| Navbar.NavbarState.HandleSearch | frontend/src/components/Navbar.jsx:71-77 | non-blank text goes to page 1 with the trimmed text; blank text goes to page 1 alone |
| Navbar.NavbarState.OnKeyDown | frontend/src/components/Navbar.jsx:113-121 | Enter navigates exactly as the Search button does; other keys change nothing |
| Navbar.NavbarState.OnInputChange | frontend/src/components/Navbar.jsx:104-111 | a blank value on the results page navigates to page 1 alone; otherwise only the box changes |
| Navbar.NavbarState.OnScroll | frontend/src/components/Navbar.jsx:44-62 | hidden iff the scroll moved down past 50; the position is remembered |
| AuthForm.Utf16Length | frontend/src/pages/Auth.jsx:47 | `value.length` counts UTF-16 code units: between one and two per character |
| AuthForm.ValidateField | frontend/src/pages/Auth.jsx:23-68 | per field: the "required" message iff empty, "" iff the field's pattern or rule holds, the other message otherwise; password and confirmation only at sign-up; other fields "" |
| AuthForm.BlankNameAccepted | frontend/src/pages/Auth.jsx:21-32 | a white-space-only name is accepted |
| AuthForm.EmailOkIsPattern | frontend/src/pages/Auth.jsx:20-40 | the computed check (no white space, one `@` with text before it, an inner `.` after it) agrees with the regular expression on every string |
| AuthForm.SignupErrors | frontend/src/pages/Auth.jsx:91-99 | exactly the fields whose message is non-empty, with that message |
| AuthForm.SignupErrorsEmpty | frontend/src/pages/Auth.jsx:91-105 | no errors iff the name and email match, the password meets the rules and the confirmation repeats it |
| AuthForm.Auth.constructor | frontend/src/pages/Auth.jsx:8-18 | login mode, an empty form, no errors |
| AuthForm.Auth.HandleChange | frontend/src/pages/Auth.jsx:79-81 | the named field takes the value |
| AuthForm.Auth.HandleBlur | frontend/src/pages/Auth.jsx:70-77 | the field's message, "" included, is recorded |
| AuthForm.ErrorsOver | frontend/src/pages/Auth.jsx:92-99 | after the `forEach` has visited some fields, the map holds exactly the visited fields whose message is non-empty, with that message |
| AuthForm.Auth.CollectSignupErrors | frontend/src/pages/Auth.jsx:92-99 | the `forEach` builds the sign-up error map |
| AuthForm.Auth.HandleSubmit | frontend/src/pages/Auth.jsx:84-125 | at sign-up, errors are shown and nothing is sent; login sends the trimmed email, sign-up the trimmed name and email; the password is never trimmed |
| AuthForm.Auth.ToggleMode | frontend/src/pages/Auth.jsx:300-301 | the mode flips and the errors are cleared |
| AuthForm.Auth.OnRegistered | frontend/src/pages/Auth.jsx:128 | a successful registration switches to login mode |

## Left out

- Executing the Elasticsearch query is not modelled: scoring, fuzziness, `minimum_should_match`, synonym expansion, stemming and sorting. The request and the schema are produced as data, and the search answer is an input.
- MySQL is not modelled beyond the slice it returns. The table is one sequence, and the model computes the `LIMIT`/`OFFSET` slice of it; a failed query is an input flag. A negative `LIMIT` or `OFFSET` is modelled as a failed query, which is what the database does with one.
- The category listing's query has no `ORDER BY`. The model assumes one stored order and one snapshot of the table, shared by every page request and by the `COUNT(*)`. `CategoryListing.LimitOffset`, `CategoryListing.PagesArePrefix` and `CategoryListing.AllPagesListTable` rely on this; the database may return another order, or the table may change between requests.
- The check-then-create race on the index is left out, because it is a concurrency concern.
- `parseFloat` of the price column is kept as an uninterpreted term (`SearchIndex.FloatOf`), because it is floating point.
- `encodeURIComponent` and the router's decoding are not modelled as functions. Front-end locations hold decoded parameters. The request fix is stated for any `encode`/`decode` pair that round-trips and never writes `&` or `#`.
- The server's `req.query` is parsed without percent-decoding or `+` handling, and only the first value of a repeated key is kept. So the unencoded search of `AllProducts.jsx` is shown to break at `&` and `#` but not at `+`: Express reads the search "c++" as "c" followed by two spaces, which the model does not show.
- SearchIndex.Cluster.Bulk: a bulk call that returns is taken to apply every item. Elasticsearch can return normally with some items rejected (`errors: true`), for instance documents that do not fit the mapping of an index kept from before. Neither `server.js:103-104` nor `syncProducts.js:31-33` reads that flag, and the model does not have per-item rejection.
- SearchIndex.SetupSyncsEveryProduct: "every product gets its document" holds only under that all-items assumption; per-item rejections are not modelled.
- `toLowerCase` and the regular expressions are modelled over ASCII letters. Unicode case folding is left out.
- Integers are unbounded. The loss of `parseInt` precision above 2^53 is not modelled.
- React rendering, toasts, `localStorage`, `window.scrollTo`, the scroll listener's registration, the loading flags and async timing are left out. Handlers are state transitions, and a navigation sets the location the effects then read.
- The submit's network calls are outcomes, not calls: `SendLogin` and `SendRegister`. Token storage and the error toasts are not modelled.
- The `Navbar` login state, logout and the Back button are left out, because they are UI plumbing around `localStorage`.
- `authController.js` is not part of this model: hashing, token signing and SQL lookups are foreign calls.
- `App.jsx`, `api.js`, `ProductCard.jsx` and the Vite configuration are not part of this model. They hold routing, an HTTP client and markup.
- CategoryCard.CardPathParts: stated for slugs without `?`, `/` or `#`. `CategoryCard.CardPathCutAtFragment` covers a `#`; a `?` or `/` in a category name, which the slug keeps, is not covered.
- CategoryProducts.CardOpensFirstPage: stated for slugs without `?`, with `CategoryProducts.CardFragmentOpensFirstPage` for a `#`. A `?` in a category name moves the rest of the route into the query, and a `page=` there would be read as the page; that case is not covered.
- CategoryProducts.FetchQuery: stated, like `FetchReadBack` and `FetchAsksForPage`, for a route id without `&` or `#`. The id comes from the router's decoded path segment, which is not modelled.
- The HTTP response plumbing and logging are left out, beyond the status and message outcomes.

## Findings

| source | as written | input that shows it | evidently intended | confidence | as-written member | corrected member |
|---|---|---|---|---|---|---|
| frontend/src/pages/AllProducts.jsx:38-40 | the search text is put into the request URL unencoded | search "home & kitchen": the server reads the search "home " and a stray parameter " kitchen" | the text encoded, as the navigation bar does before it navigates to this page | not executed | AllProducts.SearchCutAtAmpersand | AllProducts.EncodedSearchReadBack |
| frontend/src/pages/AllProducts.jsx:38-40 | the unencoded search text may hold `#`, which starts the URL's fragment | search "c# books": the browser sends only `search=c`, and the server searches for "c" | the text encoded, so that `#` is sent as `%23` | not executed | AllProducts.SearchCutAtFragment | AllProducts.EncodedSearchReadBack |
