/** Router locations and query strings.  A location the client navigates to
    is kept with its query parameters already decoded (what
    `URLSearchParams.get` returns); a request URL built by string
    interpolation is kept as the string itself.  The browser sends it only
    up to its first `#`, and the server reads what is sent by splitting at
    `?`, `&` and the first `=` of each piece. */
module Locations {
  import opened Wrappers
  import opened JsText

  /** One decoded query parameter. */
  datatype Param = Param(key: string, value: string)

  /** A router location: the path name and the query parameters in order. */
  datatype Location = Location(path: string, query: seq<Param>)

  /** `URLSearchParams.get(key)` and `req.query.key`: the value of the first
      parameter with that key, `None` when there is none. */
  function Get(query: seq<Param>, key: string): (r: Option<string>)
    ensures r.None? <==> forall i :: 0 <= i < |query| ==> query[i].key != key
    ensures r.Some? ==> exists i :: 0 <= i < |query| && query[i] == Param(key, r.value)
                                 && forall j :: 0 <= j < i ==> query[j].key != key
  {
    if query == [] then None
    else if query[0].key == key then Some(query[0].value)
    else Get(query[1..], key)
  }

  /** `key=value` pieces joined by `&`, as a template string writes them,
      without any encoding. */
  function RenderQuery(query: seq<Param>): string {
    Join(RenderPieces(query), "&")
  }

  function RenderPieces(query: seq<Param>): (r: seq<string>)
    ensures |r| == |query|
    ensures forall i :: 0 <= i < |r| ==> r[i] == query[i].key + "=" + query[i].value
  {
    if query == [] then [] else [query[0].key + "=" + query[0].value] + RenderPieces(query[1..])
  }

  /** One `&`-separated piece: the key up to the first `=`, the value after
      it ("" when there is no `=`). */
  function ParsePiece(piece: string): Param {
    var parts := SplitOn(piece, '=');
    Param(parts[0], Join(parts[1..], "="))
  }

  function ParsePieces(pieces: seq<string>): (r: seq<Param>)
    ensures |r| == |pieces|
    ensures forall i :: 0 <= i < |r| ==> r[i] == ParsePiece(pieces[i])
  {
    if pieces == [] then [] else [ParsePiece(pieces[0])] + ParsePieces(pieces[1..])
  }

  /** The server's reading of a raw query string. */
  function ParseQuery(s: string): seq<Param> {
    ParsePieces(SplitOn(s, '&'))
  }

  /** What a URL sends: everything before its first `#`.  The fragment after
      it stays in the browser, out of both the path and the query. */
  function BeforeFragment(url: string): (r: string)
    ensures '#' !in r
  {
    SplitOn(url, '#')[0]
  }

  /** The path the router matches: what is sent, up to the first `?`. */
  function PathPart(url: string): string {
    SplitOn(BeforeFragment(url), '?')[0]
  }

  /** The query string of a request URL: what is sent, after the first `?`. */
  function QueryPart(url: string): string {
    Join(SplitOn(BeforeFragment(url), '?')[1..], "?")
  }

  /** The parameters the server reads from a request URL. */
  function RequestQuery(url: string): seq<Param> {
    ParseQuery(QueryPart(url))
  }

  /** A key that holds no `=` and a value that holds no `&` are what the
      server reads back from their piece. */
  lemma ParsePieceOfRendered(key: string, value: string)
    requires '=' !in key && '&' !in value
    ensures ParsePiece(key + "=" + value) == Param(key, value)
  {
    SplitOnAt(key, value, '=');
    assert key + "=" + value == key + ['='] + value;
    var rest := SplitOn(value, '=');
    JoinSplitOn(value, '=');
    assert ([key] + rest)[1..] == rest;
  }

  /** Rendering and then parsing gives back the parameters, provided no key
      holds `=` or `&` and no value holds `&`. */
  lemma ParseRenderedQuery(query: seq<Param>)
    requires |query| >= 1
    requires forall i :: 0 <= i < |query| ==> '=' !in query[i].key && '&' !in query[i].key && '&' !in query[i].value
    ensures ParseQuery(RenderQuery(query)) == query
  {
    var pieces := RenderPieces(query);
    forall k | 0 <= k < |pieces| ensures '&' !in pieces[k] {
      assert pieces[k] == query[k].key + "=" + query[k].value;
    }
    SplitOnJoin(pieces, '&');
    assert RenderQuery(query) == Join(pieces, ['&']);
    forall i | 0 <= i < |query| ensures ParsePiece(pieces[i]) == query[i] {
      ParsePieceOfRendered(query[i].key, query[i].value);
    }
  }

  /** A URL without `#` is sent whole. */
  lemma BeforeFragmentWhole(url: string)
    requires '#' !in url
    ensures BeforeFragment(url) == url
  {
    SplitOnWithout(url, '#');
  }

  /** A `#` after a prefix without one cuts the URL there. */
  lemma BeforeFragmentAt(a: string, b: string)
    requires '#' !in a
    ensures BeforeFragment(a + "#" + b) == a
  {
    SplitOnAt(a, b, '#');
    assert a + "#" + b == a + ['#'] + b;
  }

  /** A URL `path?query` with no `?` or `#` in the path sends the query up to
      its first `#`. */
  lemma QueryPartOf(path: string, query: string)
    requires '?' !in path && '#' !in path
    ensures QueryPart(path + "?" + query) == BeforeFragment(query)
  {
    var q := BeforeFragment(query);
    SplitOnFirst(path + "?", query, '#');
    assert path + "?" + query == (path + "?") + query;
    assert BeforeFragment(path + "?" + query) == path + ['?'] + q;
    SplitOnAt(path, q, '?');
    JoinSplitOn(q, '?');
    assert ([path] + SplitOn(q, '?'))[1..] == SplitOn(q, '?');
  }

  /** `parseInt(searchParams.get("page")) || 1`, as every listing page reads
      its current page. */
  function PageFromUrl(query: seq<Param>): int {
    OrDefault(ParseParam(Get(query, "page")), 1)
  }

  /** A missing or unparsable page, or page 0, is page 1; a rendered
      non-zero page reads back as itself. */
  lemma PageFromUrlDefaults(query: seq<Param>)
    ensures Get(query, "page").None? ==> PageFromUrl(query) == 1
    ensures Get(query, "page").Some? && ParseInt(Get(query, "page").value).None? ==> PageFromUrl(query) == 1
    ensures forall k :: k != 0 && Get(query, "page") == Some(IntToString(k)) ==> PageFromUrl(query) == k
  {
    forall k | k != 0 && Get(query, "page") == Some(IntToString(k)) ensures PageFromUrl(query) == k {
      ParseIntOfIntToString(k);
    }
  }

  /** A rendered number holds no `&`, `=`, `?` or `#`, so it can stand
      anywhere in a query string. */
  lemma NumberIsTransparent(k: int)
    ensures '&' !in IntToString(k) && '=' !in IntToString(k) && '?' !in IntToString(k)
    ensures '#' !in IntToString(k)
  {
    var n := NatToString(if k < 0 then -k else k);
    assert forall i :: 0 <= i < |n| ==> IsDigit(n[i]);
  }
}
