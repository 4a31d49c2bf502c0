/** The search-query compiler behind GET /api/products: it reads the raw
    query parameters, pulls a price bound out of the text, infers at most one
    category from the category/synonym vocabulary and assembles one
    Elasticsearch bool query.  The vocabulary rows and the search backend's
    answer are inputs; executing the query is not modelled. */
module SearchQuery {
  import opened Wrappers
  import opened JsText
  import SearchIndex

  /** The query-string parameters; an absent parameter is `None`. */
  datatype SearchParams = SearchParams(
    page: Option<string>, limit: Option<string>, search: Option<string>,
    catid: Option<string>, sort: Option<string>)

  /** A row of the categories/synonyms join; `synonym` is `None` for SQL NULL. */
  datatype CategoryRow = CategoryRow(catid: nat, catname: string, synonym: Option<string>)

  /** A price bound: `range: {price: {lte}}` or `range: {price: {gte}}`. */
  datatype PriceRange = AtMost(lte: int) | AtLeast(gte: int)

  /** A `must` clause. */
  datatype Clause =
    | MultiMatch(query: string, fields: seq<string>, fuzziness: string, minimumShouldMatch: string)
    | MatchAll

  /** A `filter` clause; `CatidTerm(None)` is `term: {catid: NaN}`. */
  datatype Filter = CatidTerm(catid: Option<int>) | PriceFilter(range: PriceRange)

  datatype SortDir = Asc | Desc

  /** The request sent to `client.search`; `sort` is the direction on `price`,
      `None` when the option is left undefined. */
  datatype EsSearch = EsSearch(
    index: string, from: int, size: int, sort: Option<SortDir>,
    must: seq<Clause>, filter: seq<Filter>)

  const DefaultPage := 1
  const DefaultLimit := 8
  const SearchFields: seq<string> := ["proname^4", "description^2"]

  // ---------------------------------------------------------------------
  // Price extraction

  /** `/^\d+$/`. */
  predicate AllDigits(s: string) {
    s != [] && forall i :: 0 <= i < |s| ==> IsDigit(s[i])
  }

  /** `word\s\d` starts at position `p`. */
  predicate PatternAt(s: string, word: string, p: nat) {
    p + |word| + 2 <= |s| && s[p..p + |word|] == word
    && IsSpace(s[p + |word|]) && IsDigit(s[p + |word| + 1])
  }

  /** A match of `word\s(\d+)`: where it starts and ends, and the captured number. */
  datatype PatternMatch = PatternMatch(start: nat, end: nat, value: nat)

  /** The leftmost match of `word\s(\d+)` at or after `from`, with the digit
      run taken greedily, as `String.prototype.match` finds it. */
  function FindPattern(s: string, word: string, from: nat): (r: Option<PatternMatch>)
    ensures r.None? ==> forall p :: from <= p ==> !PatternAt(s, word, p)
    ensures r.Some? ==>
      var m := r.value;
      from <= m.start && PatternAt(s, word, m.start)
      && (forall p :: from <= p < m.start ==> !PatternAt(s, word, p))
      && m.start + |word| + 1 < m.end <= |s|
      && AllDigits(s[m.start + |word| + 1..m.end])
      && (m.end < |s| ==> !IsDigit(s[m.end]))
      && m.value == DigitsValue(s[m.start + |word| + 1..m.end], 10)
    decreases |s| - from
  {
    if from + |word| + 2 > |s| then None
    else if PatternAt(s, word, from) then Some(MatchAt(s, word, from))
    else FindPattern(s, word, from + 1)
  }

  /** The match starting at `p`: the digit run after `word` and the space,
      taken greedily. */
  function MatchAt(s: string, word: string, p: nat): (m: PatternMatch)
    requires PatternAt(s, word, p)
    ensures m.start == p && p + |word| + 1 < m.end <= |s|
    ensures AllDigits(s[p + |word| + 1..m.end])
    ensures m.end < |s| ==> !IsDigit(s[m.end])
    ensures m.value == DigitsValue(s[p + |word| + 1..m.end], 10)
  {
    var d := PrefixWhile(s[p + |word| + 1..], IsDigit);
    assert s[p + |word| + 1..p + |word| + 1 + |d|] == d;
    PatternMatch(p, p + |word| + 1 + |d|, DigitsValue(d, 10))
  }

  /** `s.replace(/word\s\d+/, "")`: the first match, if any, is cut out.
      The text before it is kept in place and the text after it moves up by
      the match's length. */
  function ReplaceFirst(s: string, word: string): (r: string)
    ensures FindPattern(s, word, 0).None? ==> r == s
    ensures FindPattern(s, word, 0).Some? ==>
      var m := FindPattern(s, word, 0).value;
      |r| == |s| - (m.end - m.start)
      && (forall i :: 0 <= i < m.start ==> r[i] == s[i])
      && (forall i :: m.start <= i < |r| ==> r[i] == s[i + (m.end - m.start)])
  {
    match FindPattern(s, word, 0)
    case None => s
    case Some(m) => s[..m.start] + s[m.end..]
  }

  /** A match that lies wholly before a cut `[b, e)` is still a match once
      the cut is made. */
  lemma PatternBeforeCut(s: string, t: string, word: string, b: nat, e: nat, p: nat)
    requires p + |word| + 2 <= b <= e <= |s| && PatternAt(s, word, p) && t == s[..b] + s[e..]
    ensures PatternAt(t, word, p)
  {
    PatternInSlice(s, s[..b], word, p, 0, b);
    PatternExtendRight(s[..b], s[e..], word, p);
  }

  /** A match that lies wholly after a cut `[b, e)` is still a match once the
      cut is made, moved up by the cut's length. */
  lemma PatternAfterCut(s: string, t: string, word: string, b: nat, e: nat, p: nat)
    requires b <= e <= p && PatternAt(s, word, p) && t == s[..b] + s[e..]
    ensures PatternAt(t, word, p - (e - b))
  {
    PatternInSlice(s, s[e..], word, p, e, |s|);
    PatternExtendLeft(s[..b], s[e..], word, p - e);
  }

  /** A match stays a match when text is appended. */
  lemma PatternExtendRight(u: string, v: string, word: string, q: nat)
    requires PatternAt(u, word, q)
    ensures PatternAt(u + v, word, q)
  {
    assert (u + v)[q..q + |word| + 2] == u[q..q + |word| + 2];
    PatternAtWindow(u, u + v, word, q, q);
  }

  /** A match stays a match, shifted, when text is prepended. */
  lemma PatternExtendLeft(u: string, v: string, word: string, q: nat)
    requires PatternAt(v, word, q)
    ensures PatternAt(u + v, word, |u| + q)
  {
    assert (u + v)[|u| + q..|u| + q + |word| + 2] == v[q..q + |word| + 2];
    PatternAtWindow(v, u + v, word, q, |u| + q);
  }

  /** Only the first match is cut: every later match of the word is still a
      match in what is left, moved up by the length of the cut. */
  lemma ReplaceFirstKeepsLaterMatches(s: string, word: string, p: nat)
    requires FindPattern(s, word, 0).Some? && PatternAt(s, word, p)
    requires p >= FindPattern(s, word, 0).value.end
    ensures var m := FindPattern(s, word, 0).value;
      PatternAt(ReplaceFirst(s, word), word, p - (m.end - m.start))
  {
    var m := FindPattern(s, word, 0).value;
    ReplaceFirstIsCut(s, word);
    PatternAfterCut(s, ReplaceFirst(s, word), word, m.start, m.end, p);
  }

  lemma ReplaceFirstIsCut(s: string, word: string)
    requires FindPattern(s, word, 0).Some?
    ensures var m := FindPattern(s, word, 0).value;
      ReplaceFirst(s, word) == s[..m.start] + s[m.end..]
  {
  }

  /** `trim` keeps every match of a word that starts with a non-space
      character. */
  lemma PatternAtTrim(s: string, word: string, p: nat)
    requires PatternAt(s, word, p) && |word| > 0 && !IsSpace(word[0])
    ensures exists q: nat :: PatternAt(Trim(s), word, q)
  {
    assert !IsSpace(s[p]) by {
      assert s[p..p + |word|][0] == s[p];
    }
    assert !IsSpace(s[p + |word| + 1]);
    var r := Trim(s);
    var i := TrimSlice(s);
    NonSpaceInside(s, i, i + |r|, p);
    NonSpaceInside(s, i, i + |r|, p + |word| + 1);
    PatternInSlice(s, r, word, p, i, i + |r|);
  }

  /** A non-space character lies between a leading and a trailing run of
      white space. */
  lemma NonSpaceInside(s: string, i: nat, j: nat, k: nat)
    requires i <= j <= |s| && AllSpace(s[..i]) && AllSpace(s[j..])
    requires k < |s| && !IsSpace(s[k])
    ensures i <= k < j
  {
  }

  /** A match inside a slice is a match of the slice. */
  lemma PatternInSlice(s: string, t: string, word: string, p: nat, i: nat, j: nat)
    requires PatternAt(s, word, p) && i <= p && p + |word| + 2 <= j <= |s| && t == s[i..j]
    ensures PatternAt(t, word, p - i)
  {
    RangeOfSlice(s, i, j, p, p + |word| + 2);
    PatternAtWindow(s, t, word, p, p - i);
  }

  /** A match depends only on the `|word| + 2` characters it starts. */
  lemma PatternAtWindow(s: string, t: string, word: string, p: nat, q: nat)
    requires PatternAt(s, word, p) && q + |word| + 2 <= |t|
    requires t[q..q + |word| + 2] == s[p..p + |word| + 2]
    ensures PatternAt(t, word, q)
  {
    var w := s[p..p + |word| + 2];
    assert t[q..q + |word|] == w[..|word|] == s[p..p + |word|];
    assert t[q + |word|] == w[|word|] == s[p + |word|];
    assert t[q + |word| + 1] == w[|word| + 1] == s[p + |word| + 1];
  }

  /** A stretch of a slice is the same stretch of the whole, shifted. */
  lemma RangeOfSlice(s: string, i: nat, j: nat, b: nat, e: nat)
    requires i <= b <= e <= j <= |s|
    ensures s[i..j][b - i..e - i] == s[b..e]
  {
    assert forall k :: 0 <= k < e - b ==> s[i..j][b - i..e - i][k] == s[b..e][k];
  }

  /** A match of "under" and a match of "above" never overlap: "above N"
      lies wholly before the "under N" match or after its digit run. */
  lemma UnderAboveApart(s: string, u: PatternMatch, a: nat)
    requires PatternAt(s, "under", u.start) && u.start + 6 < u.end <= |s|
    requires AllDigits(s[u.start + 6..u.end])
    requires PatternAt(s, "above", a)
    ensures a + 7 <= u.start || u.end <= a
  {
    assert s[a..a + 5][0] == s[a];
    assert s[u.start..u.start + 5][0] == s[u.start];
  }

  /** The price bound found in the text and the text left for the rest. */
  datatype PriceIntent = PriceIntent(range: Option<PriceRange>, text: string)

  /** Lines 14-38 of the controller on the lower-cased, trimmed text: a
      digits-only text becomes an upper bound and is emptied; then "under N"
      and "above N" are both looked for in that text, each one found sets the
      bound and has its first occurrence cut out (the above-cut acts on the
      text left by the under-cut), and "above" is applied last. */
  function ExtractPrice(clean: string): PriceIntent {
    var digitsOnly := AllDigits(clean);
    var range0 := if digitsOnly then Some(AtMost(DigitsValue(clean, 10))) else None;
    var text0 := if digitsOnly then "" else clean;
    var under := FindPattern(text0, "under", 0);
    var above := FindPattern(text0, "above", 0);
    var range1 := if under.Some? then Some(AtMost(under.value.value)) else range0;
    var text1 := if under.Some? then Trim(ReplaceFirst(text0, "under")) else text0;
    var range2 := if above.Some? then Some(AtLeast(above.value.value)) else range1;
    var text2 := if above.Some? then Trim(ReplaceFirst(text1, "above")) else text1;
    PriceIntent(range2, text2)
  }

  /** A digits-only text is an upper bound on its value, leaves no text, and
      neither the under- nor the above-pattern fires. */
  lemma DigitsOnlyIsUpperBound(clean: string)
    requires AllDigits(clean)
    ensures ExtractPrice(clean) == PriceIntent(Some(AtMost(DigitsValue(clean, 10))), "")
  {
    assert FindPattern("", "under", 0).None?;
    assert FindPattern("", "above", 0).None?;
  }

  /** The pattern words cannot occur inside a run of digits. */
  lemma NoPatternInDigits(s: string, word: string, p: nat)
    requires AllDigits(s) && |word| > 0 && !IsDigit(word[0])
    ensures !PatternAt(s, word, p)
  {
    if p + |word| + 2 <= |s| {
      assert s[p..p + |word|][0] == s[p];
    }
  }

  /** A pattern word whose first letter does not occur in the text cannot
      match. */
  lemma NoPatternWithoutFirst(s: string, word: string, p: nat)
    requires |word| > 0 && word[0] !in s
    ensures !PatternAt(s, word, p)
  {
    if p + |word| + 2 <= |s| {
      assert s[p..p + |word|][0] == s[p];
      assert s[p] in s;
    }
  }

  /** Which bound the extractor reports: "above" wins over "under" and over a
      digits-only text, "under" wins over a digits-only text, and there is
      never more than one bound.  The bounds come from the FIRST occurrence of
      each pattern in the text. */
  lemma PriceBoundChoice(clean: string)
    ensures var r := ExtractPrice(clean);
      var under := FindPattern(clean, "under", 0);
      var above := FindPattern(clean, "above", 0);
      (above.Some? ==> r.range == Some(AtLeast(above.value.value)))
      && (above.None? && under.Some? ==> r.range == Some(AtMost(under.value.value)))
      && (above.None? && under.None? ==>
            r.range == (if AllDigits(clean) then Some(AtMost(DigitsValue(clean, 10))) else None))
      && (above.None? && under.None? && !AllDigits(clean) ==> r.text == clean)
  {
    if AllDigits(clean) {
      forall p: nat ensures !PatternAt(clean, "under", p) && !PatternAt(clean, "above", p) {
        NoPatternInDigits(clean, "under", p);
        NoPatternInDigits(clean, "above", p);
      }
    }
  }

  /** The text the extractor leaves: each phrase found is cut at its first
      occurrence and the rest trimmed; when both are found, the above-cut acts
      on the text left by the under-cut, where "above N" is still found. */
  lemma PriceTextCut(clean: string)
    requires !AllDigits(clean)
    ensures var r := ExtractPrice(clean);
      var under := FindPattern(clean, "under", 0);
      var above := FindPattern(clean, "above", 0);
      (under.Some? && above.None? ==>
         r.text == Trim(clean[..under.value.start] + clean[under.value.end..]))
      && (under.None? && above.Some? ==>
         r.text == Trim(clean[..above.value.start] + clean[above.value.end..]))
      && (under.Some? && above.Some? ==>
         var left := Trim(clean[..under.value.start] + clean[under.value.end..]);
         FindPattern(left, "above", 0).Some?
         && r.text == Trim(left[..FindPattern(left, "above", 0).value.start]
                           + left[FindPattern(left, "above", 0).value.end..]))
  {
    var under := FindPattern(clean, "under", 0);
    var above := FindPattern(clean, "above", 0);
    if under.Some? && above.Some? {
      AboveSurvivesUnderCut(clean);
    }
  }

  /** When both phrases are found, "above N" is still found after the
      under-cut and the trim. */
  lemma AboveSurvivesUnderCut(clean: string)
    requires FindPattern(clean, "under", 0).Some? && FindPattern(clean, "above", 0).Some?
    ensures FindPattern(Trim(ReplaceFirst(clean, "under")), "above", 0).Some?
  {
    var u := FindPattern(clean, "under", 0).value;
    ReplaceFirstIsCut(clean, "under");
    AboveSurvivesCut(clean, u, FindPattern(clean, "above", 0).value.start);
  }

  lemma AboveSurvivesCut(s: string, u: PatternMatch, a: nat)
    requires PatternAt(s, "under", u.start) && u.start + 6 < u.end <= |s|
    requires AllDigits(s[u.start + 6..u.end])
    requires PatternAt(s, "above", a)
    ensures exists q: nat :: PatternAt(Trim(s[..u.start] + s[u.end..]), "above", q)
  {
    var c := s[..u.start] + s[u.end..];
    UnderAboveApart(s, u, a);
    if u.end <= a {
      PatternAfterCut(s, c, "above", u.start, u.end, a);
      PatternAtTrim(c, "above", a - (u.end - u.start));
    } else {
      PatternBeforeCut(s, c, "above", u.start, u.end, a);
      PatternAtTrim(c, "above", a);
    }
  }

  /** "under N" has no word boundary: "thunder 5" gives an upper bound of 5
      and leaves "th". */
  lemma UnderMatchesInsideWords()
    ensures ExtractPrice("thunder 5") == PriceIntent(Some(AtMost(5)), "th")
  {
    UnderInThunder();
    NoAboveInThunder();
    assert ReplaceFirst("thunder 5", "under") == "th";
    TrimOfTh();
  }

  lemma TrimOfTh()
    ensures Trim("th") == "th"
  {
    assert TrimStart("th") == "th";
    assert TrimEnd("th") == "th";
  }

  lemma UnderInThunder()
    ensures FindPattern("thunder 5", "under", 0) == Some(PatternMatch(2, 9, 5))
  {
    var s := "thunder 5";
    assert !PatternAt(s, "under", 0) && !PatternAt(s, "under", 1);
    assert PatternAt(s, "under", 2);
    assert PrefixWhile("5", IsDigit) == "5";
    assert DigitsValue("5", 10) == 5;
  }

  lemma NoAboveInThunder()
    ensures FindPattern("thunder 5", "above", 0).None?
  {
    var s := "thunder 5";
    assert 'a' !in s;
    forall p: nat ensures !PatternAt(s, "above", p) {
      NoPatternWithoutFirst(s, "above", p);
    }
  }

  /** "under N" needs exactly one white-space character before the digits:
      "under  5" sets no bound and keeps its text. */
  lemma UnderNeedsOneSpace()
    ensures ExtractPrice("under  5") == PriceIntent(None, "under  5")
  {
    var t := "under  5";
    forall p: nat ensures !PatternAt(t, "under", p) {
      if p + 7 <= |t| {
        assert t[p..p + 5][0] == t[p];
      }
    }
    assert 'a' !in t;
    forall p: nat ensures !PatternAt(t, "above", p) {
      NoPatternWithoutFirst(t, "above", p);
    }
  }

  // ---------------------------------------------------------------------
  // Normalisation

  /** `.replace(/&/g, " ")`. */
  function AmpToSpace(s: string): string {
    if s == [] then [] else [if s[0] == '&' then ' ' else s[0]] + AmpToSpace(s[1..])
  }

  /** `.replace(/and/g, " ")`: left to right, non-overlapping. */
  function AndToSpace(s: string): string {
    if |s| >= 3 && s[..3] == "and" then " " + AndToSpace(s[3..])
    else if s == [] then []
    else [s[0]] + AndToSpace(s[1..])
  }

  predicate Kept(c: char) { IsAsciiLower(c) || IsDigit(c) || IsSpace(c) }

  /** `.replace(/[^a-z0-9\s]/g, "")`. */
  function StripDisallowed(s: string): (r: string)
    ensures forall i :: 0 <= i < |r| ==> Kept(r[i])
    ensures |r| <= |s|
  {
    if s == [] then [] else (if Kept(s[0]) then [s[0]] else []) + StripDisallowed(s[1..])
  }

  /** The stripping keeps the order: the pieces of a text are stripped on
      their own (and `StripDisallowedOne` says what each character gives). */
  lemma {:induction false} StripDisallowedAppend(a: string, b: string)
    ensures StripDisallowed(a + b) == StripDisallowed(a) + StripDisallowed(b)
  {
    if a == [] {
      assert a + b == b;
    } else {
      var h := if Kept(a[0]) then [a[0]] else [];
      var x, y := StripDisallowed(a[1..]), StripDisallowed(b);
      ConsOfAppend(a, b);
      assert StripDisallowed(a + b) == h + StripDisallowed(a[1..] + b);
      assert StripDisallowed(a) == h + x;
      StripDisallowedAppend(a[1..], b);
      assert h + (x + y) == (h + x) + y;
    }
  }

  /** A kept character stays, any other goes. */
  lemma StripDisallowedOne(c: char)
    ensures StripDisallowed([c]) == (if Kept(c) then [c] else [])
  {
    assert [c][1..] == [];
  }

  /** `normalize` of the controller: lower-case, `&` and every "and" to a
      space, drop everything but a-z, 0-9 and white space, trim. */
  function Normalize(text: string): string {
    Trim(StripDisallowed(AndToSpace(AmpToSpace(LowerAll(text)))))
  }

  /** A normalised text holds only a-z, 0-9 and white space, and neither
      starts nor ends with white space. */
  lemma NormalizedForm(text: string)
    ensures var r := Normalize(text);
      (forall i :: 0 <= i < |r| ==> Kept(r[i]))
      && (r == [] || (!IsSpace(r[0]) && !IsSpace(r[|r| - 1])))
  {
    var t := StripDisallowed(AndToSpace(AmpToSpace(LowerAll(text))));
    assert Normalize(text) == Trim(t);
    TrimSpec(t);
    TrimKeepsKept(t);
  }

  lemma TrimKeepsKept(t: string)
    requires forall i :: 0 <= i < |t| ==> Kept(t[i])
    ensures forall i :: 0 <= i < |Trim(t)| ==> Kept(Trim(t)[i])
  {
    TrimSpec(t);
    var r := Trim(t);
    var i :| 0 <= i <= i + |r| <= |t| && r == t[i..i + |r|] && AllSpace(t[..i]) && AllSpace(t[i + |r|..]);
    assert forall k :: 0 <= k < |r| ==> r[k] == t[i + k];
  }

  /** The words of a normalised text: `normalize(t).split(/\s+/)`.  They are
      never empty, except that an empty text gives the single word "". */
  lemma NormalizedWords(text: string)
    ensures Normalize(text) == "" ==> SplitWs(Normalize(text)) == [""]
    ensures Normalize(text) != "" ==>
      forall k :: 0 <= k < |SplitWs(Normalize(text))| ==> SplitWs(Normalize(text))[k] != ""
  {
    NormalizedForm(text);
    SplitTrimmed(Normalize(text));
  }

  /** `normalize` is not idempotent: stripping runs after the "and"
      replacement, so "a-nd" normalises to "and", which normalises to "". */
  lemma NormalizeNotIdempotent()
    ensures Normalize("a-nd") == "and"
    ensures Normalize("and") == ""
  {
    NormalizeOfDashedAnd();
    NormalizeOfAnd();
  }

  lemma NormalizeOfDashedAnd()
    ensures Normalize("a-nd") == "and"
  {
    PipelineOfDashedAnd();
    TrimOfAnd();
  }

  lemma TrimOfAnd()
    ensures Trim("and") == "and"
  {
    assert TrimStart("and") == "and";
    assert TrimEnd("and") == "and";
  }

  lemma NormalizeOfAnd()
    ensures Normalize("and") == ""
  {
    PipelineOfAnd();
    assert TrimStart(" ") == "";
    assert TrimEnd("") == "";
  }

  lemma PipelineOfDashedAnd()
    ensures StripDisallowed(AndToSpace(AmpToSpace(LowerAll("a-nd")))) == "and"
  {
    LowerAllFixed("a-nd");
    AmpToSpaceFixed("a-nd");
    AndOfDashedAnd();
    StripOfDashedAnd();
  }

  lemma AndOfDashedAnd()
    ensures AndToSpace("a-nd") == "a-nd"
  {
    assert "a-nd"[..3][1] != "and"[1];
    assert "a-nd"[1..] == "-nd";
    AndToSpaceFixed("-nd");
  }

  lemma StripOfDashedAnd()
    ensures StripDisallowed("a-nd") == "and"
  {
    assert "a-nd"[1..] == "-nd" && "-nd"[1..] == "nd";
    StripDisallowedFixed("nd");
  }

  lemma PipelineOfAnd()
    ensures StripDisallowed(AndToSpace(AmpToSpace(LowerAll("and")))) == " "
  {
    LowerAllFixed("and");
    AmpToSpaceFixed("and");
    assert "and"[..3] == "and" && "and"[3..] == [];
    assert AndToSpace("and") == " ";
    assert StripDisallowed(" ") == " ";
  }

  /** A string with no `&` is left alone by the `&` replacement. */
  lemma {:induction false} AmpToSpaceFixed(s: string)
    requires '&' !in s
    ensures AmpToSpace(s) == s
  {
    if s != [] {
      assert '&' !in s[1..] by { assert forall c :: c in s[1..] ==> c in s; }
      AmpToSpaceFixed(s[1..]);
    }
  }

  /** A string with no `a` holds no "and" to replace. */
  lemma {:induction false} AndToSpaceFixed(s: string)
    requires 'a' !in s
    ensures AndToSpace(s) == s
  {
    if s != [] {
      assert s[0] != 'a';
      assert |s| >= 3 ==> s[..3][0] != "and"[0];
      assert 'a' !in s[1..] by { assert forall c :: c in s[1..] ==> c in s; }
      AndToSpaceFixed(s[1..]);
    }
  }

  /** A string of kept characters only is left alone by the stripping. */
  lemma {:induction false} StripDisallowedFixed(s: string)
    requires forall i :: 0 <= i < |s| ==> Kept(s[i])
    ensures StripDisallowed(s) == s
  {
    if s != [] {
      StripDisallowedFixed(s[1..]);
    }
  }

  /** "and" is removed inside words too: "Android" normalises to "roid". */
  lemma NormalizeStripsAndInsideWords()
    ensures Normalize("Android") == "roid"
  {
    PipelineOfAndroid();
    TrimOfRoid();
  }

  lemma TrimOfRoid()
    ensures Trim(" roid") == "roid"
  {
    assert TrimStart(" roid") == "roid";
    assert TrimEnd("roid") == "roid";
  }

  lemma PipelineOfAndroid()
    ensures StripDisallowed(AndToSpace(AmpToSpace(LowerAll("Android")))) == " roid"
  {
    LowerOfAndroid();
    AmpOfAndroid();
    AndOfAndroid();
    StripOfRoid();
  }

  lemma AmpOfAndroid()
    ensures AmpToSpace("android") == "android"
  {
    AmpToSpaceFixed("android");
  }

  lemma StripOfRoid()
    ensures StripDisallowed(" roid") == " roid"
  {
    StripDisallowedFixed(" roid");
  }

  lemma LowerOfAndroid()
    ensures LowerAll("Android") == "android"
  {
    assert "Android"[1..] == "ndroid";
    LowerAllFixed("ndroid");
    assert ['a'] + "ndroid" == "android";
  }

  lemma AndOfAndroid()
    ensures AndToSpace("android") == " roid"
  {
    assert "android"[..3] == "and" && "android"[3..] == "roid";
    AndToSpaceFixed("roid");
  }

  // ---------------------------------------------------------------------
  // Vocabulary

  /** The words one row contributes: its normalised name, and its normalised
      synonym when the synonym is neither NULL nor "". */
  function RowWords(row: CategoryRow): seq<string> {
    [Normalize(row.catname)]
    + (if row.synonym.Some? && row.synonym.value != "" then [Normalize(row.synonym.value)] else [])
  }

  /** One step of the `forEach`: the row's words are appended to its
      category's entry, which is created when missing. */
  function AddRow(m: map<nat, seq<string>>, row: CategoryRow): map<nat, seq<string>> {
    m[row.catid := (if row.catid in m then m[row.catid] else []) + RowWords(row)]
  }

  /** `categoryMap` after the `forEach` over `rows`. */
  function GroupRows(rows: seq<CategoryRow>): map<nat, seq<string>>
  {
    if rows == [] then map[]
    else AddRow(GroupRows(rows[..|rows| - 1]), rows[|rows| - 1])
  }

  /** The words of category `id`, collected from the front. */
  function WordsOf(rows: seq<CategoryRow>, id: nat): seq<string> {
    if rows == [] then []
    else (if rows[0].catid == id then RowWords(rows[0]) else []) + WordsOf(rows[1..], id)
  }

  /** The map has one entry per category id occurring in the rows. */
  lemma GroupRowsKeys(rows: seq<CategoryRow>)
    ensures forall id :: id in GroupRows(rows) <==> exists i :: 0 <= i < |rows| && rows[i].catid == id
  {
    forall id ensures id in GroupRows(rows) <==> exists i :: 0 <= i < |rows| && rows[i].catid == id {
      GroupRowsHas(rows, id);
    }
  }

  /** Some row belongs to category `id`. */
  predicate HasCategory(rows: seq<CategoryRow>, id: nat) {
    exists i :: 0 <= i < |rows| && rows[i].catid == id
  }

  lemma {:induction false} GroupRowsHas(rows: seq<CategoryRow>, id: nat)
    ensures id in GroupRows(rows) <==> HasCategory(rows, id)
  {
    if rows != [] {
      var init, last := rows[..|rows| - 1], rows[|rows| - 1];
      GroupRowsHas(init, id);
      assert GroupRows(rows) == AddRow(GroupRows(init), last);
      HasCategorySnoc(rows, id);
    }
  }

  lemma HasCategorySnoc(rows: seq<CategoryRow>, id: nat)
    requires rows != []
    ensures HasCategory(rows, id) <==> HasCategory(rows[..|rows| - 1], id) || rows[|rows| - 1].catid == id
  {
    var init := rows[..|rows| - 1];
    if HasCategory(init, id) {
      var i :| 0 <= i < |init| && init[i].catid == id;
      assert rows[i].catid == id;
    }
    if HasCategory(rows, id) {
      var i :| 0 <= i < |rows| && rows[i].catid == id;
      if i < |init| {
        assert init[i].catid == id;
      }
    }
  }

  /** Each entry holds the words of all the rows of its category, in row
      order. */
  lemma GroupRowsContents(rows: seq<CategoryRow>)
    ensures forall id :: id in GroupRows(rows) ==> GroupRows(rows)[id] == WordsOf(rows, id)
  {
    forall id | id in GroupRows(rows) ensures GroupRows(rows)[id] == WordsOf(rows, id) {
      GroupRowsEntry(rows, id);
    }
  }

  lemma {:induction false} GroupRowsEntry(rows: seq<CategoryRow>, id: nat)
    requires id in GroupRows(rows)
    ensures GroupRows(rows)[id] == WordsOf(rows, id)
  {
    if rows != [] {
      var init, last := rows[..|rows| - 1], rows[|rows| - 1];
      assert GroupRows(rows) == AddRow(GroupRows(init), last);
      WordsOfAppend(init, [last], id);
      assert init + [last] == rows;
      if id in GroupRows(init) {
        GroupRowsEntry(init, id);
      } else {
        GroupRowsHas(init, id);
        WordsOfAbsent(init, id);
      }
    }
  }

  lemma {:induction false} WordsOfAppend(a: seq<CategoryRow>, b: seq<CategoryRow>, id: nat)
    ensures WordsOf(a + b, id) == WordsOf(a, id) + WordsOf(b, id)
  {
    if a != [] {
      assert (a + b)[1..] == a[1..] + b;
      WordsOfAppend(a[1..], b, id);
    } else {
      assert a + b == b;
    }
  }

  lemma {:induction false} WordsOfAbsent(rows: seq<CategoryRow>, id: nat)
    requires forall i :: 0 <= i < |rows| ==> rows[i].catid != id
    ensures WordsOf(rows, id) == []
  {
    if rows != [] {
      WordsOfAbsent(rows[1..], id);
    }
  }

  /** The body of the `forEach`: the normalised name is pushed, then the
      normalised synonym when it is neither NULL nor "". */
  method CollectRowWords(row: CategoryRow) returns (words: seq<string>)
    ensures words == RowWords(row)
    ensures 1 <= |words| <= 2 && words[0] == Normalize(row.catname)
    ensures |words| == 2 <==> row.synonym.Some? && row.synonym.value != ""
    ensures |words| == 2 ==> words[1] == Normalize(row.synonym.value)
  {
    words := [Normalize(row.catname)];
    if row.synonym.Some? && row.synonym.value != "" {
      words := words + [Normalize(row.synonym.value)];
    }
  }

  lemma GroupRowsStep(rows: seq<CategoryRow>, i: nat)
    requires i < |rows|
    ensures GroupRows(rows[..i + 1]) == AddRow(GroupRows(rows[..i]), rows[i])
  {
    assert rows[..i + 1][..i] == rows[..i];
  }

  /** The `forEach` that fills `categoryMap`. */
  method BuildCategoryMap(rows: seq<CategoryRow>) returns (categoryMap: map<nat, seq<string>>)
    ensures categoryMap == GroupRows(rows)
  {
    categoryMap := map[];
    var i := 0;
    while i < |rows|
      invariant 0 <= i <= |rows|
      invariant categoryMap == GroupRows(rows[..i])
    {
      var row := rows[i];
      var words := if row.catid in categoryMap then categoryMap[row.catid] else [];
      var added := CollectRowWords(row);
      GroupRowsStep(rows, i);
      categoryMap := categoryMap[row.catid := words + added];
      i := i + 1;
    }
    assert rows[..i] == rows;
  }

  // ---------------------------------------------------------------------
  // Category matching

  /** `words.flatMap((w) => w.split(/\s+/))`. */
  function FlatSplit(words: seq<string>): seq<string> {
    if words == [] then [] else SplitWs(words[0]) + FlatSplit(words[1..])
  }

  /** `searchWords.some((word) => words.includes(word))`. */
  predicate Shares(searchWords: seq<string>, words: seq<string>) {
    exists i :: 0 <= i < |searchWords| && searchWords[i] in words
  }

  /** Category `id` of the map shares a word with the query. */
  predicate Matches(m: map<nat, seq<string>>, searchWords: seq<string>, id: nat)
    requires id in m
  {
    Shares(searchWords, FlatSplit(m[id]))
  }

  /** `searchWords.filter((word) => !words.includes(word))`: a query word is
      kept exactly when it is not in the list. */
  function FilterOut(searchWords: seq<string>, words: seq<string>): (r: seq<string>)
    ensures forall k :: 0 <= k < |r| ==> r[k] in searchWords && r[k] !in words
    ensures forall w :: w in searchWords && w !in words ==> w in r
    ensures |r| <= |searchWords|
  {
    if searchWords == [] then []
    else (if searchWords[0] in words then [] else [searchWords[0]]) + FilterOut(searchWords[1..], words)
  }

  /** The filter keeps the query's order: the parts of a query are filtered
      on their own (and `FilterOutOne` says what each word gives). */
  lemma {:induction false} FilterOutAppend(a: seq<string>, b: seq<string>, words: seq<string>)
    ensures FilterOut(a + b, words) == FilterOut(a, words) + FilterOut(b, words)
  {
    if a == [] {
      assert a + b == b;
    } else {
      FilterOutAppend(a[1..], b, words);
      FilterOutStep(a, b, words);
    }
  }

  lemma FilterOutStep(a: seq<string>, b: seq<string>, words: seq<string>)
    requires a != []
    requires FilterOut(a[1..] + b, words) == FilterOut(a[1..], words) + FilterOut(b, words)
    ensures FilterOut(a + b, words) == FilterOut(a, words) + FilterOut(b, words)
  {
    var h := if a[0] in words then [] else [a[0]];
    var x, y := FilterOut(a[1..], words), FilterOut(b, words);
    calc {
      FilterOut(a + b, words);
      == { ConsOfAppend(a, b); FilterOutCons(a + b, words); }
      h + FilterOut(a[1..] + b, words);
      ==
      h + (x + y);
      ==
      (h + x) + y;
      == { FilterOutCons(a, words); }
      FilterOut(a, words) + y;
    }
  }

  lemma FilterOutCons(s: seq<string>, words: seq<string>)
    requires s != []
    ensures FilterOut(s, words) == (if s[0] in words then [] else [s[0]]) + FilterOut(s[1..], words)
  {
  }

  /** A word outside the list stays, a word in it goes. */
  lemma FilterOutOne(w: string, words: seq<string>)
    ensures FilterOut([w], words) == (if w in words then [] else [w])
  {
    assert [w][1..] == [];
  }

  /** Joined by single spaces, the kept words split back into themselves:
      the residual handed on holds exactly the query words outside the
      list, in query order.  The words are those of a normalised text: no
      white space in any, and none empty unless the text was. */
  lemma ResidualWords(searchWords: seq<string>, words: seq<string>)
    requires forall k :: 0 <= k < |searchWords| ==> NoSpace(searchWords[k])
    requires searchWords == [""] || forall k :: 0 <= k < |searchWords| ==> searchWords[k] != ""
    requires Shares(searchWords, words)
    ensures var kept := FilterOut(searchWords, words);
      (kept == [] ==> Join(kept, " ") == "")
      && (kept != [] ==> SplitWs(Join(kept, " ")) == kept)
  {
    var kept := FilterOut(searchWords, words);
    if kept != [] {
      assert searchWords != [""];
      forall k | 0 <= k < |kept| ensures kept[k] != "" && NoSpace(kept[k]) {
        var j :| 0 <= j < |searchWords| && searchWords[j] == kept[k];
      }
      SplitWsOfJoin(kept);
    }
  }

  predicate IsMin(k: nat, keys: set<nat>) {
    k in keys && forall j :: j in keys ==> k <= j
  }

  lemma MinExists(keys: set<nat>)
    requires keys != {}
    ensures exists k :: IsMin(k, keys)
    decreases keys
  {
    var x :| x in keys;
    var rest := keys - {x};
    if rest != {} {
      MinExists(rest);
      var k :| IsMin(k, rest);
      var m := if x < k then x else k;
      forall j | j in keys ensures m <= j {
        if j != x {
          assert j in rest;
        }
      }
      assert IsMin(m, keys);
    } else {
      assert keys == {x};
      assert IsMin(x, keys);
    }
  }

  /** The smallest key: the next one `for...in` visits, since integer-like keys
      are enumerated in ascending order. */
  ghost function MinKey(keys: set<nat>): (k: nat)
    requires keys != {}
    ensures IsMin(k, keys)
  {
    MinExists(keys);
    var k :| IsMin(k, keys); k
  }

  /** The first category, in ascending id order among `keys`, that shares a
      word with the query. */
  ghost function FirstMatchIn(m: map<nat, seq<string>>, searchWords: seq<string>, keys: set<nat>): (r: Option<nat>)
    requires keys <= m.Keys
    ensures r.Some? ==> r.value in keys
    decreases keys
  {
    if keys == {} then None
    else
      var k := MinKey(keys);
      if Matches(m, searchWords, k) then Some(k) else FirstMatchIn(m, searchWords, keys - {k})
  }

  /** The category chosen is the smallest id that shares a word with the query
      (no later one is considered), and none is chosen exactly when no
      category shares a word. */
  lemma {:induction false} FirstMatchIsSmallestMatching(m: map<nat, seq<string>>, searchWords: seq<string>, keys: set<nat>)
    requires keys <= m.Keys
    ensures FirstMatchIn(m, searchWords, keys).None? <==> forall j :: j in keys ==> !Matches(m, searchWords, j)
    ensures forall k :: FirstMatchIn(m, searchWords, keys) == Some(k) <==>
      (k in keys && Matches(m, searchWords, k) && forall j :: j in keys && j < k ==> !Matches(m, searchWords, j))
    decreases keys
  {
    if keys != {} {
      var k0 := MinKey(keys);
      if !Matches(m, searchWords, k0) {
        FirstMatchIsSmallestMatching(m, searchWords, keys - {k0});
      }
    }
  }

  /** The smallest of a non-empty set of ids. */
  method SmallestKey(keys: set<nat>) returns (k: nat)
    requires keys != {}
    ensures IsMin(k, keys)
  {
    k :| k in keys;
    var rest := keys - {k};
    while rest != {}
      invariant k in keys && rest <= keys
      invariant forall j :: j in keys && j !in rest ==> k <= j
      decreases rest
    {
      var j :| j in rest;
      if j < k {
        k := j;
      }
      rest := rest - {j};
    }
  }

  /** The `for...in` loop with `break`: categories are visited in ascending id
      order and the loop stops at the first one sharing a word. */
  method FindCategory(categoryMap: map<nat, seq<string>>, searchWords: seq<string>) returns (found: Option<nat>)
    ensures found == FirstMatchIn(categoryMap, searchWords, categoryMap.Keys)
    ensures found.Some? ==> found.value in categoryMap
  {
    var remaining := categoryMap.Keys;
    found := None;
    while remaining != {}
      invariant remaining <= categoryMap.Keys
      invariant FirstMatchIn(categoryMap, searchWords, remaining) == FirstMatchIn(categoryMap, searchWords, categoryMap.Keys)
      decreases remaining
    {
      var catid := SmallestKey(remaining);
      assert catid == MinKey(remaining) by {
        var k0 := MinKey(remaining);
        assert k0 <= catid && catid <= k0;
      }
      var words := FlatSplit(categoryMap[catid]);
      if exists i :: 0 <= i < |searchWords| && searchWords[i] in words {
        found := Some(catid);
        return;
      }
      remaining := remaining - {catid};
    }
  }

  // ---------------------------------------------------------------------
  // Query assembly

  /** `req.query.x || d` for a text parameter: absent and "" both give `d`. */
  function TextOr(p: Option<string>, d: string): string {
    if p.Some? && p.value != "" then p.value else d
  }

  /** The text handed to the full-text clause and the inferred category. */
  datatype Inference = Inference(category: Option<nat>, residual: string)

  /** Category inference on the text left by price extraction: the words are
      those of the normalised text; on a match, the residual is the words not
      in the category's vocabulary, joined by single spaces; with no match
      the residual is the price-stripped text as it was, NOT normalised. */
  ghost function InferCategory(rows: seq<CategoryRow>, text: string): Inference {
    var searchWords := SplitWs(Normalize(text));
    var m := GroupRows(rows);
    match FirstMatchIn(m, searchWords, m.Keys)
    case None => Inference(None, text)
    case Some(id) => Inference(Some(id), Join(FilterOut(searchWords, FlatSplit(m[id])), " "))
  }

  /** `must`: one fuzzy multi-field match on a non-empty residual, otherwise match-all. */
  function MustFor(residual: string): seq<Clause> {
    if residual != "" then [MultiMatch(residual, SearchFields, "AUTO", "75%")] else [MatchAll]
  }

  /** `filter`: the URL category, then the inferred category, then the price bound. */
  function FiltersFor(catid: Option<string>, category: Option<nat>, range: Option<PriceRange>): seq<Filter> {
    (if catid.Some? && catid.value != "" then [CatidTerm(ParseInt(catid.value))] else [])
    + (if category.Some? then [CatidTerm(Some(category.value))] else [])
    + (if range.Some? then [PriceFilter(range.value)] else [])
  }

  function SortFor(sort: string): Option<SortDir> {
    if sort == "price_low" then Some(Asc) else if sort == "price_high" then Some(Desc) else None
  }

  /** The price-extraction input: the search text lower-cased and trimmed. */
  function SearchPrice(p: SearchParams): PriceIntent {
    ExtractPrice(Trim(LowerAll(TextOr(p.search, ""))))
  }

  /** The request built from its already computed parts. */
  function Assemble(page: int, limit: int, sort: string, catid: Option<string>,
                    price: PriceIntent, inferred: Inference): EsSearch {
    EsSearch(ProductsIndexName(), (page - 1) * limit, limit, SortFor(sort),
             MustFor(inferred.residual), FiltersFor(catid, inferred.category, price.range))
  }

  /** The search request the controller sends for the given parameters and
      vocabulary rows. */
  ghost function Compile(p: SearchParams, rows: seq<CategoryRow>): EsSearch {
    var price := SearchPrice(p);
    Assemble(OrDefault(ParseParam(p.page), DefaultPage), OrDefault(ParseParam(p.limit), DefaultLimit),
             TextOr(p.sort, "relevance"), p.catid, price, InferCategory(rows, price.text))
  }

  function ProductsIndexName(): string { SearchIndex.ProductsIndex }

  /** Lines 14-38 of the controller, as statements on `cleanSearch` and
      `priceRange`. */
  method ExtractPriceSteps(clean: string) returns (priceRange: Option<PriceRange>, cleanSearch: string)
    ensures PriceIntent(priceRange, cleanSearch) == ExtractPrice(clean)
  {
    cleanSearch := clean;
    priceRange := None;
    if AllDigits(cleanSearch) {
      priceRange := Some(AtMost(DigitsValue(cleanSearch, 10)));
      cleanSearch := "";
    }
    var underMatch := FindPattern(cleanSearch, "under", 0);
    var aboveMatch := FindPattern(cleanSearch, "above", 0);
    if underMatch.Some? {
      priceRange := Some(AtMost(underMatch.value.value));
      cleanSearch := Trim(ReplaceFirst(cleanSearch, "under"));
    }
    if aboveMatch.Some? {
      priceRange := Some(AtLeast(aboveMatch.value.value));
      cleanSearch := Trim(ReplaceFirst(cleanSearch, "above"));
    }
  }

  /** The category-inference statements: build the map, look for the first
      matching category and, on a match, replace the text by the remaining
      words. */
  method InferSteps(rows: seq<CategoryRow>, text: string) returns (category: Option<nat>, cleanSearch: string)
    ensures Inference(category, cleanSearch) == InferCategory(rows, text)
  {
    cleanSearch := text;
    var searchWords := SplitWs(Normalize(cleanSearch));
    var categoryMap := BuildCategoryMap(rows);
    category := FindCategory(categoryMap, searchWords);
    if category.Some? {
      cleanSearch := Join(FilterOut(searchWords, FlatSplit(categoryMap[category.value])), " ");
    }
  }

  /** The statements that push the `must` and `filter` clauses and pick the
      sort option. */
  method AssembleSteps(page: int, limit: int, sort: string, catid: Option<string>,
                       priceRange: Option<PriceRange>, categoryFilter: Option<nat>, cleanSearch: string)
    returns (q: EsSearch)
    ensures q == Assemble(page, limit, sort, catid, PriceIntent(priceRange, ""), Inference(categoryFilter, cleanSearch))
  {
    var mustQueries: seq<Clause> := [];
    var filterQueries: seq<Filter> := [];
    if cleanSearch != "" {
      mustQueries := mustQueries + [MultiMatch(cleanSearch, ["proname^4", "description^2"], "AUTO", "75%")];
    }
    if catid.Some? && catid.value != "" {
      filterQueries := filterQueries + [CatidTerm(ParseInt(catid.value))];
    }
    if categoryFilter.Some? {
      filterQueries := filterQueries + [CatidTerm(Some(categoryFilter.value))];
    }
    if priceRange.Some? {
      filterQueries := filterQueries + [PriceFilter(priceRange.value)];
    }
    var sortOption: Option<SortDir> := None;
    if sort == "price_low" {
      sortOption := Some(Asc);
    }
    if sort == "price_high" {
      sortOption := Some(Desc);
    }
    assert sortOption == SortFor(sort);
    assert filterQueries == FiltersFor(catid, categoryFilter, priceRange);
    assert (if |mustQueries| > 0 then mustQueries else [MatchAll]) == MustFor(cleanSearch);
    q := EsSearch("products", (page - 1) * limit, limit, sortOption,
                  if |mustQueries| > 0 then mustQueries else [MatchAll], filterQueries);
  }

  /** `searchProducts` up to the `client.search` call. */
  method CompileSearch(p: SearchParams, rows: seq<CategoryRow>) returns (q: EsSearch)
    ensures q == Compile(p, rows)
  {
    var page := OrDefault(ParseParam(p.page), 1);
    var limit := OrDefault(ParseParam(p.limit), 8);
    var search := TextOr(p.search, "");
    var sort := TextOr(p.sort, "relevance");
    var priceRange, cleanSearch := ExtractPriceSteps(Trim(LowerAll(search)));
    var category, residual := InferSteps(rows, cleanSearch);
    q := AssembleSteps(page, limit, sort, p.catid, priceRange, category, residual);
  }

  // ---------------------------------------------------------------------
  // Properties of the compiled request

  /** Pagination: `from = (page - 1) * limit` and `size = limit` on the
      products index. */
  lemma AssemblePagination(page: int, limit: int, sort: string, catid: Option<string>,
                           price: PriceIntent, inferred: Inference)
    ensures var q := Assemble(page, limit, sort, catid, price, inferred);
      q.size == limit && q.from == (page - 1) * limit && q.index == "products"
      && (page == 1 ==> q.from == 0) && (page >= 1 && limit >= 0 ==> q.from >= 0)
  {
  }

  /** A missing, unparsable or zero page means 1, likewise a limit means 8;
      otherwise the parsed values, negative ones included, are used. */
  lemma CompilePagination(p: SearchParams, rows: seq<CategoryRow>)
    ensures var q := Compile(p, rows);
      var page := ParseParam(p.page);
      var limit := ParseParam(p.limit);
      var pg := if page.None? || page.value == 0 then 1 else page.value;
      var lm := if limit.None? || limit.value == 0 then 8 else limit.value;
      q.size == lm && q.from == (pg - 1) * lm && q.index == "products"
    ensures p.page == Some("2") && p.limit == Some("8") ==> Compile(p, rows).from == 8
    ensures p.page.None? ==> Compile(p, rows).from == 0
  {
    var price := SearchPrice(p);
    var page := OrDefault(ParseParam(p.page), DefaultPage);
    var limit := OrDefault(ParseParam(p.limit), DefaultLimit);
    var sort := TextOr(p.sort, "relevance");
    var inferred := InferCategory(rows, price.text);
    assert Compile(p, rows) == Assemble(page, limit, sort, p.catid, price, inferred);
    AssemblePagination(page, limit, sort, p.catid, price, inferred);
    if p.page == Some("2") && p.limit == Some("8") {
      TwoAndEightParsed();
    }
  }

  lemma TwoAndEightParsed()
    ensures ParseInt("2") == Some(2) && ParseInt("8") == Some(8)
  {
    ParseIntOfIntToString(2);
    ParseIntOfIntToString(8);
  }

  /** `must` holds exactly one clause: a fuzzy `multi_match` of the residual
      over `proname^4` and `description^2` with 75% minimum match when the
      residual is non-empty, match-all otherwise. */
  lemma AssembleMust(page: int, limit: int, sort: string, catid: Option<string>,
                     price: PriceIntent, inferred: Inference)
    ensures var q := Assemble(page, limit, sort, catid, price, inferred);
      |q.must| == 1
      && (q.must[0].MultiMatch? <==> inferred.residual != "")
      && (q.must[0].MultiMatch? ==>
            q.must[0] == MultiMatch(inferred.residual, ["proname^4", "description^2"], "AUTO", "75%"))
      && (q.must[0].MatchAll? <==> inferred.residual == "")
  {
  }

  /** When no category matches, the full-text clause gets the lower-cased,
      trimmed, price-stripped text itself, without normalisation. */
  lemma UnmatchedTextIsNotNormalized(p: SearchParams, rows: seq<CategoryRow>)
    requires InferCategory(rows, SearchPrice(p).text).category.None?
    ensures var text := SearchPrice(p).text;
      Compile(p, rows).must == (if text != "" then [MultiMatch(text, SearchFields, "AUTO", "75%")] else [MatchAll])
  {
  }

  /** The filters: the URL category first whenever `catid` is non-empty, the
      inferred category next (never suppressed by the URL one), the price
      bound last; there are at most three and at most one price bound. */
  lemma AssembleFilters(page: int, limit: int, sort: string, catid: Option<string>,
                        price: PriceIntent, inferred: Inference)
    ensures var q := Assemble(page, limit, sort, catid, price, inferred);
      var urlCat := catid.Some? && catid.value != "";
      var n := (if urlCat then 1 else 0) + (if inferred.category.Some? then 1 else 0)
               + (if price.range.Some? then 1 else 0);
      |q.filter| == n <= 3
      && (urlCat ==> q.filter[0] == CatidTerm(ParseInt(catid.value)))
      && (inferred.category.Some? ==>
            q.filter[if urlCat then 1 else 0] == CatidTerm(Some(inferred.category.value)))
      && (price.range.Some? <==> (q.filter != [] && q.filter[|q.filter| - 1].PriceFilter?))
      && (price.range.Some? ==> q.filter[|q.filter| - 1] == PriceFilter(price.range.value))
      && (forall i, j :: 0 <= i < j < |q.filter| && q.filter[i].PriceFilter? ==> !q.filter[j].PriceFilter?)
  {
  }

  /** Sorting: by price ascending for "price_low", descending for
      "price_high", and no sort (relevance) for anything else. */
  lemma CompileSort(p: SearchParams, rows: seq<CategoryRow>)
    ensures p.sort == Some("price_low") <==> Compile(p, rows).sort == Some(Asc)
    ensures p.sort == Some("price_high") <==> Compile(p, rows).sort == Some(Desc)
  {
    assert Compile(p, rows).sort == SortFor(TextOr(p.sort, "relevance"));
  }

  /** The inferred category, when there is one, is the smallest category id
      whose vocabulary shares a word with the normalised query, and the
      residual then holds only query words outside that vocabulary. */
  lemma InferredCategoryIsFirstMatch(rows: seq<CategoryRow>, text: string)
    ensures InferCategory(rows, text).category.None? ==>
      forall j :: j in GroupRows(rows) ==> !Matches(GroupRows(rows), SplitWs(Normalize(text)), j)
    ensures InferCategory(rows, text).category.Some? ==>
      var id := InferCategory(rows, text).category.value;
      id in GroupRows(rows) && Matches(GroupRows(rows), SplitWs(Normalize(text)), id)
      && (forall j :: j in GroupRows(rows) && j < id ==> !Matches(GroupRows(rows), SplitWs(Normalize(text)), j))
      && InferCategory(rows, text).residual
         == Join(FilterOut(SplitWs(Normalize(text)), FlatSplit(GroupRows(rows)[id])), " ")
  {
    var searchWords := SplitWs(Normalize(text));
    var m := GroupRows(rows);
    FirstMatchIsSmallestMatching(m, searchWords, m.Keys);
  }

  /** On a match, the residual's words are exactly the query words outside
      the matched category's vocabulary, in query order; when there are
      none, the residual is empty. */
  lemma InferredResidualWords(rows: seq<CategoryRow>, text: string)
    requires InferCategory(rows, text).category.Some?
    ensures var id := InferCategory(rows, text).category.value;
      var kept := FilterOut(SplitWs(Normalize(text)), FlatSplit(GroupRows(rows)[id]));
      (kept == [] ==> InferCategory(rows, text).residual == "")
      && (kept != [] ==> SplitWs(InferCategory(rows, text).residual) == kept)
  {
    var searchWords := SplitWs(Normalize(text));
    var m := GroupRows(rows);
    InferredCategoryIsFirstMatch(rows, text);
    NormalizedWords(text);
    var id := InferCategory(rows, text).category.value;
    ResidualWords(searchWords, FlatSplit(m[id]));
  }

  // ---------------------------------------------------------------------
  // Response

  datatype Hit = Hit(id: string, source: SearchIndex.Doc)

  /** The backend's answer: the hits of the page and the total number of matches. */
  datatype SearchHits = SearchHits(hits: seq<Hit>, total: int)

  /** `{prodid: hit._id, ...hit._source}`. */
  datatype ProductOut = ProductOut(prodid: string, doc: SearchIndex.Doc)

  datatype SearchResponse = Products(products: seq<ProductOut>, total: int) | Failure(status: int, message: string)

  const SearchFailed := Failure(500, "Search failed")

  function ToProducts(hits: seq<Hit>): (r: seq<ProductOut>)
    ensures |r| == |hits| && forall i :: 0 <= i < |hits| ==> r[i] == ProductOut(hits[i].id, hits[i].source)
  {
    if hits == [] then [] else [ProductOut(hits[0].id, hits[0].source)] + ToProducts(hits[1..])
  }

  /** `searchProducts`: the vocabulary query (`None` if it throws) and the
      backend (`None` if the search throws) are inputs; any failure gives
      status 500 "Search failed", otherwise one product per hit, in hit
      order, and the backend's total. */
  method SearchProducts(p: SearchParams, rows: Option<seq<CategoryRow>>, backend: EsSearch -> Option<SearchHits>)
    returns (resp: SearchResponse)
    ensures rows.None? ==> resp == SearchFailed
    ensures rows.Some? && backend(Compile(p, rows.value)).None? ==> resp == SearchFailed
    ensures rows.Some? && backend(Compile(p, rows.value)).Some? ==>
      var answer := backend(Compile(p, rows.value)).value;
      resp.Products? && resp.total == answer.total && |resp.products| == |answer.hits|
      && forall i :: 0 <= i < |answer.hits| ==>
           resp.products[i].prodid == answer.hits[i].id && resp.products[i].doc == answer.hits[i].source
  {
    if rows.None? {
      return SearchFailed;
    }
    var q := CompileSearch(p, rows.value);
    var result := backend(q);
    if result.None? {
      return SearchFailed;
    }
    resp := Products(ToProducts(result.value.hits), result.value.total);
  }
}
