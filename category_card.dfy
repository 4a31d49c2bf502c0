/** The `CategoryCard` component: the URL slug of a category title and the
    route a click on the card navigates to. */
module CategoryCard {
  import opened JsText
  import opened Locations

  /** `replace(/&/g, "")`. */
  function RemoveAmp(s: string): (r: string)
    ensures '&' !in r
    ensures |r| <= |s|
  {
    if s == [] then [] else (if s[0] == '&' then [] else [s[0]]) + RemoveAmp(s[1..])
  }

  /** `replace(/\s+/g, "-")`: every maximal run of white space becomes one
      `-` (see `DashRunsAt`). */
  function DashRuns(s: string): (r: string)
    ensures NoSpace(r)
    decreases |s|
  {
    if s == [] then []
    else if IsSpace(s[0]) then "-" + DashRuns(TrimStart(s[1..]))
    else [s[0]] + DashRuns(s[1..])
  }

  /** The slug of a category title. */
  function Slug(title: string): string {
    DashRuns(RemoveAmp(LowerAll(title)))
  }

  /** The route of the category page for a card. */
  function CardPath(title: string, id: nat): string {
    "/category/" + Slug(title) + "/" + NatToString(id) + "?page=1"
  }

  /** A string without `&` is unchanged by `RemoveAmp`. */
  lemma {:induction false} RemoveAmpFixed(s: string)
    requires '&' !in s
    ensures RemoveAmp(s) == s
  {
    if s != [] {
      assert '&' !in s[1..] by { assert forall c :: c in s[1..] ==> c in s; }
      RemoveAmpFixed(s[1..]);
    }
  }

  /** A string without white space is unchanged by `DashRuns`. */
  lemma {:induction false} DashRunsFixed(s: string)
    requires NoSpace(s)
    ensures DashRuns(s) == s
  {
    if s != [] {
      DashRunsFixed(s[1..]);
    }
  }

  /** Every maximal run of white space becomes exactly one `-`: a word with
      no white space, a non-empty run, and a rest that does not start with
      white space give the word, one `-`, and the slug of the rest. */
  lemma {:induction false} DashRunsAt(a: string, w: string, b: string)
    requires NoSpace(a) && |w| >= 1 && AllSpace(w)
    requires b == [] || !IsSpace(b[0])
    ensures DashRuns(a + w + b) == a + "-" + DashRuns(b)
  {
    if a == [] {
      assert a + w + b == w + b;
      assert (w + b)[0] == w[0];
      assert (w + b)[1..] == w[1..] + b;
      TrimStartOfRun(w[1..], b);
      assert DashRuns(w + b) == "-" + DashRuns(TrimStart(w[1..] + b));
    } else {
      DashRunsAt(a[1..], w, b);
      assert (a + w + b)[1..] == a[1..] + w + b;
    }
  }

  /** `RemoveAmp` only drops characters. */
  lemma {:induction false} RemoveAmpKeepsChars(s: string)
    ensures forall i :: 0 <= i < |RemoveAmp(s)| ==> RemoveAmp(s)[i] in s
  {
    if s != [] {
      RemoveAmpKeepsChars(s[1..]);
      var r := RemoveAmp(s);
      var t := RemoveAmp(s[1..]);
      forall i | 0 <= i < |r| ensures r[i] in s {
        if s[0] == '&' || i > 0 {
          var k := if s[0] == '&' then i else i - 1;
          assert r[i] == t[k] && t[k] in s[1..];
        }
      }
    }
  }

  /** `DashRuns` writes only `-` and characters of its input. */
  lemma {:induction false} DashRunsChars(s: string)
    ensures forall i :: 0 <= i < |DashRuns(s)| ==> DashRuns(s)[i] == '-' || DashRuns(s)[i] in s
    decreases |s|
  {
    if s != [] {
      var r := DashRuns(s);
      if IsSpace(s[0]) {
        var u := TrimStart(s[1..]);
        TrimStartSpec(s[1..]);
        DashRunsChars(u);
        var t := DashRuns(u);
        forall i | 0 <= i < |r| ensures r[i] == '-' || r[i] in s {
          if i > 0 {
            assert r[i] == t[i - 1];
            if t[i - 1] != '-' {
              var j :| 0 <= j < |u| && u[j] == t[i - 1];
              assert u[j] in s[1..];
            }
          }
        }
      } else {
        DashRunsChars(s[1..]);
        var t := DashRuns(s[1..]);
        forall i | 0 <= i < |r| ensures r[i] == '-' || r[i] in s {
          if i > 0 {
            assert r[i] == t[i - 1];
          }
        }
      }
    }
  }

  /** The slug holds no `&` and no white space. */
  lemma SlugForm(title: string)
    ensures '&' !in Slug(title) && NoSpace(Slug(title))
  {
    var s := RemoveAmp(LowerAll(title));
    var r := DashRuns(s);
    DashRunsChars(s);
    forall i | 0 <= i < |r| ensures r[i] != '&' {
      assert r[i] == '-' || r[i] in s;
    }
  }

  /** Slugging a slug changes nothing. */
  lemma SlugIdempotent(title: string)
    ensures Slug(Slug(title)) == Slug(title)
  {
    var l := LowerAll(title);
    var s := RemoveAmp(l);
    var r := DashRuns(s);
    LowerAllAt(title);
    RemoveAmpKeepsChars(l);
    DashRunsChars(s);
    forall i | 0 <= i < |r| ensures !IsAsciiUpper(r[i]) {
      if r[i] != '-' {
        assert r[i] in s;
        var j :| 0 <= j < |l| && l[j] == r[i];
      }
    }
    LowerAllFixed(r);
    SlugForm(title);
    RemoveAmpFixed(r);
    DashRunsFixed(r);
  }

  /** There is no trim: a title that starts with white space gives a slug
      that starts with `-`. */
  lemma SlugLeadingDash(title: string)
    requires title != [] && IsSpace(title[0])
    ensures Slug(title) != [] && Slug(title)[0] == '-'
  {
    LowerAllAt(title);
    var l := LowerAll(title);
    var s := RemoveAmp(l);
    assert s == [l[0]] + RemoveAmp(l[1..]);
    assert DashRuns(s) == "-" + DashRuns(TrimStart(s[1..]));
  }

  /** Likewise a title that ends with white space gives a slug that ends
      with `-`. */
  lemma SlugTrailingDash(title: string)
    requires title != [] && IsSpace(title[|title| - 1])
    ensures Slug(title) != [] && Slug(title)[|Slug(title)| - 1] == '-'
  {
    LowerAllAt(title);
    var l := LowerAll(title);
    var n := |title| - 1;
    var c := l[n];
    assert IsSpace(c);
    assert l == l[..n] + [c];
    RemoveAmpAppend(l[..n], [c]);
    assert RemoveAmp([c]) == [c] + RemoveAmp([]);
    var a := RemoveAmp(l[..n]);
    assert RemoveAmp(l) == a + [c];
    DashRunsEndsWithDash(a, c);
  }

  lemma {:induction false} RemoveAmpAppend(a: string, b: string)
    ensures RemoveAmp(a + b) == RemoveAmp(a) + RemoveAmp(b)
  {
    if a == [] {
      assert a + b == b;
    } else {
      assert (a + b)[0] == a[0];
      assert (a + b)[1..] == a[1..] + b;
      RemoveAmpAppend(a[1..], b);
      var h := if a[0] == '&' then [] else [a[0]];
      assert RemoveAmp(a + b) == h + (RemoveAmp(a[1..]) + RemoveAmp(b));
      assert RemoveAmp(a) == h + RemoveAmp(a[1..]);
    }
  }

  lemma {:induction false} DashRunsEndsWithDash(a: string, c: char)
    requires IsSpace(c)
    ensures DashRuns(a + [c]) != [] && DashRuns(a + [c])[|DashRuns(a + [c])| - 1] == '-'
    decreases |a|
  {
    if a == [] {
      assert DashRuns([c]) == "-" + DashRuns(TrimStart([]));
    } else if IsSpace(a[0]) {
      assert (a + [c])[1..] == a[1..] + [c];
      TrimStartKeepsLastSpace(a[1..], c);
      var t := TrimStart(a[1..] + [c]);
      if t != [] {
        var k := |t| - 1;
        assert t == t[..k] + [c];
        DashRunsEndsWithDash(t[..k], c);
      }
    } else {
      assert (a + [c])[1..] == a[1..] + [c];
      DashRunsEndsWithDash(a[1..], c);
    }
  }

  /** Trimming the start of a string that ends with white space leaves
      either nothing or a string that still ends with that character, and
      never more than the part before it plus that character. */
  lemma {:induction false} TrimStartKeepsLastSpace(a: string, c: char)
    requires IsSpace(c)
    ensures var t := TrimStart(a + [c]); t == [] || (|t| <= |a| + 1 && t[|t| - 1] == c)
  {
    if a != [] {
      assert (a + [c])[1..] == a[1..] + [c];
      TrimStartKeepsLastSpace(a[1..], c);
      if !IsSpace(a[0]) {
        assert TrimStart(a + [c]) == a + [c];
      }
    } else {
      assert TrimStart([c]) == TrimStart([]);
    }
  }

  /** Because `&` is removed before the runs are collapsed, two words
      around " & " are joined by a single `-`. */
  lemma SlugOfAmpersandPair(a: string, b: string)
    requires NoSpace(a) && NoSpace(b) && '&' !in a && '&' !in b
    ensures Slug(a + " & " + b) == LowerAll(a) + "-" + LowerAll(b)
  {
    var la, lb := LowerAll(a), LowerAll(b);
    PairBeforeDashes(a, b);
    LowerKeepsWord(a);
    LowerKeepsWord(b);
    DashRunsAt(la, "  ", lb);
    DashRunsFixed(lb);
  }

  /** Lower case keeps a word a word: no white space and no `&` appear. */
  lemma LowerKeepsWord(a: string)
    requires NoSpace(a) && '&' !in a
    ensures NoSpace(LowerAll(a)) && '&' !in LowerAll(a)
  {
    var la := LowerAll(a);
    LowerAllAt(a);
    assert '&' !in la by { forall i | 0 <= i < |la| ensures la[i] != '&' { assert la[i] == Lower(a[i]); } }
  }

  lemma PairBeforeDashes(a: string, b: string)
    requires NoSpace(a) && NoSpace(b) && '&' !in a && '&' !in b
    ensures RemoveAmp(LowerAll(a + " & " + b)) == LowerAll(a) + "  " + LowerAll(b)
  {
    LowerOfPair(a, b);
    LowerKeepsWord(a);
    LowerKeepsWord(b);
    RemoveAmpOfPair(LowerAll(a), LowerAll(b));
  }

  lemma LowerOfPair(a: string, b: string)
    ensures LowerAll(a + " & " + b) == LowerAll(a) + " & " + LowerAll(b)
  {
    LowerAllAppend(a + " & ", b);
    LowerAllAppend(a, " & ");
    assert LowerAll(" & ") == " & ";
  }

  lemma RemoveAmpOfPair(a: string, b: string)
    requires '&' !in a && '&' !in b
    ensures RemoveAmp(a + " & " + b) == a + "  " + b
  {
    RemoveAmpAppend(a + " & ", b);
    RemoveAmpAppend(a, " & ");
    RemoveAmpOfAmp();
    RemoveAmpFixed(a);
    RemoveAmpFixed(b);
  }

  lemma RemoveAmpOfAmp()
    ensures RemoveAmp(" & ") == "  "
  {
    assert RemoveAmp(" ") == " ";
    assert RemoveAmp("& ") == " ";
  }

  /** "Home & Kitchen" gives "home-kitchen". */
  lemma HomeAndKitchen(title: string)
    requires title == "Home & Kitchen"
    ensures Slug(title) == "home-kitchen"
  {
    assert title == "Home" + " & " + "Kitchen";
    HomeAndKitchenAreWords();
    SlugOfAmpersandPair("Home", "Kitchen");
    LowerOfHome();
    LowerOfKitchen();
    HomeKitchenJoined();
  }

  lemma HomeKitchenJoined()
    ensures "home" + "-" + "kitchen" == "home-kitchen"
  {
    assert |"home" + "-" + "kitchen"| == |"home-kitchen"|;
  }

  lemma HomeAndKitchenAreWords()
    ensures NoSpace("Home") && NoSpace("Kitchen") && '&' !in "Home" && '&' !in "Kitchen"
  {
  }

  lemma LowerOfHome()
    ensures LowerAll("Home") == "home"
  {
    assert "Home"[1..] == "ome";
    LowerAllFixed("ome");
  }

  lemma LowerOfKitchen()
    ensures LowerAll("Kitchen") == "kitchen"
  {
    assert "Kitchen"[1..] == "itchen";
    LowerAllFixed("itchen");
  }

  lemma {:induction false} LowerAllAppend(a: string, b: string)
    ensures LowerAll(a + b) == LowerAll(a) + LowerAll(b)
  {
    if a == [] {
      assert a + b == b;
    } else {
      assert (a + b)[0] == a[0];
      assert (a + b)[1..] == a[1..] + b;
      LowerAllAppend(a[1..], b);
    }
  }

  /** The card's route is `/category/<slug>/<id>?page=1`: with no `?`, `/`
      or `#` in the slug, the router sees the path segments "category", the
      slug and the id, and the query `page=1`. */
  lemma CardPathParts(title: string, id: nat)
    requires '?' !in Slug(title) && '/' !in Slug(title) && '#' !in Slug(title)
    ensures var url := CardPath(title, id);
      RequestQuery(url) == [Param("page", "1")]
      && SplitOn(PathPart(url), '/') == ["", "category", Slug(title), NatToString(id)]
  {
    var slug := Slug(title);
    var n := NatToString(id);
    var path := "/category/" + slug + "/" + n;
    NumberHasNoSeparator(id);
    assert '?' !in path && '#' !in path by {
      assert forall c :: c in path ==> c in "/category/" || c in slug || c == '/' || c in n;
    }
    assert CardPath(title, id) == path + "?" + "page=1";
    assert '#' !in path + "?" + "page=1";
    BeforeFragmentWhole(path + "?" + "page=1");
    BeforeFragmentWhole("page=1");
    QueryPartOf(path, "page=1");
    PageOneQuery();
    SplitOnAt(path, "page=1", '?');
    assert path + "?" + "page=1" == path + ['?'] + "page=1";
    PathSegments(slug, n);
  }

  /** A `#` in the slug starts the URL's fragment: the router sees only
      "category" and the slug up to the `#`, so the category route, which
      needs an id segment, does not match, and no query is sent. */
  lemma CardPathCutAtFragment(title: string, id: nat, a: string, b: string)
    requires Slug(title) == a + "#" + b && '#' !in a && '?' !in a && '/' !in a
    ensures SplitOn(PathPart(CardPath(title, id)), '/') == ["", "category", a]
    ensures QueryPart(CardPath(title, id)) == ""
  {
    var head, tail := "/category/" + a, b + "/" + NatToString(id) + "?page=1";
    CardPathRegroup(Slug(title), a, b, NatToString(id));
    CategoryHeadPlain(a);
    BeforeFragmentAt(head, tail);
    SplitOnWithout(head, '?');
    CategorySegments(a);
  }

  lemma CardPathRegroup(slug: string, a: string, b: string, n: string)
    requires slug == a + "#" + b
    ensures "/category/" + slug + "/" + n + "?page=1" == ("/category/" + a) + "#" + (b + "/" + n + "?page=1")
  {
  }

  lemma CategoryHeadPlain(a: string)
    requires '#' !in a && '?' !in a
    ensures '#' !in "/category/" + a && '?' !in "/category/" + a
  {
  }

  lemma CategorySegments(a: string)
    requires '/' !in a
    ensures SplitOn("/category/" + a, '/') == ["", "category", a]
  {
    assert "/category/" + a == [] + ['/'] + ("category" + ['/'] + a);
    SplitOnAt([], "category" + ['/'] + a, '/');
    SplitOnAt("category", a, '/');
    SplitOnWithout(a, '/');
  }

  lemma NumberHasNoSeparator(id: nat)
    ensures '?' !in NatToString(id) && '/' !in NatToString(id) && '#' !in NatToString(id)
  {
    var n := NatToString(id);
    forall i | 0 <= i < |n| ensures n[i] != '?' && n[i] != '/' && n[i] != '#' { assert IsDigit(n[i]); }
  }

  lemma PageOneQuery()
    ensures ParseQuery("page=1") == [Param("page", "1")]
  {
    ParseRenderedQuery([Param("page", "1")]);
    assert RenderQuery([Param("page", "1")]) == "page=1";
  }

  lemma PathSegments(slug: string, n: string)
    requires '/' !in slug && '/' !in n
    ensures SplitOn("/category/" + slug + "/" + n, '/') == ["", "category", slug, n]
  {
    assert "/category/" + slug + "/" + n == [] + ['/'] + ("category" + ['/'] + (slug + ['/'] + n));
    SplitOnAt([], "category" + ['/'] + (slug + ['/'] + n), '/');
    SplitOnAt("category", slug + ['/'] + n, '/');
    SplitOnAt(slug, n, '/');
    SplitOnWithout(n, '/');
  }
}
