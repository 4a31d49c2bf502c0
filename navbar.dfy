/** The `Navbar` component: the search box, the search navigation and the
    hide-on-scroll rule.  Locations are kept with decoded parameters, so the
    `encodeURIComponent` the component applies and the decoding the router
    applies cancel out. */
module Navbar {
  import opened Wrappers
  import opened JsText
  import opened Locations
  import AllProducts

  const AllProductsPath := "/allproducts"

  /** The scroll position from which scrolling down hides the bar. */
  const HideThreshold := 50

  /** `handleSearch`: a search with some non-blank text goes to page 1 of
      the results for the trimmed text, a blank one to page 1 of all
      products. */
  function SearchTarget(search: string): Location {
    if Trim(search) != "" then Location(AllProductsPath, [Param("page", "1"), Param("search", Trim(search))])
    else Location(AllProductsPath, [Param("page", "1")])
  }

  /** The search text the bar shows for a location. */
  function SearchBoxFor(location: Location): string {
    if location.path == AllProductsPath then Get(location.query, "search").GetOr("") else ""
  }

  /** The search navigation lands on page 1 of the results page, which reads
      the trimmed text as its search, and the bar then shows that text. */
  lemma SearchTargetReadBack(search: string)
    ensures SearchTarget(search).path == AllProductsPath
    ensures PageFromUrl(SearchTarget(search).query) == 1
    ensures AllProducts.SearchOf(SearchTarget(search).query) == Trim(search)
    ensures SearchBoxFor(SearchTarget(search)) == Trim(search)
  {
    assert ParseInt("1") == Some(1) by { ParseIntOfIntToString(1); }
    var q := SearchTarget(search).query;
    if Trim(search) != "" {
      assert Get(q[1..], "search") == Some(Trim(search));
    }
  }

  class NavbarState {
    var search: string
    var showNavbar: bool
    var lastScrollY: int
    var location: Location

    /** The bar as first rendered at `location0`, once the location effect
        has run. */
    constructor (location0: Location)
      ensures location == location0 && search == SearchBoxFor(location0)
      ensures showNavbar && lastScrollY == 0
    {
      location := location0;
      showNavbar := true;
      lastScrollY := 0;
      search := SearchBoxFor(location0);
    }

    /** The location effect: on the results page the box takes the `search`
        parameter (or ""), anywhere else it is cleared. */
    method SyncWithLocation()
      modifies this
      ensures search == SearchBoxFor(location)
      ensures location == old(location) && showNavbar == old(showNavbar) && lastScrollY == old(lastScrollY)
    {
      if location.path == AllProductsPath {
        search := Get(location.query, "search").GetOr("");
      } else {
        search := "";
      }
    }

    /** The Search button: navigate, then the location effect runs; the box
        ends up holding the trimmed text. */
    method HandleSearch()
      modifies this
      ensures location == SearchTarget(old(search))
      ensures search == Trim(old(search))
      ensures showNavbar == old(showNavbar) && lastScrollY == old(lastScrollY)
    {
      var text := Trim(search);
      if text != "" {
        location := Location(AllProductsPath, [Param("page", "1"), Param("search", text)]);
      } else {
        location := Location(AllProductsPath, [Param("page", "1")]);
      }
      SearchTargetReadBack(old(search));
      SyncWithLocation();
    }

    /** A key press in the box: Enter navigates exactly as the Search button
        does, any other key changes nothing. */
    method OnKeyDown(key: string)
      modifies this
      ensures key == "Enter" ==> location == SearchTarget(old(search)) && search == Trim(old(search))
      ensures key != "Enter" ==> location == old(location) && search == old(search)
      ensures showNavbar == old(showNavbar) && lastScrollY == old(lastScrollY)
    {
      if key == "Enter" {
        if Trim(search) != "" {
          location := Location(AllProductsPath, [Param("page", "1"), Param("search", Trim(search))]);
        } else {
          location := Location(AllProductsPath, [Param("page", "1")]);
        }
        SearchTargetReadBack(old(search));
        SyncWithLocation();
      }
    }

    /** Typing in the box: the box takes the value; clearing it to blank on
        the results page navigates to page 1 of all products, and the
        location effect then empties the box. */
    method OnInputChange(value: string)
      modifies this
      ensures Trim(value) == "" && old(location).path == AllProductsPath ==>
        location == SearchTarget(value) && location.query == [Param("page", "1")] && search == ""
      ensures !(Trim(value) == "" && old(location).path == AllProductsPath) ==>
        location == old(location) && search == value
      ensures showNavbar == old(showNavbar) && lastScrollY == old(lastScrollY)
    {
      search := value;
      if Trim(value) == "" && location.path == AllProductsPath {
        location := Location(AllProductsPath, [Param("page", "1")]);
        SyncWithLocation();
      }
    }

    /** A scroll event: the bar hides exactly when the page moved down past
        the threshold, and the position is remembered. */
    method OnScroll(currentScrollY: int)
      modifies this
      ensures showNavbar <==> !(currentScrollY > old(lastScrollY) && currentScrollY > HideThreshold)
      ensures lastScrollY == currentScrollY
      ensures search == old(search) && location == old(location)
    {
      if currentScrollY > lastScrollY && currentScrollY > HideThreshold {
        showNavbar := false;
      } else {
        showNavbar := true;
      }
      lastScrollY := currentScrollY;
    }
  }
}
