/** The `Pagination` component: a Prev button, one numbered button per
    page, and a Next button.  Clicking a button emits a page number to the
    parent; the component itself never clamps what it emits. */
module Pagination {

  /** A numbered button: its number, the page it emits and whether it is
      highlighted. */
  datatype PageButton = PageButton(number: int, emits: int, highlighted: bool)

  /** The Prev or Next button: whether it is disabled and the page it emits. */
  datatype Control = Control(disabled: bool, emits: int)

  datatype View = View(prev: Control, buttons: seq<PageButton>, next: Control)

  /** `Array.from({length: count}, (_, index) => ...)` from `index = start`:
      buttons `start + 1 .. count`. */
  function ButtonsFrom(currentPage: int, start: nat, count: int): (r: seq<PageButton>)
    ensures |r| == (if count > start then count - start else 0)
    ensures forall k :: 0 <= k < |r| ==>
      r[k].number == start + k + 1 && r[k].emits == start + k + 1
      && (r[k].highlighted <==> currentPage == start + k + 1)
    decreases count - start
  {
    if count <= start then []
    else [PageButton(start + 1, start + 1, currentPage == start + 1)] + ButtonsFrom(currentPage, start + 1, count)
  }

  /** The rendered component for the given current page and page count. */
  function Render(currentPage: int, totalPages: int): View {
    View(Control(currentPage == 1, currentPage - 1),
         ButtonsFrom(currentPage, 0, totalPages),
         Control(currentPage == totalPages, currentPage + 1))
  }

  /** There are `max(totalPages, 0)` numbered buttons, numbered 1, 2, ... in
      order, and button `k` emits `k`. */
  lemma ButtonsAreNumbered(currentPage: int, totalPages: int)
    ensures var b := Render(currentPage, totalPages).buttons;
      |b| == (if totalPages > 0 then totalPages else 0)
      && forall i :: 0 <= i < |b| ==> b[i].number == i + 1 && b[i].emits == i + 1
  {
  }

  /** At most one button is highlighted, and one is exactly when the current
      page is between 1 and the page count; that one is the current page. */
  lemma HighlightIsCurrentPage(currentPage: int, totalPages: int)
    ensures var b := Render(currentPage, totalPages).buttons;
      (forall i, j :: 0 <= i < |b| && 0 <= j < |b| && b[i].highlighted && b[j].highlighted ==> i == j)
      && ((exists i :: 0 <= i < |b| && b[i].highlighted) <==> 1 <= currentPage <= totalPages)
      && (forall i :: 0 <= i < |b| && b[i].highlighted ==> b[i].number == currentPage)
  {
    var b := Render(currentPage, totalPages).buttons;
    if 1 <= currentPage <= totalPages {
      assert b[currentPage - 1].highlighted;
    }
  }

  /** Prev is disabled exactly on page 1 and Next exactly on the last page;
      they emit the neighbouring pages, unclamped. */
  lemma ControlsEmitNeighbours(currentPage: int, totalPages: int)
    ensures var v := Render(currentPage, totalPages);
      (v.prev.disabled <==> currentPage == 1) && v.prev.emits == currentPage - 1
      && (v.next.disabled <==> currentPage == totalPages) && v.next.emits == currentPage + 1
  {
  }

  /** From a page in range, an enabled Prev or Next emits a page in range. */
  lemma EnabledControlsStayInRange(currentPage: int, totalPages: int)
    requires 1 <= currentPage <= totalPages
    ensures var v := Render(currentPage, totalPages);
      (!v.prev.disabled ==> 1 <= v.prev.emits <= totalPages)
      && (!v.next.disabled ==> 1 <= v.next.emits <= totalPages)
  {
  }

  /** With no pages (nothing to list) and the current page 1, Prev is
      disabled but Next stays enabled and emits page 2, which does not exist. */
  lemma NextEnabledWithoutPages()
    ensures var v := Render(1, 0);
      v.prev.disabled && v.buttons == [] && !v.next.disabled && v.next.emits == 2
  {
  }
}
