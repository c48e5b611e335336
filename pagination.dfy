/**
 * Paging of the plan and build lists: the slice a page shows, the page count,
 * the redirect from a page past the end, and the numbered page links.
 */
module Pagination {
  import opened Lists

  /** The index of a page's first item. */
  function PageStart(page: int, perPage: int): int {
    perPage * (page - 1)
  }

  /** `items.slice(perPage * (page - 1), perPage * page)`. */
  function PageSlice<T>(items: seq<T>, page: int, perPage: int): (r: seq<T>)
    ensures perPage >= 0 ==> |r| <= perPage
  {
    var r := Slice(items, PageStart(page, perPage), perPage * page);
    if perPage < 0 then r
    else
      assert perPage * page == PageStart(page, perPage) + perPage;
      SliceWindowBound(|items|, PageStart(page, perPage), perPage);
      r
  }

  /** A `slice` over `[x, x + w)` has at most `w` elements. */
  lemma SliceWindowBound(len: nat, x: int, w: int)
    requires w >= 0
    ensures SliceIndex(x + w, len) - SliceIndex(x, len) <= w
  {
  }

  /** `Math.ceil(total / perPage)` for a positive page size. */
  function TotalPages(total: nat, perPage: int): (pages: nat)
    requires perPage > 0
    ensures pages == 0 <==> total == 0
    ensures total > 0 ==> PageStart(pages, perPage) < total <= perPage * pages
  {
    (total + perPage - 1) / perPage
  }

  /**
   * Item `i` is on page `i / perPage + 1`, at position `i % perPage`, and
   * that page is within the page count.
   */
  lemma ItemIsOnItsPage<T>(items: seq<T>, perPage: int, i: nat)
    requires perPage > 0 && i < |items|
    ensures var page := i / perPage + 1;
            1 <= page <= TotalPages(|items|, perPage) &&
            i % perPage < |PageSlice(items, page, perPage)| &&
            PageSlice(items, page, perPage)[i % perPage] == items[i]
  {
    var q, rm := i / perPage, i % perPage;
    DivMod(i, perPage);
    var page := q + 1;
    var tp := TotalPages(|items|, perPage);
    PageWithin(perPage, q, tp, i, |items|);
    var start := PageStart(page, perPage);
    assert start == perPage * q;
    assert perPage * page == start + perPage;
    SlicePosition(items, start, perPage, rm);
  }

  /** Euclidean division of a natural number by a positive one. */
  lemma DivMod(i: nat, d: int)
    requires d > 0
    ensures d * (i / d) + i % d == i && 0 <= i % d < d && i / d >= 0
  {
  }

  /** An index at or after page `q + 1`'s start and before the end of the list lies within the page count. */
  lemma PageWithin(perPage: int, q: int, tp: nat, i: nat, total: nat)
    requires perPage > 0 && perPage * q <= i < total
    requires total <= perPage * tp
    ensures q + 1 <= tp
  {
    if q >= tp {
      MultiplyMonotone(perPage, tp, q);
    }
  }

  /** Position `rm` of the window `[start, start + w)` is item `start + rm`, when that item exists. */
  lemma SlicePosition<T>(items: seq<T>, start: int, w: int, rm: int)
    requires 0 <= start && 0 <= rm < w && start + rm < |items|
    ensures rm < |Slice(items, start, start + w)| && Slice(items, start, start + w)[rm] == items[start + rm]
  {
  }

  lemma MultiplyMonotone(k: int, a: int, b: int)
    requires k > 0 && a <= b
    ensures k * a <= k * b
  {
  }

  /** The last page of a non-empty list shows at least one item. */
  lemma LastPageNonEmpty<T>(items: seq<T>, perPage: int)
    requires perPage > 0 && |items| > 0
    ensures PageSlice(items, TotalPages(|items|, perPage), perPage) != []
  {
    var tp := TotalPages(|items|, perPage);
    var start := PageStart(tp, perPage);
    assert perPage * tp == start + perPage;
    assert 0 <= start by {
      MultiplyMonotone(perPage, 0, tp - 1);
    }
    assert start < |items|;
    assert PageSlice(items, tp, perPage)[0] == items[start];
  }

  /** The page a list past its end navigates to: the last page, if there are fewer pages than `page`. */
  function Redirect(page: int, totalPages: nat): (target: int)
    ensures target <= totalPages || target == page
    ensures page > totalPages ==> target == totalPages
    ensures page <= totalPages ==> target == page
  {
    if page > totalPages then totalPages else page
  }

  /**
   * After the redirect a non-empty list shows a non-empty page; an empty
   * list sends every page from 1 on to page 0.
   */
  lemma RedirectShowsItems<T>(items: seq<T>, page: int, perPage: int)
    requires perPage > 0 && page >= 1
    ensures var target := Redirect(page, TotalPages(|items|, perPage));
            (|items| > 0 ==> PageSlice(items, target, perPage) != []) &&
            (|items| == 0 ==> target == 0)
  {
    var tp := TotalPages(|items|, perPage);
    if |items| > 0 {
      if page > tp {
        LastPageNonEmpty(items, perPage);
      } else {
        var i := PageStart(page, perPage);
        assert i >= 0 by {
          MultiplyMonotone(perPage, 0, page - 1);
        }
        assert i < |items| by {
          MultiplyMonotone(perPage, page - 1, tp - 1);
        }
        assert perPage * page == i + perPage;
        assert PageSlice(items, page, perPage)[0] == items[i];
      }
    }
  }

  // The numbered page links between the first and the last page.

  /** The integers `a, a + 1, ..., b - 1`. */
  function Range(a: int, b: int): (r: seq<int>)
    ensures |r| == if a < b then b - a else 0
    ensures forall i :: 0 <= i < |r| ==> r[i] == a + i
    decreases b - a
  {
    if a >= b then [] else [a] + Range(a + 1, b)
  }

  /** The pages to link, and whether an ellipsis goes before or after them. */
  datatype Links = Links(pages: seq<int>, leftDots: bool, rightDots: bool)

  function LinksStart(page: int): int {
    if page - 1 > 2 then page - 1 else 2
  }

  function LinksEnd(page: int, totalPages: int): int {
    if LinksStart(page) + 3 < totalPages then LinksStart(page) + 3 else totalPages
  }

  /** The links `useLinkToDisplay` produces. */
  function LinksFor(page: int, totalPages: int): Links {
    Links(Range(LinksStart(page), LinksEnd(page, totalPages)),
          LinksStart(page) > 2, LinksEnd(page, totalPages) < totalPages)
  }

  /** `useLinkToDisplay`: the loop pushing one link per page from `start` up to `end`. */
  method LinkToDisplay(page: int, totalPages: int) returns (l: Links)
    ensures l == LinksFor(page, totalPages)
  {
    var start := if 2 > page - 1 then 2 else page - 1;
    var end := if start + 3 < totalPages then start + 3 else totalPages;
    var items: seq<int> := [];
    var i := start;
    while i < end
      invariant start <= i && (i <= end || i == start)
      invariant items == Range(start, i)
      decreases end - i
    {
      items := items + [i];
      i := i + 1;
    }
    l := Links(items, start > 2, end < totalPages);
  }

  /**
   * At most three consecutive pages are linked, never the first or the last;
   * the current page is among them whenever it is neither.
   */
  lemma LinksBounds(page: int, totalPages: int)
    ensures var l := LinksFor(page, totalPages);
            |l.pages| <= 3 &&
            (forall i :: 0 <= i < |l.pages| ==> 1 < l.pages[i] < totalPages) &&
            (forall i :: 0 < i < |l.pages| ==> l.pages[i] == l.pages[i - 1] + 1) &&
            (1 < page < totalPages ==> page in l.pages)
  {
    var l := LinksFor(page, totalPages);
    if 1 < page < totalPages {
      assert l.pages[page - LinksStart(page)] == page;
    }
  }

  /**
   * No page is skipped without an ellipsis: without left dots the links start
   * right after page 1, and without right dots they end right before the
   * last page.
   */
  lemma DotsMarkGaps(page: int, totalPages: int)
    ensures var l := LinksFor(page, totalPages);
            (l.leftDots <==> page > 3) &&
            (!l.leftDots && l.pages != [] ==> l.pages[0] == 2) &&
            (!l.rightDots && l.pages != [] ==> l.pages[|l.pages| - 1] == totalPages - 1)
  {
  }
}
