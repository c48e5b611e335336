/**
 * The home page: one page of builds fetched from the server, reordered by
 * drag and drop with orders that continue from the previous pages, the
 * pending new builds that fill the rest of the page, and the redirect from
 * an empty page.
 */
module HomePage {
  import opened Wrappers
  import opened Entities
  import opened Lists
  import opened HandleReorder
  import opened Pagination
  import BuildsPage

  /** The page and page size when the search gives none. */
  const DEFAULT_PAGE := 1
  const DEFAULT_PER_PAGE := 30

  type Build = Item<string>

  /** The items renumbered from `base + 1`, position by position. */
  function RenumberFrom(s: seq<Build>, base: int): (r: seq<Build>)
    ensures |r| == |s|
    ensures forall i :: 0 <= i < |s| ==> r[i] == s[i].(order := base + 1 + i)
  {
    seq(|s|, i requires 0 <= i < |s| => s[i].(order := base + 1 + i))
  }

  /**
   * `handleDragEnd`: nothing for a drop outside any item, on itself or with
   * an unknown id; otherwise the dragged build moves to the target's position
   * and the page is renumbered from the number of builds on earlier pages.
   */
  function PageDragEnd(e: DragEnd, items: seq<Build>, page: int, perPage: int): (r: Option<seq<Build>>)
    ensures r.Some? <==> e.over.Some? && e.over.value != e.active && e.active in Ids(items) && e.over.value in Ids(items)
    ensures r.Some? ==> (|r.value| == |items| &&
                         forall i :: 0 <= i < |items| ==> r.value[i].order == PageStart(page, perPage) + 1 + i)
  {
    if e.over.None? || e.active == e.over.value then None
    else
      var oldIndex := FindIndex(items, HasId(e.active));
      var newIndex := FindIndex(items, HasId(e.over.value));
      FoundIffListed(items, e.active);
      FoundIffListed(items, e.over.value);
      if oldIndex < 0 || newIndex < 0 then None
      else Some(RenumberFrom(ArrayMove(items, oldIndex, newIndex), PageStart(page, perPage)))
  }

  /**
   * The page's handler is the shared `handleReorder` with every order moved
   * up by the number of builds on earlier pages; on page 1 the two agree.
   */
  lemma PageDragEndShiftsReorder(e: DragEnd, items: seq<Build>, page: int, perPage: int)
    ensures PageDragEnd(e, items, page, perPage).None? <==> Reorder(e, items).None?
    ensures PageDragEnd(e, items, page, perPage).Some? ==>
              var r := PageDragEnd(e, items, page, perPage).value;
              var s := Reorder(e, items).value;
              |r| == |s| && forall i :: 0 <= i < |r| ==> r[i] == s[i].(order := s[i].order + PageStart(page, perPage))
    ensures page == 1 ==> PageDragEnd(e, items, page, perPage) == Reorder(e, items)
  {
    PageDragEndShifted(e, items, page, perPage);
    if page == 1 {
      PageDragEndFirstPage(e, items, perPage);
    }
  }

  lemma PageDragEndShifted(e: DragEnd, items: seq<Build>, page: int, perPage: int)
    ensures PageDragEnd(e, items, page, perPage).Some? ==>
              var r := PageDragEnd(e, items, page, perPage).value;
              var s := Reorder(e, items).value;
              |r| == |s| && forall i :: 0 <= i < |r| ==> r[i] == s[i].(order := s[i].order + PageStart(page, perPage))
  {
    if PageDragEnd(e, items, page, perPage).Some? {
      var moved := PageDragEndMoves(e, items, page, perPage);
      RenumberFromShifts(moved, PageStart(page, perPage));
    }
  }

  lemma PageDragEndFirstPage(e: DragEnd, items: seq<Build>, perPage: int)
    ensures PageDragEnd(e, items, 1, perPage) == Reorder(e, items)
  {
    if PageDragEnd(e, items, 1, perPage).Some? {
      var moved := PageDragEndMoves(e, items, 1, perPage);
      assert PageStart(1, perPage) == 0;
      RenumberFromShifts(moved, 0);
    }
  }

  /** Both handlers renumber the same moved list. */
  lemma PageDragEndMoves(e: DragEnd, items: seq<Build>, page: int, perPage: int) returns (moved: seq<Build>)
    requires PageDragEnd(e, items, page, perPage).Some?
    ensures PageDragEnd(e, items, page, perPage) == Some(RenumberFrom(moved, PageStart(page, perPage)))
    ensures Reorder(e, items) == Some(Renumber(moved))
  {
    moved := ArrayMove(items, FindIndex(items, HasId(e.active)), FindIndex(items, HasId(e.over.value)));
  }

  /** Numbering from `base + 1` is numbering from 1 shifted by `base`. */
  lemma RenumberFromShifts(s: seq<Build>, base: int)
    ensures var r := RenumberFrom(s, base);
            |r| == |Renumber(s)| && forall i :: 0 <= i < |r| ==> r[i] == Renumber(s)[i].(order := Renumber(s)[i].order + base)
    ensures base == 0 ==> RenumberFrom(s, base) == Renumber(s)
  {
    if base == 0 {
      assert forall i :: 0 <= i < |s| ==> RenumberFrom(s, base)[i] == Renumber(s)[i];
    }
  }

  /** The updates the page's reorder mutation sends: one per item, changed or not, in list order. */
  function AllUpdates(items: seq<Build>): (r: seq<OrderUpdate>)
    ensures |r| == |items|
    ensures forall i :: 0 <= i < |items| ==> r[i] == OrderUpdate(items[i].id, items[i].order)
  {
    seq(|items|, i requires 0 <= i < |items| => OrderUpdate(items[i].id, items[i].order))
  }

  /** The mutation's loop: an update for every item. */
  method ReorderBatch(items: seq<Build>) returns (batch: seq<OrderUpdate>)
    ensures batch == AllUpdates(items)
  {
    batch := [];
    for i := 0 to |items|
      invariant batch == AllUpdates(items[..i])
    {
      assert items[..i + 1] == items[..i] + [items[i]];
      batch := batch + [OrderUpdate(items[i].id, items[i].order)];
    }
    assert items[..|items|] == items;
  }

  /**
   * Everything the build list page would send for the same list is sent here
   * too; here an item whose id and order are unchanged is sent as well.
   */
  lemma AllUpdatesCoverChanged(items: seq<Build>, original: seq<Build>, u: OrderUpdate)
    ensures u in BuildsPage.ChangedUpdates(items, original, |items|) ==> u in AllUpdates(items)
    ensures |BuildsPage.ChangedUpdates(items, original, |items|)| <= |AllUpdates(items)|
  {
    BuildsPage.BatchHoldsChangedPositions(items, original, |items|, u);
    BuildsPage.BatchSize(items, original, |items|);
    if u in BuildsPage.ChangedUpdates(items, original, |items|) {
      var i :| 0 <= i < |items| && BuildsPage.Changed(items, original, i) && u == OrderUpdate(items[i].id, items[i].order);
      assert AllUpdates(items)[i] == u;
    }
  }

  /** `characterPlans.slice(0, perPage - items.length)`: the pending builds shown under the page's builds. */
  function ShownPending<T>(pendings: seq<T>, perPage: int, itemsCount: nat): (r: seq<T>)
    ensures |r| <= |pendings| && r == pendings[..|r|]
  {
    var r := Slice(pendings, 0, perPage - itemsCount);
    assert r == pendings[..|r|];
    r
  }

  /**
   * While the page holds at most `perPage` builds, builds and pending builds
   * together fill at most one page, and as many pending builds are shown as
   * fit.
   */
  lemma PendingFillsPage<T>(pendings: seq<T>, perPage: int, itemsCount: nat)
    requires itemsCount <= perPage
    ensures var r := ShownPending(pendings, perPage, itemsCount);
            itemsCount + |r| <= perPage &&
            |r| == if |pendings| < perPage - itemsCount then |pendings| else perPage - itemsCount
  {
  }

  /** The effect on an empty page: go to the last page, but only from a page after the first. */
  function EmptyPageRedirect(itemsCount: nat, page: int, totalPages: int): (target: Option<int>)
    ensures target.Some? <==> itemsCount == 0 && page > 1
    ensures target.Some? ==> target.value == totalPages
  {
    if itemsCount == 0 && page > 1 then Some(totalPages) else None
  }

  /**
   * When the server pages a list as `PageSlice` does and counts its pages as
   * `TotalPages` does, an empty page after the first is past the end, and
   * the redirect lands on a page that shows builds, if there are any.
   */
  lemma EmptyPageRedirectLandsOnBuilds<T>(all: seq<T>, page: int, perPage: int)
    requires perPage > 0 && page > 1
    requires PageSlice(all, page, perPage) == []
    ensures var tp := TotalPages(|all|, perPage);
            EmptyPageRedirect(0, page, tp) == Some(tp) && page > tp &&
            (|all| > 0 ==> PageSlice(all, tp, perPage) != [])
  {
    var tp := TotalPages(|all|, perPage);
    if page <= tp {
      RedirectShowsItems(all, page, perPage);
    }
    if |all| > 0 {
      LastPageNonEmpty(all, perPage);
    }
  }
}
