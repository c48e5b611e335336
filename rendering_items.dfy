/**
 * The context-based plan list: committed and pending plans merged and sorted,
 * the "create" sentinel with the committed count, and a pagination that keeps
 * every pending item so that its creation can be followed, marking it visible
 * when it falls on the page.
 */
module RenderingItems {
  import opened Wrappers
  import opened Lists
  import opened Entities
  import opened Filters
  import opened RenderLists

  const MAX_ITEMS: int := 130
  const MAX_PENDING_ITEMS: int := 2

  /** The sentinel is offered while the committed and pending items leave room and few plans are pending. */
  predicate SentinelShown(committed: nat, pending: nat) {
    committed <= MAX_ITEMS - pending && pending <= MAX_PENDING_ITEMS
  }

  /** The unpaginated list. */
  function RenderItems(plans: seq<Plan>, pendings: seq<PendingPlan>, characters: map<string, Character>,
                       f: Filter, fuzzy: (string, string) -> bool): seq<RenderItem>
  {
    var c := CommittedItems(plans, characters, PlanPass(f, fuzzy));
    var p := PendingItems(pendings, characters, PlanPass(f, fuzzy));
    Merged(c, p, SentinelShown(|c|, |p|), Create(Some(|c|)))
  }

  /** The list computed as the provider does: filter and map, concatenate, sort in place, push the sentinel. */
  method BuildRenderItems(plans: seq<Plan>, pendings: seq<PendingPlan>, characters: map<string, Character>,
                          f: Filter, fuzzy: (string, string) -> bool) returns (items: seq<RenderItem>)
    ensures items == RenderItems(plans, pendings, characters, f, fuzzy)
  {
    var c := CommittedItems(plans, characters, PlanPass(f, fuzzy));
    var p := PendingItems(pendings, characters, PlanPass(f, fuzzy));
    items := SortAndPush(c, p, SentinelShown(|c|, |p|), Create(Some(|c|)));
  }

  /** Committed items are exactly the plans with a known character that pass the filter. */
  lemma CommittedAreKnownAndPassing(plans: seq<Plan>, pendings: seq<PendingPlan>, characters: map<string, Character>,
                                    f: Filter, fuzzy: (string, string) -> bool, p: Plan)
    ensures var items := RenderItems(plans, pendings, characters, f, fuzzy);
            (exists it :: it in items && it.Committed? && it.plan == p) <==>
              p in plans && p.character in characters && CharacterPasses(f, characters[p.character], Some(p), fuzzy)
  {
    var pass := PlanPass(f, fuzzy);
    var c := CommittedItems(plans, characters, pass);
    var q := PendingItems(pendings, characters, pass);
    var shown := SentinelShown(|c|, |q|);
    var items := RenderItems(plans, pendings, characters, f, fuzzy);
    if p in plans && p.character in characters && CharacterPasses(f, characters[p.character], Some(p), fuzzy) {
      var it := Committed(p, characters[p.character]);
      MergedMembers(c, q, shown, Create(Some(|c|)), it);
    }
    if exists it :: it in items && it.Committed? && it.plan == p {
      var it :| it in items && it.Committed? && it.plan == p;
      MergedMembers(c, q, shown, Create(Some(|c|)), it);
      assert it !in q;
      var j :| 0 <= j < |c| && c[j] == it;
    }
  }

  /** Pending items pass the filter without a plan, so a specials filter hides them all. */
  lemma SpecialsFilterHidesPending(plans: seq<Plan>, pendings: seq<PendingPlan>, characters: map<string, Character>,
                                   f: Filter, fuzzy: (string, string) -> bool)
    requires f.artifactTypeSpecials != map[]
    ensures forall it :: it in RenderItems(plans, pendings, characters, f, fuzzy) ==> !it.Pending?
  {
    var pass := PlanPass(f, fuzzy);
    var c := CommittedItems(plans, characters, pass);
    var q := PendingItems(pendings, characters, pass);
    var shown := SentinelShown(|c|, |q|);
    assert q == [] by {
      if q != [] {
        SpecialsFilterExcludesPlanless(f, q[0].character, fuzzy);
      }
    }
    forall it | it in RenderItems(plans, pendings, characters, f, fuzzy)
      ensures !it.Pending?
    {
      MergedMembers(c, q, shown, Create(Some(|c|)), it);
      if it in c {
        var j :| 0 <= j < |c| && c[j] == it;
      }
    }
  }

  /**
   * The sentinel is last and counts the committed plans exactly when at most
   * two pending items are shown and they leave room under 130 items.
   */
  lemma SentinelRule(plans: seq<Plan>, pendings: seq<PendingPlan>, characters: map<string, Character>,
                     f: Filter, fuzzy: (string, string) -> bool)
    ensures var items := RenderItems(plans, pendings, characters, f, fuzzy);
            var c := CommittedItems(plans, characters, PlanPass(f, fuzzy));
            var q := PendingItems(pendings, characters, PlanPass(f, fuzzy));
            (items != [] && items[|items| - 1] == Create(Some(|c|))) <==>
              |c| + |q| <= MAX_ITEMS && |q| <= MAX_PENDING_ITEMS
  {
    var pass := PlanPass(f, fuzzy);
    var c := CommittedItems(plans, characters, pass);
    var q := PendingItems(pendings, characters, pass);
    var shown := SentinelShown(|c|, |q|);
    var items := RenderItems(plans, pendings, characters, f, fuzzy);
    ItemsHaveNoSentinel(plans, pendings, characters, pass, pass);
    MergedShape(c, q, shown, Create(Some(|c|)));
    if !shown && items != [] {
      assert !items[|items| - 1].Create?;
    }
  }

  // Pagination.

  /** Whether index `i` lies on the page `[start, end)`. */
  predicate InBounds(start: int, end: int, i: int) {
    start <= i < end
  }

  /** The filter step: pending items and items on the page, `i0` being the index of `items[0]`. */
  function KeepPendingAndPage(items: seq<RenderItem>, start: int, end: int, i0: int): (r: seq<RenderItem>)
    ensures |r| <= |items|
  {
    if items == [] then []
    else
      (if items[0].Pending? || InBounds(start, end, i0) then [items[0]] else [])
      + KeepPendingAndPage(items[1..], start, end, i0 + 1)
  }

  /** The map step: each pending item's `visible` set from ITS INDEX IN THE FILTERED LIST, `j0` being that of `kept[0]`. */
  function MarkByFilteredIndex(kept: seq<RenderItem>, start: int, end: int, j0: int): (r: seq<RenderItem>)
    ensures |r| == |kept|
  {
    if kept == [] then []
    else
      [if kept[0].Pending? then kept[0].(visible := InBounds(start, end, j0)) else kept[0]]
      + MarkByFilteredIndex(kept[1..], start, end, j0 + 1)
  }

  /** The pagination as written: filter on the original index, then map on the filtered index. */
  function PaginateAsWritten(items: seq<RenderItem>, page: int, perPage: int): seq<RenderItem> {
    var start := perPage * (page - 1);
    MarkByFilteredIndex(KeepPendingAndPage(items, start, perPage * page, 0), start, perPage * page, 0)
  }

  /** The pagination with `visible` taken from each item's index in the unpaginated list. */
  function PaginateFrom(items: seq<RenderItem>, start: int, end: int, i0: int): (r: seq<RenderItem>)
    ensures |r| <= |items|
  {
    if items == [] then []
    else
      var it := items[0];
      (if it.Pending? then [it.(visible := InBounds(start, end, i0))]
       else if InBounds(start, end, i0) then [it]
       else [])
      + PaginateFrom(items[1..], start, end, i0 + 1)
  }

  function Paginate(items: seq<RenderItem>, page: int, perPage: int): seq<RenderItem> {
    PaginateFrom(items, perPage * (page - 1), perPage * page, 0)
  }

  /** An item as the page shows it: a pending item only when visible. */
  predicate Shown(it: RenderItem) {
    !it.Pending? || it.visible
  }

  /** The items a page should show: those whose index lies on the page, pending ones marked visible. */
  function OnPage(items: seq<RenderItem>, start: int, end: int, i0: int): seq<RenderItem> {
    if items == [] then []
    else
      (if InBounds(start, end, i0) then [if items[0].Pending? then items[0].(visible := true) else items[0]] else [])
      + OnPage(items[1..], start, end, i0 + 1)
  }

  /**
   * The corrected pagination shows exactly the items on the page, in order,
   * and keeps every other pending item hidden.
   */
  lemma {:induction false} PaginateShowsPage(items: seq<RenderItem>, start: int, end: int, i0: int)
    ensures Lists.Filter(PaginateFrom(items, start, end, i0), Shown) == OnPage(items, start, end, i0)
  {
    if items != [] {
      PaginateShowsPage(items[1..], start, end, i0 + 1);
      var head := if items[0].Pending? then [items[0].(visible := InBounds(start, end, i0))]
                  else if InBounds(start, end, i0) then [items[0]] else [];
      var rest := PaginateFrom(items[1..], start, end, i0 + 1);
      assert PaginateFrom(items, start, end, i0) == head + rest;
      FilterAppend(head, rest, Shown);
    }
  }

  /** With the page inside the list, the items it should show are the slice `[start, end)`, pending ones marked visible. */
  lemma {:induction false} OnPageIsSlice(items: seq<RenderItem>, start: int, end: int)
    requires 0 <= start <= end <= |items|
    ensures OnPage(items, start, end, 0) == MarkVisible(items[start..end])
  {
    OnPageFrom(items, start, end, 0);
  }

  function MarkVisible(s: seq<RenderItem>): (r: seq<RenderItem>)
    ensures |r| == |s|
  {
    if s == [] then [] else [if s[0].Pending? then s[0].(visible := true) else s[0]] + MarkVisible(s[1..])
  }

  lemma {:induction false} OnPageFrom(items: seq<RenderItem>, start: int, end: int, i0: int)
    requires i0 <= start <= end <= i0 + |items|
    ensures OnPage(items, start, end, i0) == MarkVisible(items[start - i0..end - i0])
    decreases |items|
  {
    if items != [] {
      if i0 < start {
        OnPageFrom(items[1..], start, end, i0 + 1);
        OnPageBefore(items, start, end, i0);
      } else if start < end {
        OnPageFrom(items[1..], start + 1, end, i0 + 1);
        OnPageShift(items[1..], start, end, i0 + 1);
        OnPageAtStart(items, start, end);
      } else {
        OnPageEmpty(items, start, end, i0);
      }
    }
  }

  /** An item before the page is dropped and its slice moves down by one. */
  lemma OnPageBefore(items: seq<RenderItem>, start: int, end: int, i0: int)
    requires i0 < start <= end <= i0 + |items|
    ensures OnPage(items, start, end, i0) == OnPage(items[1..], start, end, i0 + 1)
    ensures items[1..][start - i0 - 1..end - i0 - 1] == items[start - i0..end - i0]
  {
    assert !InBounds(start, end, i0);
  }

  /** The first item of the page is shown first, marked visible when pending. */
  lemma OnPageAtStart(items: seq<RenderItem>, start: int, end: int)
    requires start < end <= start + |items|
    ensures OnPage(items, start, end, start) == [MarkVisible(items[..1])[0]] + OnPage(items[1..], start, end, start + 1)
    ensures MarkVisible(items[0..end - start]) == [MarkVisible(items[..1])[0]] + MarkVisible(items[1..][0..end - start - 1])
  {
    assert InBounds(start, end, start);
    var s := items[0..end - start];
    assert s[1..] == items[1..][0..end - start - 1];
    assert items[..1][1..] == [];
  }

  /** Below `i0` the window's start does not matter. */
  lemma {:induction false} OnPageShift(items: seq<RenderItem>, start: int, end: int, i0: int)
    requires start < i0
    ensures OnPage(items, i0, end, i0) == OnPage(items, start, end, i0)
    decreases |items|
  {
    if items != [] {
      OnPageShift(items[1..], start, end, i0 + 1);
      OnPageShiftStart(items[1..], i0, i0 + 1, end);
    }
  }

  lemma {:induction false} OnPageShiftStart(items: seq<RenderItem>, a: int, b: int, end: int)
    requires a < b
    ensures OnPage(items, a, end, b) == OnPage(items, b, end, b)
    decreases |items|
  {
    if items != [] {
      OnPageShiftStart(items[1..], a, b + 1, end);
      OnPageShiftStart(items[1..], b, b + 1, end);
    }
  }

  lemma {:induction false} OnPageEmpty(items: seq<RenderItem>, start: int, end: int, i0: int)
    requires end <= i0
    ensures OnPage(items, start, end, i0) == []
    decreases |items|
  {
    if items != [] {
      OnPageEmpty(items[1..], start, end, i0 + 1);
    }
  }

  /**
   * The written pagination shows an item that is not on the page: with one
   * item per page, page 2 of [committed, committed, pending] keeps the second
   * committed item and the pending one, and the pending item, second in the
   * filtered list, is marked visible although it is third in the list.
   */
  lemma PendingShownOffPage(c0: Plan, c1: Plan, q: PendingPlan, ch: Character)
    ensures var items := [Committed(c0, ch), Committed(c1, ch), Pending(q, ch, false)];
            PaginateAsWritten(items, 2, 1) == [Committed(c1, ch), Pending(q, ch, true)] &&
            Paginate(items, 2, 1) == [Committed(c1, ch), Pending(q, ch, false)] &&
            Lists.Filter(PaginateAsWritten(items, 2, 1), Shown) != MarkVisible(items[1..2])
  {
    var items := [Committed(c0, ch), Committed(c1, ch), Pending(q, ch, false)];
    var c1i, qi, qv := Committed(c1, ch), Pending(q, ch, false), Pending(q, ch, true);
    assert items[1..] == [c1i, qi];
    assert items[1..][1..] == [qi];
    assert items[1..][1..][1..] == [];
    assert KeepPendingAndPage(items[1..][1..], 1, 2, 2) == [qi];
    assert KeepPendingAndPage(items[1..], 1, 2, 1) == [c1i, qi];
    var kept := KeepPendingAndPage(items, 1, 2, 0);
    assert kept == [c1i, qi];
    assert kept[1..] == [qi];
    assert MarkByFilteredIndex(kept[1..], 1, 2, 1) == [qv];
    assert MarkByFilteredIndex(kept, 1, 2, 0) == [c1i, qv];
    assert PaginateFrom(items[1..][1..], 1, 2, 2) == [qi];
    assert PaginateFrom(items[1..], 1, 2, 1) == [c1i, qi];
    assert PaginateFrom(items, 1, 2, 0) == [c1i, qi];
    var shown := Lists.Filter([c1i, qv], Shown);
    assert [c1i, qv][1..] == [qv] && [qv][1..] == [];
    assert Shown(c1i) && Shown(qv);
    assert Lists.Filter([qv], Shown) == [qv];
    assert shown == [c1i, qv];
    assert items[1..2] == [c1i];
    assert MarkVisible(items[1..2]) == [c1i];
  }

  /** `total`: the unpaginated length, the sentinel included. */
  function Total(items: seq<RenderItem>): (total: nat)
    ensures total == |items|
  {
    |items|
  }
}
