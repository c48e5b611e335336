/**
 * The build list page: the builds and the pending new builds merged into one
 * list sorted by order, with a "create" sentinel, the filter kept in the URL
 * search, the values offered to filter by, and the batch of order updates
 * sent after a drag.
 */
module BuildsPage {
  import opened Wrappers
  import opened Lists
  import opened Entities
  import opened Filters
  import opened FilterPanels
  import opened RenderLists
  import opened HandleReorder

  const MAX_ITEMS: int := 130
  const MAX_PENDING_ITEMS: int := 10

  /** A build as the page fetches it: its id, its order and its character's id. */
  type Build = Item<string>

  /** The build as a plan with no artifact type plans, the shape the shared list code reads. */
  function AsPlan(b: Build): Plan {
    Plan(b.id, b.rest, b.order, [])
  }

  function AsPlans(items: seq<Build>): (r: seq<Plan>)
    ensures |r| == |items| && forall i :: 0 <= i < |items| ==> r[i] == AsPlan(items[i])
  {
    seq(|items|, i requires 0 <= i < |items| => AsPlan(items[i]))
  }

  /** The sentinel rule, on the unfiltered number of builds and of pending builds. */
  predicate SentinelShown(builds: nat, pending: nat) {
    builds <= MAX_ITEMS - pending && pending <= MAX_PENDING_ITEMS
  }

  /**
   * `getRenderItems`. Before the character dictionary has loaded, `characters`
   * is the empty map, and no build or pending build has an item.
   */
  function GetRenderItems(items: seq<Build>, pendings: seq<PendingPlan>, characters: map<string, Character>,
                          f: Filter, fuzzy: (string, string) -> bool): seq<RenderItem>
  {
    var c := CommittedItems(AsPlans(items), characters, SimplePass(f, fuzzy));
    var p := PendingItems(pendings, characters, SimplePass(f, fuzzy));
    Merged(c, p, SentinelShown(|items|, |pendings|), Create(None))
  }

  /** The list computed as the page does: filter and map both lists, concatenate, sort in place, push. */
  method ComputeRenderItems(items: seq<Build>, pendings: seq<PendingPlan>, characters: map<string, Character>,
                            f: Filter, fuzzy: (string, string) -> bool) returns (all: seq<RenderItem>)
    ensures all == GetRenderItems(items, pendings, characters, f, fuzzy)
  {
    var c := CommittedItems(AsPlans(items), characters, SimplePass(f, fuzzy));
    var p := PendingItems(pendings, characters, SimplePass(f, fuzzy));
    all := SortAndPush(c, p, SentinelShown(|items|, |pendings|), Create(None));
  }

  /**
   * The list holds the kept builds and pending builds sorted by order and
   * nothing else, then the sentinel exactly when the unfiltered counts leave
   * room, in last place.
   */
  lemma RenderItemsShape(items: seq<Build>, pendings: seq<PendingPlan>, characters: map<string, Character>,
                         f: Filter, fuzzy: (string, string) -> bool)
    ensures var c := CommittedItems(AsPlans(items), characters, SimplePass(f, fuzzy));
            var p := PendingItems(pendings, characters, SimplePass(f, fuzzy));
            var r := GetRenderItems(items, pendings, characters, f, fuzzy);
            var n := |c| + |p|;
            var shown := SentinelShown(|items|, |pendings|);
            |r| == n + (if shown then 1 else 0) &&
            SortedBy(r[..n], OrderOf) && multiset(r[..n]) == multiset(c + p) &&
            (shown <==> exists i :: 0 <= i < |r| && r[i].Create?) &&
            (shown ==> r[n] == Create(None))
  {
    var pass := SimplePass(f, fuzzy);
    ItemsHaveNoSentinel(AsPlans(items), pendings, characters, pass, pass);
    MergedShape(CommittedItems(AsPlans(items), characters, pass), PendingItems(pendings, characters, pass),
                SentinelShown(|items|, |pendings|), Create(None));
  }

  /** A build has an item iff its character is known and passes the filter. */
  lemma BuildListedIffPasses(items: seq<Build>, pendings: seq<PendingPlan>, characters: map<string, Character>,
                             f: Filter, fuzzy: (string, string) -> bool, b: Build)
    ensures (exists it :: it in GetRenderItems(items, pendings, characters, f, fuzzy) && it.Committed? && it.plan == AsPlan(b)) <==>
              b in items && b.rest in characters && SimpleCharacterPasses(f, characters[b.rest], fuzzy)
  {
    var r := GetRenderItems(items, pendings, characters, f, fuzzy);
    if b in items && b.rest in characters && SimpleCharacterPasses(f, characters[b.rest], fuzzy) {
      PassingBuildListed(items, pendings, characters, f, fuzzy, b);
    }
    if exists it :: it in r && it.Committed? && it.plan == AsPlan(b) {
      var it :| it in r && it.Committed? && it.plan == AsPlan(b);
      ListedBuildPasses(items, pendings, characters, f, fuzzy, b, it);
    }
  }

  lemma PassingBuildListed(items: seq<Build>, pendings: seq<PendingPlan>, characters: map<string, Character>,
                           f: Filter, fuzzy: (string, string) -> bool, b: Build)
    requires b in items && b.rest in characters && SimpleCharacterPasses(f, characters[b.rest], fuzzy)
    ensures Committed(AsPlan(b), characters[b.rest]) in GetRenderItems(items, pendings, characters, f, fuzzy)
  {
    var pass := SimplePass(f, fuzzy);
    var plans := AsPlans(items);
    var i :| 0 <= i < |items| && items[i] == b;
    assert plans[i] == AsPlan(b);
    MergedMembers(CommittedItems(plans, characters, pass), PendingItems(pendings, characters, pass),
                  SentinelShown(|items|, |pendings|), Create(None), Committed(AsPlan(b), characters[b.rest]));
  }

  lemma ListedBuildPasses(items: seq<Build>, pendings: seq<PendingPlan>, characters: map<string, Character>,
                          f: Filter, fuzzy: (string, string) -> bool, b: Build, it: RenderItem)
    requires it in GetRenderItems(items, pendings, characters, f, fuzzy) && it.Committed? && it.plan == AsPlan(b)
    ensures b in items && b.rest in characters && SimpleCharacterPasses(f, characters[b.rest], fuzzy)
  {
    var pass := SimplePass(f, fuzzy);
    var plans := AsPlans(items);
    var c := CommittedItems(plans, characters, pass);
    var q := PendingItems(pendings, characters, pass);
    MergedMembers(c, q, SentinelShown(|items|, |pendings|), Create(None), it);
    assert it !in q;
    var j :| 0 <= j < |c| && c[j] == it;
    var i :| 0 <= i < |plans| && plans[i] == AsPlan(b);
    assert items[i] == b;
  }

  /** A pending build has an item iff its character is known and passes the filter. */
  lemma PendingListedIffPasses(items: seq<Build>, pendings: seq<PendingPlan>, characters: map<string, Character>,
                               f: Filter, fuzzy: (string, string) -> bool, q: PendingPlan)
    ensures (exists it :: it in GetRenderItems(items, pendings, characters, f, fuzzy) && it.Pending? && it.pending == q) <==>
              q in pendings && q.characterId in characters && SimpleCharacterPasses(f, characters[q.characterId], fuzzy)
  {
    var pass := SimplePass(f, fuzzy);
    var c := CommittedItems(AsPlans(items), characters, pass);
    var p := PendingItems(pendings, characters, pass);
    var shown := SentinelShown(|items|, |pendings|);
    var r := GetRenderItems(items, pendings, characters, f, fuzzy);
    if q in pendings && q.characterId in characters && SimpleCharacterPasses(f, characters[q.characterId], fuzzy) {
      MergedMembers(c, p, shown, Create(None), Pending(q, characters[q.characterId], false));
    }
    if exists it :: it in r && it.Pending? && it.pending == q {
      var it :| it in r && it.Pending? && it.pending == q;
      MergedMembers(c, p, shown, Create(None), it);
      assert it !in c;
      var j :| 0 <= j < |p| && p[j] == it;
    }
  }

  // The order updates sent after a drag.

  /** Position `i` differs from the cached list: no cached item there, another id, or another order. */
  predicate Changed(items: seq<Build>, original: seq<Build>, i: int)
    requires 0 <= i < |items|
  {
    i >= |original| || original[i].id != items[i].id || original[i].order != items[i].order
  }

  /** The updates for the changed positions among the first `n`, in position order. */
  function ChangedUpdates(items: seq<Build>, original: seq<Build>, n: nat): seq<OrderUpdate>
    requires n <= |items|
  {
    if n == 0 then []
    else ChangedUpdates(items, original, n - 1) +
         (if Changed(items, original, n - 1) then [OrderUpdate(items[n - 1].id, items[n - 1].order)] else [])
  }

  /** The reorder mutation: one pass over the new list, adding an update for every changed position. */
  method ReorderBatch(items: seq<Build>, original: seq<Build>) returns (batch: seq<OrderUpdate>)
    ensures batch == ChangedUpdates(items, original, |items|)
  {
    batch := [];
    var i := 0;
    while i < |items|
      invariant 0 <= i <= |items|
      invariant batch == ChangedUpdates(items, original, i)
    {
      var it := items[i];
      if i >= |original| || original[i].id != it.id || original[i].order != it.order {
        batch := batch + [OrderUpdate(it.id, it.order)];
      }
      i := i + 1;
    }
  }

  /** An update is sent for a position iff that position changed, and carries the new id and order. */
  lemma {:induction false} BatchHoldsChangedPositions(items: seq<Build>, original: seq<Build>, n: nat, u: OrderUpdate)
    requires n <= |items|
    ensures u in ChangedUpdates(items, original, n) <==>
            exists i :: 0 <= i < n && Changed(items, original, i) && u == OrderUpdate(items[i].id, items[i].order)
  {
    if n > 0 {
      BatchHoldsChangedPositions(items, original, n - 1, u);
      var last := if Changed(items, original, n - 1) then [OrderUpdate(items[n - 1].id, items[n - 1].order)] else [];
      assert ChangedUpdates(items, original, n) == ChangedUpdates(items, original, n - 1) + last;
      if u in ChangedUpdates(items, original, n) && u !in ChangedUpdates(items, original, n - 1) {
        assert u in last;
        assert Changed(items, original, n - 1) && u == OrderUpdate(items[n - 1].id, items[n - 1].order);
      }
    }
  }

  /** At most one update per position, and none at all when the list equals the cached one. */
  lemma {:induction false} BatchSize(items: seq<Build>, original: seq<Build>, n: nat)
    requires n <= |items|
    ensures |ChangedUpdates(items, original, n)| <= n
    ensures n <= |original| && items[..n] == original[..n] ==> ChangedUpdates(items, original, n) == []
  {
    if n > 0 {
      BatchSize(items, original, n - 1);
      if n <= |original| && items[..n] == original[..n] {
        assert items[..n - 1] == original[..n - 1];
        assert items[n - 1] == items[..n][n - 1] == original[..n][n - 1] == original[n - 1];
      }
    }
  }

  /**
   * After a drag of a list whose orders were already 1..n, the batch holds
   * exactly the positions whose item moved: the new orders are the positions.
   */
  lemma DragSendsMovedPositions(e: DragEnd, original: seq<Build>, u: OrderUpdate)
    requires Reorder(e, original).Some?
    requires forall i :: 0 <= i < |original| ==> original[i].order == i + 1
    ensures var items := Reorder(e, original).value;
            u in ChangedUpdates(items, original, |items|) <==>
              exists i :: 0 <= i < |items| && items[i].id != original[i].id && u == OrderUpdate(items[i].id, i + 1)
  {
    var items := Reorder(e, original).value;
    assert |items| == |original| && forall i :: 0 <= i < |items| ==> items[i].order == i + 1;
    BatchHoldsChangedPositions(items, original, |items|, u);
    if u in ChangedUpdates(items, original, |items|) {
      var i :| 0 <= i < |items| && Changed(items, original, i) && u == OrderUpdate(items[i].id, items[i].order);
      assert items[i].id != original[i].id;
    }
    if exists i :: 0 <= i < |items| && items[i].id != original[i].id && u == OrderUpdate(items[i].id, i + 1) {
      var i :| 0 <= i < |items| && items[i].id != original[i].id && u == OrderUpdate(items[i].id, i + 1);
      assert Changed(items, original, i);
    }
  }

  // The build list page keeps its filter in the URL search.

  /** The page's search parameters; the arrays are kept as the sets they are built from. */
  datatype Search = Search(page: Option<int>, perPage: Option<int>, cName: Option<string>,
                           cElements: Option<set<string>>, cWeaponTypes: Option<set<string>>,
                           characters: Option<set<string>>)

  /** The filter the page reads from its search; the page has no specials filter. */
  function FilterOfSearch(s: Search): (f: Filter)
    ensures f.artifactTypeSpecials == map[]
  {
    Filter(s.cName.GetOr(""), s.cElements.GetOr({}), s.cWeaponTypes.GetOr({}), s.characters.GetOr({}), map[])
  }

  /** An empty selection is left out of the search. */
  function SetParam(given: Option<set<string>>, previous: Option<set<string>>): (r: Option<set<string>>)
    ensures given.None? ==> r == previous
    ensures given.Some? ==> r == if given.value == {} then None else given
  {
    if given.None? then previous
    else if |given.value| > 0 then given
    else None
  }

  /**
   * `changeFilter`: a field the patch carries is stored, or dropped when empty;
   * a field it leaves out keeps its search value; the page and page size stay.
   */
  function ChangeFilter(s: Search, p: Patch): (r: Search)
    ensures r.page == s.page && r.perPage == s.perPage
    ensures p.name.None? ==> r.cName == s.cName
    ensures p.name.Some? ==> r.cName == if p.name.value == "" then None else p.name
    ensures r.cElements == SetParam(p.elements, s.cElements)
    ensures r.cWeaponTypes == SetParam(p.weaponTypes, s.cWeaponTypes)
    ensures r.characters == SetParam(p.characters, s.characters)
  {
    s.(cName := if p.name.None? then s.cName else if |p.name.value| > 0 then p.name else None,
       cElements := SetParam(p.elements, s.cElements),
       cWeaponTypes := SetParam(p.weaponTypes, s.cWeaponTypes),
       characters := SetParam(p.characters, s.characters))
  }

  /**
   * Storing a patch in the search and reading the filter back is applying the
   * patch to the filter read before, except that the specials never reach the
   * search.
   */
  lemma ChangeFilterThenRead(s: Search, p: Patch)
    ensures FilterOfSearch(ChangeFilter(s, p)) == Apply(FilterOfSearch(s), p).(artifactTypeSpecials := map[])
  {
    var r := ChangeFilter(s, p);
    assert r.cName.GetOr("") == p.name.GetOr(s.cName.GetOr(""));
    SetParamRead(p.elements, s.cElements);
    SetParamRead(p.weaponTypes, s.cWeaponTypes);
    SetParamRead(p.characters, s.characters);
    var f := Apply(FilterOfSearch(s), p);
    assert FilterOfSearch(r) == Filter(f.name, f.elements, f.weaponTypes, f.characters, map[]);
  }

  /** A selection left out of the search reads back as the empty selection it was. */
  lemma SetParamRead(given: Option<set<string>>, previous: Option<set<string>>)
    ensures SetParam(given, previous).GetOr({}) == given.GetOr(previous.GetOr({}))
  {
  }

  /** The page's `filterEnabled`: like `isFiltersEnabled`, but without the specials, which the page has none of. */
  predicate PageFilterEnabled(f: Filter) {
    |f.name| > 0 || |f.elements| > 0 || |f.weaponTypes| > 0 || |f.characters| > 0
  }

  /**
   * For the filter read from the search, the page's test agrees with the
   * store's, and holds iff some filter parameter is stored in the search.
   */
  lemma PageFilterEnabledAgrees(s: Search)
    ensures PageFilterEnabled(FilterOfSearch(s)) == FiltersEnabled(FilterOfSearch(s))
    ensures PageFilterEnabled(FilterOfSearch(s)) <==>
              (s.cName.Some? && s.cName.value != "") || (s.cElements.Some? && s.cElements.value != {}) ||
              (s.cWeaponTypes.Some? && s.cWeaponTypes.value != {}) || (s.characters.Some? && s.characters.value != {})
  {
  }

  /** The page's available filters: the same reduce as the plan store's, over the builds. */
  function AvailableFilters(items: seq<Build>, characters: map<string, Character>): (a: Available)
    ensures AvailableValid(a)
  {
    AvailableUpTo(AsPlans(items), characters, |items|)
  }

  /**
   * Each offered character, weapon type and element comes from a build whose
   * character is known, and every such build offers its own; an absent
   * element is never offered.
   */
  lemma AvailableFromBuilds(items: seq<Build>, characters: map<string, Character>, x: string)
    ensures AvailableFilters(items, characters).characters.Has(x) <==>
              exists i :: 0 <= i < |items| && items[i].rest in characters && characters[items[i].rest].id == x
    ensures AvailableFilters(items, characters).weaponTypes.Has(x) <==>
              exists i :: 0 <= i < |items| && items[i].rest in characters && characters[items[i].rest].weaponType == x
    ensures AvailableFilters(items, characters).elements.Has(x) <==>
              x != "" && exists i :: 0 <= i < |items| && items[i].rest in characters && characters[items[i].rest].element == x
  {
    var plans := AsPlans(items);
    AvailableMeaning(plans, characters, |items|, x);
    forall i | 0 <= i < |items|
      ensures KnownCharacter(plans, characters, i) <==> items[i].rest in characters
      ensures plans[i].character == items[i].rest
    {
    }
  }
}
