/**
 * `useRenderingPlanItems`, the paged plan list of the newer store: the plans
 * whose character is known and passes the filter, in their input order, a
 * "create" sentinel while the list is short, and one page of the result.
 */
module RenderingItemsList {
  import opened Wrappers
  import opened Lists
  import opened Entities
  import opened Filters
  import opened RenderLists
  import opened Pagination

  /** Below this many plans the sentinel is offered. */
  const MAX_ITEMS: int := 80

  /** The unpaginated list: the kept plans, unsorted, then the sentinel while fewer than `MAX_ITEMS` are kept. */
  function ListItems(plans: seq<Plan>, characters: map<string, Character>, f: Filter,
                     fuzzy: (string, string) -> bool): seq<RenderItem>
  {
    var c := CommittedItems(plans, characters, PlanPass(f, fuzzy));
    c + (if |c| < MAX_ITEMS then [Create(None)] else [])
  }

  /** The list built as the hook does: filter and map, then push the sentinel. */
  method BuildListItems(plans: seq<Plan>, characters: map<string, Character>, f: Filter,
                        fuzzy: (string, string) -> bool) returns (items: seq<RenderItem>)
    ensures items == ListItems(plans, characters, f, fuzzy)
  {
    items := CommittedItems(plans, characters, PlanPass(f, fuzzy));
    if |items| < MAX_ITEMS {
      items := items + [Create(None)];
    }
  }

  /**
   * The list holds the kept plans in input order, with no sort, and ends with
   * the sentinel exactly when fewer than `MAX_ITEMS` plans are kept.
   */
  lemma ListShape(plans: seq<Plan>, characters: map<string, Character>, f: Filter, fuzzy: (string, string) -> bool)
    ensures var c := CommittedItems(plans, characters, PlanPass(f, fuzzy));
            var items := ListItems(plans, characters, f, fuzzy);
            items[..|c|] == c &&
            (|items| > |c| <==> |c| < MAX_ITEMS) &&
            (|c| < MAX_ITEMS ==> items[|c|] == Create(None) && |items| == |c| + 1)
  {
    var c := CommittedItems(plans, characters, PlanPass(f, fuzzy));
    assert ListItems(plans, characters, f, fuzzy)[..|c|] == c;
  }

  /** With every plan kept, item `i` is plan `i`: the list is not reordered. */
  lemma ListKeepsPlanOrder(plans: seq<Plan>, characters: map<string, Character>, f: Filter,
                           fuzzy: (string, string) -> bool)
    requires forall i :: 0 <= i < |plans| ==>
               plans[i].character in characters && CharacterPasses(f, characters[plans[i].character], Some(plans[i]), fuzzy)
    ensures var items := ListItems(plans, characters, f, fuzzy);
            |plans| <= |items| && forall i :: 0 <= i < |plans| ==> items[i].Committed? && items[i].plan == plans[i]
  {
    CommittedKeepsOrder(plans, characters, PlanPass(f, fuzzy));
    ListShape(plans, characters, f, fuzzy);
  }

  /** `slice(perPage * (page - 1), perPage * (page - 1) + perPage)`. */
  function ListPage(items: seq<RenderItem>, page: int, perPage: int): (r: seq<RenderItem>)
    ensures perPage >= 0 ==> |r| <= perPage
    ensures r == PageSlice(items, page, perPage)
  {
    var start := perPage * (page - 1);
    assert start + perPage == perPage * page;
    if perPage >= 0 then SliceWindowBound(|items|, start, perPage); Slice(items, start, start + perPage)
    else Slice(items, start, start + perPage)
  }

  /** The effect that keeps the shared total in step with the list: the length, sentinel included. */
  function SyncedTotal(total: int, items: seq<RenderItem>): (t: int)
    ensures t == |items|
    ensures total == |items| ==> t == total
  {
    if total != |items| then |items| else total
  }
}
