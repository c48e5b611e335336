/**
 * The store of plans waiting for creation used by the paged plan list. Both
 * actions hand the store a new list and leave the old one as it was, which
 * the value semantics of `seq` gives here.
 */
module PendingPlansStore {
  import opened Lists
  import opened Entities

  /** `add`, with `now` the temporary id: the new plan goes last. */
  function Add(items: seq<PendingPlan>, now: string, characterId: string, order: int): (r: seq<PendingPlan>)
    ensures |r| == |items| + 1 && r[..|items|] == items
    ensures r[|items|] == PendingPlan(now, characterId, order)
  {
    items + [PendingPlan(now, characterId, order)]
  }

  function HasOtherId(id: string): PendingPlan -> bool {
    (q: PendingPlan) => q.id != id
  }

  /** `remove`: every item with the plan's id is dropped. */
  function Remove(items: seq<PendingPlan>, plan: PendingPlan): (r: seq<PendingPlan>)
    ensures |r| <= |items|
    ensures forall i :: 0 <= i < |r| ==> r[i] in items && r[i].id != plan.id
    ensures forall i :: 0 <= i < |items| && items[i].id != plan.id ==> items[i] in r
  {
    Lists.Filter(items, HasOtherId(plan.id))
  }

  /**
   * `remove` keeps the others in their order: it works item by item over a
   * concatenation, keeping an item exactly when its id differs.
   */
  lemma RemoveKeepsOrder(a: seq<PendingPlan>, b: seq<PendingPlan>, x: PendingPlan, plan: PendingPlan)
    ensures Remove(a + b, plan) == Remove(a, plan) + Remove(b, plan)
    ensures Remove([x], plan) == if x.id != plan.id then [x] else []
  {
    FilterAppend(a, b, HasOtherId(plan.id));
    assert [x][1..] == [];
  }

  /** Removing a plan just added under a fresh id gives back the list. */
  lemma RemoveUndoesAdd(items: seq<PendingPlan>, now: string, characterId: string, order: int)
    requires forall i :: 0 <= i < |items| ==> items[i].id != now
    ensures Remove(Add(items, now, characterId, order), PendingPlan(now, characterId, order)) == items
  {
    var plan := PendingPlan(now, characterId, order);
    FilterAll(items, HasOtherId(now));
    RemoveKeepsOrder(items, [plan], plan, plan);
    assert items + [] == items;
  }
}
