/**
 * The plans of the atom-based client: the cached plan list and the create,
 * update and delete writers on it, the id map read from it, the reorder
 * mutation, and the list the plan cards are drawn from.
 */
module PlansAtoms {
  import opened Wrappers
  import opened Lists
  import opened ArraySort
  import opened JsCollections
  import opened Entities

  /** `createPlanAtom`: the plan appended; nothing while the cache is empty. */
  function CreatePlan(data: Option<seq<Plan>>, plan: Plan): (r: Option<seq<Plan>>)
    ensures data.None? ==> r.None?
    ensures data.Some? ==> r == Some(data.value + [plan])
  {
    if data.None? then None else Some(data.value + [plan])
  }

  /** `updatePlanAtom`: every plan with the id replaced; nothing while the cache is empty. */
  function UpdatePlan(data: Option<seq<Plan>>, plan: Plan): (r: Option<seq<Plan>>)
    ensures data.None? <==> r.None?
    ensures data.Some? ==> (|r.value| == |data.value| &&
                            forall i :: 0 <= i < |data.value| ==>
                              r.value[i].id == data.value[i].id &&
                              r.value[i] == (if data.value[i].id == plan.id then plan else data.value[i]))
  {
    if data.None? then None
    else Some(seq(|data.value|, i requires 0 <= i < |data.value| =>
                    if data.value[i].id == plan.id then plan else data.value[i]))
  }

  function HasOtherId(id: string): Plan -> bool {
    (p: Plan) => p.id != id
  }

  /** `deletePlanAtom`: every plan with the id removed, the others in order; nothing while the cache is empty. */
  function DeletePlan(data: Option<seq<Plan>>, plan: Plan): (r: Option<seq<Plan>>)
    ensures data.None? <==> r.None?
    ensures data.Some? ==> forall p :: p in r.value <==> p in data.value && p.id != plan.id
  {
    if data.None? then None else Some(Lists.Filter(data.value, HasOtherId(plan.id)))
  }

  /** Deleting a plan just created, whose id was not cached, gives back the cache. */
  lemma DeleteUndoesCreate(data: seq<Plan>, plan: Plan)
    requires forall i :: 0 <= i < |data| ==> data[i].id != plan.id
    ensures DeletePlan(CreatePlan(Some(data), plan), plan) == Some(data)
  {
    FilterAll(data, HasOtherId(plan.id));
    FilterAppend(data, [plan], HasOtherId(plan.id));
    assert [plan][1..] == [];
    assert Lists.Filter([plan], HasOtherId(plan.id)) == [];
    assert data + [] == data;
  }

  /** `plansAtom`: a `Map` filled by `set(id, plan)` in list order. */
  function ById(items: seq<Plan>): (m: OMap<string, Plan>)
    ensures m.Valid()
  {
    if items == [] then EmptyMap()
    else ById(items[..|items| - 1]).Set(items[|items| - 1].id, items[|items| - 1])
  }

  /** The atom's loop over the cached plans (none when the cache is empty). */
  method PlansAtom(data: Option<seq<Plan>>) returns (m: OMap<string, Plan>)
    ensures m == ById(data.GetOr([]))
  {
    var items := data.GetOr([]);
    m := EmptyMap();
    for i := 0 to |items|
      invariant m == ById(items[..i])
    {
      assert items[..i + 1][..i] == items[..i];
      m := m.Set(items[i].id, items[i]);
    }
    assert items[..|items|] == items;
  }

  /** The position of the last plan with id `id`, or -1. */
  function LastWithId(items: seq<Plan>, id: string): (r: int)
    ensures -1 <= r < |items|
    ensures r >= 0 ==> items[r].id == id && forall j :: r < j < |items| ==> items[j].id != id
    ensures r < 0 ==> forall j :: 0 <= j < |items| ==> items[j].id != id
  {
    if items == [] then -1
    else if items[|items| - 1].id == id then |items| - 1
    else LastWithId(items[..|items| - 1], id)
  }

  /** The map has an entry for each id of the list, holding the last plan with that id. */
  lemma {:induction false} ByIdMeaning(items: seq<Plan>, id: string)
    ensures ById(items).Has(id) <==> LastWithId(items, id) >= 0
    ensures ById(items).Has(id) ==> ById(items).entries[id] == items[LastWithId(items, id)]
  {
    if items != [] {
      var n := |items| - 1;
      ByIdMeaning(items[..n], id);
      if items[n].id != id && LastWithId(items[..n], id) >= 0 {
        assert items[..n][LastWithId(items[..n], id)] == items[LastWithId(items, id)];
      }
    }
  }

  /**
   * The success handler: position `i` takes the sent plan only when the ids
   * differ; a plan that stayed in place keeps the cached value, order included.
   */
  function AfterReorder(data: Option<seq<Plan>>, reordered: seq<Plan>): (r: Option<seq<Plan>>)
    ensures data.None? <==> r.None?
    ensures data.Some? ==> (|r.value| == |data.value| &&
                            forall i :: 0 <= i < |data.value| ==>
                              r.value[i] == (if i < |reordered| && data.value[i].id != reordered[i].id
                                             then reordered[i] else data.value[i]))
  {
    if data.None? then None
    else Some(seq(|data.value|, i requires 0 <= i < |data.value| =>
                    if i < |reordered| && data.value[i].id != reordered[i].id then reordered[i] else data.value[i]))
  }

  /**
   * After the handler every position shows the sent plan's id, but a plan
   * that kept its position keeps its cached order even when the batch
   * changed it.
   */
  lemma AfterReorderIds(data: seq<Plan>, reordered: seq<Plan>, i: nat)
    requires |reordered| == |data| && i < |data|
    ensures AfterReorder(Some(data), reordered).value[i].id == reordered[i].id
    ensures data[i].id == reordered[i].id ==> AfterReorder(Some(data), reordered).value[i].order == data[i].order
  {
  }

  /** `plansArrayAtom`: the mutation's plans while it runs, else the map's values, sorted by order descending. */
  function PlansArray(variables: Option<seq<Plan>>, byId: OMap<string, Plan>): seq<Plan>
    requires byId.Valid()
  {
    SortBy(if variables.Some? then variables.value else byId.Values(), Negated(PlanOrder))
  }

  /** The atom as written: copy the values into an array and sort it in place. */
  method ComputePlansArray(variables: Option<seq<Plan>>, byId: OMap<string, Plan>) returns (items: seq<Plan>)
    requires byId.Valid()
    ensures items == PlansArray(variables, byId)
  {
    var src := if variables.Some? then variables.value else byId.Values();
    var a := new Plan[|src|](i requires 0 <= i < |src| => src[i]);
    assert a[..] == src;
    SortInPlace(a, Negated(PlanOrder));
    items := a[..];
  }

  /** The cards are drawn highest order first, and no plan is lost or added. */
  lemma PlansArrayDescending(variables: Option<seq<Plan>>, byId: OMap<string, Plan>)
    requires byId.Valid()
    ensures var r := PlansArray(variables, byId);
            var src := if variables.Some? then variables.value else byId.Values();
            multiset(r) == multiset(src) &&
            forall i, j :: 0 <= i < j < |r| ==> r[i].order >= r[j].order
  {
    var src := if variables.Some? then variables.value else byId.Values();
    SortByDescending(src, PlanOrder);
    var r := PlansArray(variables, byId);
    forall i, j | 0 <= i < j < |r|
      ensures r[i].order >= r[j].order
    {
      assert PlanOrder(r[i]) >= PlanOrder(r[j]);
    }
  }
}
