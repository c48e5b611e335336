/**
 * The plans query of the query-based client: the cached plan list, the id
 * map it is read through, and the reorder mutation, which sends the changed
 * orders in one batch and, on success, writes the returned orders into the
 * cache and re-sorts it.
 */
module PlansQuery {
  import opened Wrappers
  import opened Lists
  import opened ArraySort
  import opened Entities

  /** `createRecordsMap` over plans: id → plan, a later plan replacing an earlier one with the same id. */
  function PlansMap(plans: seq<Plan>): (m: map<string, Plan>)
    ensures forall id :: id in m <==> exists i :: 0 <= i < |plans| && plans[i].id == id
    ensures forall id :: id in m ==> m[id].id == id && m[id] in plans
  {
    if plans == [] then map[]
    else
      var m := PlansMap(plans[..|plans| - 1]);
      var last := plans[|plans| - 1];
      assert forall i :: 0 <= i < |plans| - 1 ==> plans[..|plans| - 1][i] == plans[i];
      m[last.id := last]
  }

  /** The updates for the first `n` reordered plans; `None` once a plan is missing from the map. */
  function BatchUpTo(reordered: seq<Plan>, byId: map<string, Plan>, n: nat): Option<seq<OrderUpdate>>
    requires n <= |reordered|
  {
    if n == 0 then Some([])
    else
      var prev := BatchUpTo(reordered, byId, n - 1);
      var p := reordered[n - 1];
      if prev.None? || p.id !in byId then None
      else if byId[p.id].order != p.order then Some(prev.value + [OrderUpdate(p.id, p.order)])
      else prev
  }

  /**
   * The mutation's loop: an update for each plan whose order differs from
   * the cached one. A plan the map lacks makes `original.order` throw; that
   * is the `None` result.
   */
  method ReorderBatch(reordered: seq<Plan>, byId: map<string, Plan>) returns (batch: Option<seq<OrderUpdate>>)
    ensures batch == BatchUpTo(reordered, byId, |reordered|)
  {
    var updates: seq<OrderUpdate> := [];
    for i := 0 to |reordered|
      invariant BatchUpTo(reordered, byId, i) == Some(updates)
    {
      var p := reordered[i];
      if p.id !in byId {
        BatchStaysFailed(reordered, byId, i + 1, |reordered|);
        return None;
      }
      if byId[p.id].order != p.order {
        updates := updates + [OrderUpdate(p.id, p.order)];
      }
    }
    batch := Some(updates);
  }

  lemma {:induction false} BatchStaysFailed(reordered: seq<Plan>, byId: map<string, Plan>, n: nat, m: nat)
    requires n <= m <= |reordered|
    requires BatchUpTo(reordered, byId, n).None?
    ensures BatchUpTo(reordered, byId, m).None?
    decreases m - n
  {
    if n < m {
      BatchStaysFailed(reordered, byId, n + 1, m);
    }
  }

  /**
   * The batch is built iff every reordered plan is in the map, and then it
   * holds an update exactly for the plans whose order changed, with the new
   * order.
   */
  lemma {:induction false} BatchMeaning(reordered: seq<Plan>, byId: map<string, Plan>, n: nat, u: OrderUpdate)
    requires n <= |reordered|
    ensures BatchUpTo(reordered, byId, n).Some? <==> forall i :: 0 <= i < n ==> reordered[i].id in byId
    ensures BatchUpTo(reordered, byId, n).Some? ==>
              (u in BatchUpTo(reordered, byId, n).value <==>
                 exists i :: 0 <= i < n && byId[reordered[i].id].order != reordered[i].order &&
                             u == OrderUpdate(reordered[i].id, reordered[i].order))
  {
    if n > 0 {
      BatchMeaning(reordered, byId, n - 1, u);
      var prev := BatchUpTo(reordered, byId, n - 1);
      if prev.None? {
        assert !(reordered[n - 1 - 0].id in byId && forall i :: 0 <= i < n - 1 ==> reordered[i].id in byId);
      }
    }
  }

  /** `!res.some(r => r.status !== 200)`: the mutation succeeds only when every response is 200. */
  function AllOk(statuses: seq<int>): (ok: bool)
    ensures ok <==> forall i :: 0 <= i < |statuses| ==> statuses[i] == 200
  {
    if statuses == [] then true
    else statuses[0] == 200 && AllOk(statuses[1..])
  }

  /** The orders the response returns, by id, a later entry winning. */
  function ResponseOrders(res: seq<OrderUpdate>): (m: map<string, int>)
    ensures forall id :: id in m <==> exists i :: 0 <= i < |res| && res[i].id == id
    ensures forall id :: id in m ==> exists i :: 0 <= i < |res| && res[i] == OrderUpdate(id, m[id])
  {
    if res == [] then map[]
    else
      var m := ResponseOrders(res[..|res| - 1]);
      var last := res[|res| - 1];
      assert forall i :: 0 <= i < |res| - 1 ==> res[..|res| - 1][i] == res[i];
      m[last.id := last.order]
  }

  /** A cached plan with the order the response gives it, if it gives one. */
  function WithResponseOrder(p: Plan, m: map<string, int>): (r: Plan)
    ensures r == if p.id in m then p.(order := m[p.id]) else p
  {
    if p.id in m && p.order != m[p.id] then p.(order := m[p.id]) else p
  }

  /** The draft after its loop: every plan with its response order. */
  function WithResponseOrders(data: seq<Plan>, m: map<string, int>): (r: seq<Plan>)
    ensures |r| == |data| && forall i :: 0 <= i < |data| ==> r[i] == WithResponseOrder(data[i], m)
  {
    seq(|data|, i requires 0 <= i < |data| => WithResponseOrder(data[i], m))
  }

  /** The draft's loop then its in-place sort: the cache the success handler writes. */
  function Reordered(data: seq<Plan>, m: map<string, int>): seq<Plan> {
    SortBy(WithResponseOrders(data, m), PlanOrder)
  }

  /** The success handler on the draft array: update each plan's order, then sort in place. */
  method ApplyResponse(a: array<Plan>, m: map<string, int>)
    modifies a
    ensures a[..] == Reordered(old(a[..]), m)
  {
    ghost var orig := a[..];
    for i := 0 to a.Length
      invariant forall j :: 0 <= j < i ==> a[j] == WithResponseOrder(orig[j], m)
      invariant forall j :: i <= j < a.Length ==> a[j] == orig[j]
    {
      var it := a[i];
      if it.id in m && it.order != m[it.id] {
        a[i] := it.(order := m[it.id]);
      }
    }
    assert a[..] == WithResponseOrders(orig, m);
    SortInPlace(a, PlanOrder);
  }

  /**
   * After a successful reorder the cache holds the same plans, with the
   * response's order for each plan it names and the old order for the rest,
   * sorted by order.
   */
  lemma ReorderedMeaning(data: seq<Plan>, m: map<string, int>)
    ensures var r := Reordered(data, m);
            |r| == |data| && SortedBy(r, PlanOrder) &&
            multiset(r) == multiset(WithResponseOrders(data, m)) &&
            forall p :: p in r <==> p in WithResponseOrders(data, m)
  {
    var updated := WithResponseOrders(data, m);
    SortBySortedPermutation(updated, PlanOrder);
    var r := Reordered(data, m);
    forall p
      ensures p in r <==> p in updated
    {
      assert p in r <==> p in multiset(r);
      assert p in updated <==> p in multiset(updated);
    }
  }

  /** A mutation's status, as the mutation cache reports it. */
  datatype MutationStatus = Idle | Pending | Success | Error

  /** `useReorderPlansIsPending`: the latest reorder mutation is in flight or failed; with none, false. */
  function ReorderIsPending(statuses: seq<MutationStatus>): (pending: bool)
    ensures statuses == [] ==> !pending
    ensures statuses != [] ==> (pending <==> statuses[|statuses| - 1].Pending? || statuses[|statuses| - 1].Error?)
  {
    if statuses == [] then false
    else !(statuses[|statuses| - 1] in {Idle, Success})
  }
}
