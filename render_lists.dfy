/**
 * The item lists the plan and build pages render: committed plans and pending
 * plans whose character is known and passes the filter, merged and sorted by
 * order, followed by a "create" sentinel when more plans may be added.
 */
module RenderLists {
  import opened Wrappers
  import opened Lists
  import opened ArraySort
  import opened Entities
  import opened Filters

  /**
   * One rendered item. Every variant keeps the character it was resolved to.
   * The sentinel of the context-based plan list counts the committed plans;
   * the sentinels of the other lists carry no count.
   */
  datatype RenderItem =
    | Committed(plan: Plan, character: Character)
    | Pending(pending: PendingPlan, character: Character, visible: bool)
    | Create(plansCount: Option<nat>)

  /**
   * The sort key. The sentinel's order (`Infinity`) is never compared: it is
   * pushed after the sort.
   */
  function OrderOf(it: RenderItem): int {
    if it.Committed? then it.plan.order
    else if it.Pending? then it.pending.order
    else 0
  }

  /** A per-character test, given the plan when there is one. */
  type Pass = (Character, Option<Plan>) -> bool

  /** The plan lists' test: the full character filter, given the plan when there is one. */
  function PlanPass(f: Filter, fuzzy: (string, string) -> bool): Pass {
    (c: Character, p: Option<Plan>) => CharacterPasses(f, c, p, fuzzy)
  }

  /** The test of the atom-based plan list and of the build list: no specials part, the plan is not read. */
  function SimplePass(f: Filter, fuzzy: (string, string) -> bool): Pass {
    (c: Character, p: Option<Plan>) => SimpleCharacterPasses(f, c, fuzzy)
  }

  /**
   * `plans.filter(...).map(...)`: a committed item for each plan whose
   * character is known and passes, in plan order.
   */
  function CommittedItems(plans: seq<Plan>, characters: map<string, Character>, pass: Pass): (r: seq<RenderItem>)
    ensures |r| <= |plans|
    ensures forall i :: 0 <= i < |r| ==>
              r[i].Committed? && r[i].plan in plans && r[i].plan.character in characters &&
              r[i].character == characters[r[i].plan.character] && pass(r[i].character, Some(r[i].plan))
    ensures forall p :: p in plans && p.character in characters && pass(characters[p.character], Some(p)) ==>
              Committed(p, characters[p.character]) in r
  {
    if plans == [] then []
    else
      var p := plans[0];
      (if p.character in characters && pass(characters[p.character], Some(p))
       then [Committed(p, characters[p.character])] else [])
      + CommittedItems(plans[1..], characters, pass)
  }

  /** Every plan's character is known and passes with the plan. */
  predicate AllKept(plans: seq<Plan>, characters: map<string, Character>, pass: Pass) {
    forall i :: 0 <= i < |plans| ==> plans[i].character in characters && pass(characters[plans[i].character], Some(plans[i]))
  }

  /** When every plan is kept, the committed items are the plans themselves, in input order. */
  lemma {:induction false} CommittedKeepsOrder(plans: seq<Plan>, characters: map<string, Character>, pass: Pass)
    requires AllKept(plans, characters, pass)
    ensures var r := CommittedItems(plans, characters, pass);
            |r| == |plans| && forall i :: 0 <= i < |plans| ==> r[i].plan == plans[i]
  {
    if plans != [] {
      assert AllKept(plans[1..], characters, pass) by {
        forall i | 0 <= i < |plans| - 1
          ensures plans[1..][i] == plans[i + 1]
        {
        }
      }
      CommittedKeepsOrder(plans[1..], characters, pass);
      assert plans[0].character in characters && pass(characters[plans[0].character], Some(plans[0]));
      CommittedCons(plans, characters, pass);
    }
  }

  /** A kept first plan leads the committed items, followed by the rest's. */
  lemma CommittedCons(plans: seq<Plan>, characters: map<string, Character>, pass: Pass)
    requires plans != [] && plans[0].character in characters && pass(characters[plans[0].character], Some(plans[0]))
    requires var rest := CommittedItems(plans[1..], characters, pass);
             |rest| == |plans| - 1 && forall i :: 0 <= i < |rest| ==> rest[i].plan == plans[1..][i]
    ensures var r := CommittedItems(plans, characters, pass);
            |r| == |plans| && forall i :: 0 <= i < |plans| ==> r[i].plan == plans[i]
  {
    var r := CommittedItems(plans, characters, pass);
    var rest := CommittedItems(plans[1..], characters, pass);
    assert r == [Committed(plans[0], characters[plans[0].character])] + rest;
    forall i | 0 < i < |plans|
      ensures r[i].plan == plans[i]
    {
      assert r[i] == rest[i - 1] && plans[1..][i - 1] == plans[i];
    }
  }

  /**
   * The pending plans' items: one for each pending plan whose character is
   * known and passes without a plan, not yet visible, in input order.
   */
  function PendingItems(pendings: seq<PendingPlan>, characters: map<string, Character>, pass: Pass): (r: seq<RenderItem>)
    ensures |r| <= |pendings|
    ensures forall i :: 0 <= i < |r| ==>
              r[i].Pending? && !r[i].visible && r[i].pending in pendings && r[i].pending.characterId in characters &&
              r[i].character == characters[r[i].pending.characterId] && pass(r[i].character, None)
    ensures forall q :: q in pendings && q.characterId in characters && pass(characters[q.characterId], None) ==>
              Pending(q, characters[q.characterId], false) in r
  {
    if pendings == [] then []
    else
      var q := pendings[0];
      (if q.characterId in characters && pass(characters[q.characterId], None)
       then [Pending(q, characters[q.characterId], false)] else [])
      + PendingItems(pendings[1..], characters, pass)
  }

  /** The list before the sentinel has none. */
  predicate NoSentinel(s: seq<RenderItem>) {
    forall i :: 0 <= i < |s| ==> !s[i].Create?
  }

  /** `all = committed.concat(pending); all.sort(by order); if (shown) all.push(sentinel)`. */
  function Merged(committed: seq<RenderItem>, pending: seq<RenderItem>, shown: bool, sentinel: RenderItem): seq<RenderItem> {
    SortBy(committed + pending, OrderOf) + (if shown then [sentinel] else [])
  }

  /** The concatenation sorted in place, then the sentinel pushed when shown. */
  method SortAndPush(committed: seq<RenderItem>, pending: seq<RenderItem>, shown: bool, sentinel: RenderItem)
    returns (r: seq<RenderItem>)
    ensures r == Merged(committed, pending, shown, sentinel)
  {
    var all := committed + pending;
    var a := new RenderItem[|all|](i requires 0 <= i < |all| => all[i]);
    assert a[..] == all;
    SortInPlace(a, OrderOf);
    r := a[..];
    if shown {
      r := r + [sentinel];
    }
  }

  /**
   * The merged list holds the committed and pending items sorted by order and
   * nothing else, then the sentinel exactly when it is shown, in last place.
   */
  lemma MergedShape(committed: seq<RenderItem>, pending: seq<RenderItem>, shown: bool, sentinel: RenderItem)
    requires NoSentinel(committed + pending) && sentinel.Create?
    ensures var r := Merged(committed, pending, shown, sentinel);
            var n := |committed| + |pending|;
            |r| == n + (if shown then 1 else 0) &&
            SortedBy(r[..n], OrderOf) &&
            multiset(r[..n]) == multiset(committed + pending) &&
            (shown <==> exists i :: 0 <= i < |r| && r[i].Create?) &&
            (shown ==> r[n] == sentinel)
  {
    var all := committed + pending;
    var sorted := SortBy(all, OrderOf);
    SortBySortedPermutation(all, OrderOf);
    var r := Merged(committed, pending, shown, sentinel);
    var n := |all|;
    assert r[..n] == sorted;
    forall i | 0 <= i < n
      ensures !r[i].Create?
    {
      assert r[i] in multiset(sorted);
      assert r[i] in all;
    }
    if shown {
      assert r[n] == sentinel && r[n].Create?;
    } else {
      assert r == sorted;
    }
  }

  /** The merged list holds the committed and pending items, and the sentinel when shown, and nothing else. */
  lemma MergedMembers(committed: seq<RenderItem>, pending: seq<RenderItem>, shown: bool, sentinel: RenderItem,
                      it: RenderItem)
    ensures it in Merged(committed, pending, shown, sentinel) <==>
              it in committed || it in pending || (shown && it == sentinel)
  {
    var all := committed + pending;
    var sorted := SortBy(all, OrderOf);
    SortBySortedPermutation(all, OrderOf);
    assert it in sorted <==> it in multiset(sorted);
    assert it in all <==> it in multiset(all);
    assert Merged(committed, pending, shown, sentinel) == sorted + (if shown then [sentinel] else []);
  }

  /**
   * The sort is stable: among items of equal order, committed items come
   * first, and each kind keeps its input order.
   */
  lemma EqualOrdersKeepInputOrder(committed: seq<RenderItem>, pending: seq<RenderItem>, shown: bool,
                                  sentinel: RenderItem, k: int)
    ensures var n := |committed| + |pending|;
            var r := Merged(committed, pending, shown, sentinel);
            n <= |r| && WithKey(r[..n], OrderOf, k) == WithKey(committed, OrderOf, k) + WithKey(pending, OrderOf, k)
  {
    var all := committed + pending;
    SortBySortedPermutation(all, OrderOf);
    SortByStable(all, OrderOf, k);
    WithKeyAppend(committed, pending, OrderOf, k);
    assert Merged(committed, pending, shown, sentinel)[..|all|] == SortBy(all, OrderOf);
  }

  /** Items built from plans and pending plans are never sentinels. */
  lemma ItemsHaveNoSentinel(plans: seq<Plan>, pendings: seq<PendingPlan>, characters: map<string, Character>,
                            pass: Pass, passPending: Pass)
    ensures NoSentinel(CommittedItems(plans, characters, pass) + PendingItems(pendings, characters, passPending))
  {
    var c: seq<RenderItem> := CommittedItems(plans, characters, pass);
    var p: seq<RenderItem> := PendingItems(pendings, characters, passPending);
    forall i | 0 <= i < |c + p|
      ensures !(c + p)[i].Create?
    {
      if i >= |c| {
        assert (c + p)[i] == p[i - |c|];
      }
    }
  }
}
