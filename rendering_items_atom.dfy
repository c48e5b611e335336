/**
 * `renderingPlanItemsAtom`, the plan list of the atom-based store: the plans
 * whose character is known and passes the simple character filter, sorted
 * by order, and a "create" sentinel decided on the unfiltered counts. Its
 * pending items are filtered out of an empty list, so there never are any.
 */
module RenderingItemsAtom {
  import opened Wrappers
  import opened Lists
  import opened Entities
  import opened Filters
  import opened RenderLists

  const MAX_ITEMS: int := 130
  const MAX_PENDING_ITEMS: int := 3

  /** The sentinel rule: on the number of plans and of pending plans, before any filtering. */
  predicate SentinelShown(plans: nat, pending: nat) {
    plans <= MAX_ITEMS - pending && pending <= MAX_PENDING_ITEMS
  }

  /** The atom's value; `queryError` is the plans query's error state. */
  function AtomItems(queryError: bool, plans: seq<Plan>, pendings: seq<PendingPlan>, characters: map<string, Character>,
                     f: Filter, fuzzy: (string, string) -> bool): (r: seq<RenderItem>)
    ensures queryError ==> r == []
  {
    if queryError then []
    else
      var c := CommittedItems(plans, characters, SimplePass(f, fuzzy));
      var p := PendingItems([], characters, SimplePass(f, fuzzy));
      Merged(c, p, SentinelShown(|plans|, |pendings|), Create(None))
  }

  /** The atom computed as written: filter and map both lists, concatenate, sort in place, push. */
  method ComputeAtomItems(queryError: bool, plans: seq<Plan>, pendings: seq<PendingPlan>,
                          characters: map<string, Character>, f: Filter, fuzzy: (string, string) -> bool)
    returns (items: seq<RenderItem>)
    ensures items == AtomItems(queryError, plans, pendings, characters, f, fuzzy)
  {
    if queryError {
      return [];
    }
    var c := CommittedItems(plans, characters, SimplePass(f, fuzzy));
    var p := PendingItems([], characters, SimplePass(f, fuzzy));
    items := SortAndPush(c, p, SentinelShown(|plans|, |pendings|), Create(None));
  }

  /**
   * Without a query error the atom holds exactly the plans with a known
   * character that pass the simple filter, sorted by order, no pending item,
   * and the sentinel last exactly when the unfiltered counts leave room.
   */
  lemma AtomShape(plans: seq<Plan>, pendings: seq<PendingPlan>, characters: map<string, Character>,
                  f: Filter, fuzzy: (string, string) -> bool)
    ensures var c := CommittedItems(plans, characters, SimplePass(f, fuzzy));
            var r := AtomItems(false, plans, pendings, characters, f, fuzzy);
            var shown := SentinelShown(|plans|, |pendings|);
            |r| == |c| + (if shown then 1 else 0) &&
            SortedBy(r[..|c|], OrderOf) && multiset(r[..|c|]) == multiset(c) &&
            (shown <==> exists i :: 0 <= i < |r| && r[i].Create?) &&
            (shown ==> r[|c|] == Create(None)) &&
            (forall i :: 0 <= i < |r| ==> !r[i].Pending?)
  {
    var pass := SimplePass(f, fuzzy);
    var c := CommittedItems(plans, characters, pass);
    var p := PendingItems([], characters, pass);
    assert p == [];
    assert c + p == c;
    var shown := SentinelShown(|plans|, |pendings|);
    ItemsHaveNoSentinel(plans, [], characters, pass, pass);
    MergedShape(c, p, shown, Create(None));
    var r := AtomItems(false, plans, pendings, characters, f, fuzzy);
    forall i | 0 <= i < |r|
      ensures !r[i].Pending?
    {
      MergedMembers(c, p, shown, Create(None), r[i]);
    }
  }

  /** A plan has an item iff its character is known and passes the simple filter; the specials filter plays no part. */
  lemma AtomCommittedMembers(plans: seq<Plan>, pendings: seq<PendingPlan>, characters: map<string, Character>,
                             f: Filter, fuzzy: (string, string) -> bool, p: Plan)
    ensures var r := AtomItems(false, plans, pendings, characters, f, fuzzy);
            (exists it :: it in r && it.Committed? && it.plan == p) <==>
              p in plans && p.character in characters && SimpleCharacterPasses(f, characters[p.character], fuzzy)
  {
    var pass := SimplePass(f, fuzzy);
    var c := CommittedItems(plans, characters, pass);
    var q := PendingItems([], characters, pass);
    assert q == [];
    var shown := SentinelShown(|plans|, |pendings|);
    var r := AtomItems(false, plans, pendings, characters, f, fuzzy);
    if p in plans && p.character in characters && SimpleCharacterPasses(f, characters[p.character], fuzzy) {
      var it := Committed(p, characters[p.character]);
      MergedMembers(c, q, shown, Create(None), it);
    }
    if exists it :: it in r && it.Committed? && it.plan == p {
      var it :| it in r && it.Committed? && it.plan == p;
      MergedMembers(c, q, shown, Create(None), it);
      var j :| 0 <= j < |c| && c[j] == it;
    }
  }

  /** Whether the sentinel is offered does not depend on the filter. */
  lemma SentinelIgnoresFilter(plans: seq<Plan>, pendings: seq<PendingPlan>, characters: map<string, Character>,
                              f: Filter, g: Filter, fuzzy: (string, string) -> bool)
    ensures (Create(None) in AtomItems(false, plans, pendings, characters, f, fuzzy)) <==>
            (Create(None) in AtomItems(false, plans, pendings, characters, g, fuzzy))
  {
    AtomShape(plans, pendings, characters, f, fuzzy);
    AtomShape(plans, pendings, characters, g, fuzzy);
  }
}
