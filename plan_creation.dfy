/**
 * Creating a character plan on the client: the record a new plan starts as,
 * the patches that turn a plan with its nested collections into the stored
 * record, the order a plan created from the plan list gets, and the retry
 * ladder of the stores that create plans in the background.
 */
module PlanCreation {
  import opened Wrappers
  import opened Lists
  import opened ArraySort
  import opened Entities

  /** The numeric progress fields of a character plan, by field name. */
  const LEVEL_CURRENT := "levelCurrent"
  const LEVEL_TARGET := "levelTarget"
  const CONSTELLATION_CURRENT := "constellationCurrent"
  const CONSTELLATION_TARGET := "constellationTarget"
  const TALENT_ATK_CURRENT := "talentAtkCurrent"
  const TALENT_ATK_TARGET := "talentAtkTarget"
  const TALENT_SKILL_CURRENT := "talentSkillCurrent"
  const TALENT_SKILL_TARGET := "talentSkillTarget"
  const TALENT_BURST_CURRENT := "talentBurstCurrent"
  const TALENT_BURST_TARGET := "talentBurstTarget"

  /** The progress a new plan starts with: level 1 to 90, talents 1 to 10, constellation 0 to 0. */
  function DefaultProgress(): map<string, int> {
    map[LEVEL_CURRENT := 1, LEVEL_TARGET := 90,
        CONSTELLATION_CURRENT := 0, CONSTELLATION_TARGET := 0,
        TALENT_ATK_CURRENT := 1, TALENT_ATK_TARGET := 10,
        TALENT_SKILL_CURRENT := 1, TALENT_SKILL_TARGET := 10,
        TALENT_BURST_CURRENT := 1, TALENT_BURST_TARGET := 10]
  }

  /** Each current value of the defaults is at most its target. */
  lemma DefaultProgressCurrentBelowTarget()
    ensures var d := DefaultProgress();
            d[LEVEL_CURRENT] <= d[LEVEL_TARGET] && d[CONSTELLATION_CURRENT] <= d[CONSTELLATION_TARGET] &&
            d[TALENT_ATK_CURRENT] <= d[TALENT_ATK_TARGET] && d[TALENT_SKILL_CURRENT] <= d[TALENT_SKILL_TARGET] &&
            d[TALENT_BURST_CURRENT] <= d[TALENT_BURST_TARGET]
  {
  }

  /**
   * A character plan record: the fields the client sets. `created` and
   * `updated` are the client's clock reading; a record sent for creation has
   * no id.
   */
  datatype CharacterPlan = CharacterPlan(id: Option<string>, user: string, character: string, order: int,
                                         complete: Option<bool>, progress: map<string, int>,
                                         substats: seq<string>, note: Option<string>,
                                         created: Option<int>, updated: Option<int>)

  /** Thrown by `newCharacterPlan` when nobody is signed in. */
  const NOT_AUTHORIZED := "User should be authorized at this point"

  /**
   * `newCharacterPlan` of the plan list: fails without a signed-in user;
   * otherwise a plan of that user, id and both timestamps from the clock, not
   * complete, with the default progress, no substats and an empty note.
   */
  function NewCharacterPlan(user: Option<string>, now: int, id: string, character: string, order: int)
    : (r: Result<CharacterPlan, string>)
    ensures user.None? <==> r.Err?
    ensures r.Err? ==> r.error == NOT_AUTHORIZED
    ensures r.Ok? ==> r.value.user == user.value && r.value.id == Some(id) && r.value.character == character &&
                      r.value.order == order && r.value.complete == Some(false) &&
                      r.value.progress == DefaultProgress() && r.value.substats == [] && r.value.note == Some("") &&
                      r.value.created == r.value.updated == Some(now)
  {
    if user.None? then Err(NOT_AUTHORIZED)
    else Ok(CharacterPlan(Some(id), user.value, character, order, Some(false), DefaultProgress(), [],
                          Some(""), Some(now), Some(now)))
  }

  /**
   * `newCharacterPlan` of the background creators: nothing without a
   * signed-in user (the caller then stops); otherwise the pending plan's
   * character and order, the default progress and no substats, and no id.
   */
  function NewPlanForPending(user: Option<string>, characterId: string, order: int): (r: Option<CharacterPlan>)
    ensures user.None? <==> r.None?
    ensures r.Some? ==> r.value.user == user.value && r.value.id.None? && r.value.character == characterId &&
                        r.value.order == order && r.value.progress == DefaultProgress() && r.value.substats == []
  {
    if user.None? then None
    else Some(CharacterPlan(None, user.value, characterId, order, None, DefaultProgress(), [], None, None, None))
  }

  // The patches from a plan to the stored character plan.

  /** An immer patch with operation `remove`. */
  datatype RemovePatch = Remove(path: string)

  /** The nested plan collections, which the stored record does not have. */
  const NESTED := ["artifactSetsPlans", "artifactTypePlans", "weaponPlans", "teamPlans"]

  const PLAN_TO_CHARACTER_PLAN_PATCHES: seq<RemovePatch> :=
    [Remove("artifactSetsPlans"), Remove("artifactTypePlans"), Remove("weaponPlans"), Remove("teamPlans")]

  /** A record, as field name → value, with the patches applied in order. */
  function ApplyPatches<V>(record: map<string, V>, patches: seq<RemovePatch>): (r: map<string, V>)
    ensures r.Keys <= record.Keys
    ensures forall k :: k in r ==> r[k] == record[k]
  {
    if patches == [] then record
    else ApplyPatches(record - {patches[0].path}, patches[1..])
  }

  /** Applying remove patches removes exactly the fields they name. */
  lemma {:induction false} ApplyPatchesRemovesPaths<V>(record: map<string, V>, patches: seq<RemovePatch>)
    ensures ApplyPatches(record, patches) == record - set i | 0 <= i < |patches| :: patches[i].path
  {
    if patches != [] {
      ApplyPatchesRemovesPaths(record - {patches[0].path}, patches[1..]);
      var rest := set i | 0 <= i < |patches[1..]| :: patches[1..][i].path;
      var all := set i | 0 <= i < |patches| :: patches[i].path;
      assert all == {patches[0].path} + rest by {
        forall x | x in all
          ensures x in {patches[0].path} + rest
        {
          var i :| 0 <= i < |patches| && patches[i].path == x;
          if i > 0 {
            assert patches[1..][i - 1].path == x;
          }
        }
        forall x | x in rest
          ensures x in all
        {
          var i :| 0 <= i < |patches[1..]| && patches[1..][i].path == x;
          assert patches[i + 1].path == x;
        }
      }
    }
  }

  /** The server patches remove exactly the four nested collections and keep every other field. */
  lemma ServerPatchesDropNested<V>(record: map<string, V>)
    ensures ApplyPatches(record, PLAN_TO_CHARACTER_PLAN_PATCHES) == record - set k | k in NESTED
  {
    var p := PLAN_TO_CHARACTER_PLAN_PATCHES;
    ApplyPatchesRemovesPaths(record, p);
    assert (set i | 0 <= i < |p| :: p[i].path) == set k | k in NESTED by {
      assert p[0].path == NESTED[0] && p[1].path == NESTED[1] && p[2].path == NESTED[2] && p[3].path == NESTED[3];
    }
  }

  // The order of a plan created from the plan list.

  /** `postUpdate`: the records sorted by order in place. */
  method PostUpdate(a: array<Plan>)
    modifies a
    ensures a[..] == SortBy(old(a[..]), PlanOrder)
    ensures SortedBy(a[..], PlanOrder) && multiset(a[..]) == multiset(old(a[..]))
  {
    SortBySortedPermutation(a[..], PlanOrder);
    SortInPlace(a, PlanOrder);
  }

  /** `records.at(-1)?.order ?? 1`, as written: the last record's own order. */
  function CreateOrder(records: seq<Plan>): (order: int)
    ensures records == [] ==> order == 1
    ensures records != [] ==> order == records[|records| - 1].order
  {
    if records == [] then 1 else records[|records| - 1].order
  }

  /**
   * As written, a plan created after any non-empty records takes the order
   * the last record already has, so the two tie; after the sort no record's
   * order is above it, so the new plan is not placed after all of them.
   */
  lemma CreateOrderTiesLast(records: seq<Plan>)
    requires records != []
    ensures CreateOrder(records) == records[|records| - 1].order
    ensures SortedBy(records, PlanOrder) ==>
              (forall i :: 0 <= i < |records| ==> records[i].order <= CreateOrder(records)) &&
              !(forall i :: 0 <= i < |records| ==> records[i].order < CreateOrder(records))
  {
    if SortedBy(records, PlanOrder) {
      forall i | 0 <= i < |records|
        ensures records[i].order <= CreateOrder(records)
      {
        assert PlanOrder(records[i]) <= PlanOrder(records[|records| - 1]) || i == |records| - 1;
      }
    }
  }

  /** The order a new plan is evidently meant to get: one past the last record's, or 1. */
  function NextOrder(records: seq<Plan>): (order: int)
    ensures records == [] ==> order == 1
  {
    if records == [] then 1 else records[|records| - 1].order + 1
  }

  /** After the sort, the intended order is above every record's, so the new plan sorts last on its own. */
  lemma NextOrderAboveAll(records: seq<Plan>)
    requires SortedBy(records, PlanOrder)
    ensures forall i :: 0 <= i < |records| ==> records[i].order < NextOrder(records)
  {
    if records != [] {
      forall i | 0 <= i < |records|
        ensures records[i].order < NextOrder(records)
      {
        assert PlanOrder(records[i]) <= PlanOrder(records[|records| - 1]) || i == |records| - 1;
      }
    }
  }

  // The retry ladder of a background create.

  /** How one create request settles: created, a server (client-response) error, or any other error. */
  datatype Attempt = Created(id: string) | ResponseError | OtherError

  /** How a run of `try_create` ends. */
  datatype CreateEnd = Ready(id: string) | GaveUp | Stopped

  /** Retries after the first request, before the store gives up and offers the manual retry. */
  const MAX_RETRIES := 3

  /**
   * `try_create` from request `i` on, with `retries` retries spent, where
   * request `i` settles as `attempt(i)`. `stopOnOther` is set when only a
   * client-response error is retried and any other error ends the run
   * silently. The result is how the run ends and how many requests it made.
   */
  function TryCreate(attempt: nat -> Attempt, stopOnOther: bool, i: nat, retries: nat): (r: (CreateEnd, nat))
    requires retries <= MAX_RETRIES
    ensures r.1 >= 1 && r.1 <= MAX_RETRIES + 1 - retries
    decreases MAX_RETRIES - retries
  {
    match attempt(i)
    case Created(id) => (Ready(id), 1)
    case OtherError =>
      if stopOnOther then (Stopped, 1)
      else if retries >= MAX_RETRIES then (GaveUp, 1)
      else var r := TryCreate(attempt, stopOnOther, i + 1, retries + 1); (r.0, r.1 + 1)
    case ResponseError =>
      if retries >= MAX_RETRIES then (GaveUp, 1)
      else var r := TryCreate(attempt, stopOnOther, i + 1, retries + 1); (r.0, r.1 + 1)
  }

  /** Whether request `j` failed in a way the run retries. */
  predicate Retried(attempt: nat -> Attempt, stopOnOther: bool, j: nat) {
    attempt(j).ResponseError? || (attempt(j).OtherError? && !stopOnOther)
  }

  /**
   * A run from the first request makes at most four requests. It ends
   * `Ready` with the id of the first creation when every earlier request
   * was retried, and gives up only after four retried failures in a row.
   */
  lemma {:induction false} TryCreateOutcome(attempt: nat -> Attempt, stopOnOther: bool, i: nat, retries: nat)
    requires retries <= MAX_RETRIES
    ensures var r := TryCreate(attempt, stopOnOther, i, retries);
            var n := r.1;
            (forall j :: i <= j < i + n - 1 ==> Retried(attempt, stopOnOther, j)) &&
            (r.0.Ready? ==> attempt(i + n - 1) == Created(r.0.id)) &&
            (r.0.GaveUp? ==> n == MAX_RETRIES + 1 - retries && Retried(attempt, stopOnOther, i + n - 1)) &&
            (r.0.Stopped? ==> stopOnOther && attempt(i + n - 1).OtherError?)
    decreases MAX_RETRIES - retries
  {
    if Retried(attempt, stopOnOther, i) && retries < MAX_RETRIES {
      TryCreateOutcome(attempt, stopOnOther, i + 1, retries + 1);
    }
  }
}
