/**
 * The artifact sets of a plan card. A set plan holds one set (four pieces) or
 * two sets (two pieces each); deleting and splitting move between the two
 * shapes, editing a draft of the set plan in place.
 */
module PlanCardArtifactSets {
  import opened Lists
  import opened FilterPanels
  import opened Wrappers
  import Immer

  /** The most set plans one plan card offers to add. */
  const MAX_SETS := 10

  const TWO_PIECES := "2 pcs"
  const FOUR_PIECES := "4 pcs"

  /** The draft of a set plan an update callback receives. */
  class SetsDraft {
    var artifactSets: seq<string>

    constructor(sets: seq<string>)
      ensures artifactSets == sets
    {
      artifactSets := sets;
    }

    /** `removeByPredMut(artifactSets, it => it == setId)`: every occurrence removed, the rest in order. */
    method RemoveSet(setId: string)
      modifies this
      ensures artifactSets == RemoveAll(old(artifactSets), setId)
    {
      artifactSets := RemoveAll(artifactSets, setId);
    }

    /** `artifactSets.push(setId)`. */
    method PushSet(setId: string)
      modifies this
      ensures artifactSets == old(artifactSets) + [setId]
    {
      artifactSets := artifactSets + [setId];
    }
  }

  /** What a set button asks of the mutation. */
  datatype SetsAction = DeletePlan | RemoveFromDraft(setId: string) | PushToDraft(setId: string) | NoAction

  /** `deleteSet`: a one-set plan is deleted whole, a two-set plan loses that set, any other plan is left alone. */
  function DeleteSet(sets: seq<string>, setId: string): (a: SetsAction)
    ensures a.DeletePlan? <==> |sets| == 1
    ensures a.RemoveFromDraft? <==> |sets| == 2
    ensures a.RemoveFromDraft? ==> a.setId == setId
    ensures a.PushToDraft? == false
  {
    if |sets| == 1 then DeletePlan
    else if |sets| == 2 then RemoveFromDraft(setId)
    else NoAction
  }

  /** `addSet`: only a one-set plan is split, by pushing the chosen set. */
  function AddSet(sets: seq<string>, setId: string): (a: SetsAction)
    ensures a.PushToDraft? <==> |sets| == 1
    ensures a.PushToDraft? ==> a.setId == setId
    ensures !a.PushToDraft? ==> a == NoAction
  {
    if |sets| == 1 then PushToDraft(setId) else NoAction
  }

  /** The update callback an action hands the mutation, run on the draft. */
  method RunOnDraft(d: SetsDraft, a: SetsAction)
    modifies d
    ensures a.RemoveFromDraft? ==> d.artifactSets == RemoveAll(old(d.artifactSets), a.setId)
    ensures a.PushToDraft? ==> d.artifactSets == old(d.artifactSets) + [a.setId]
    ensures !a.RemoveFromDraft? && !a.PushToDraft? ==> d.artifactSets == old(d.artifactSets)
  {
    match a
    case RemoveFromDraft(s) => d.RemoveSet(s);
    case PushToDraft(s) => d.PushSet(s);
    case _ =>
  }

  /** The sets the split picker lists: every known set except those the plan already has. */
  function SplitChoices(known: seq<string>, sets: seq<string>): (r: seq<string>)
    ensures forall i :: 0 <= i < |r| ==> r[i] in known && r[i] !in sets
    ensures forall i :: 0 <= i < |known| && known[i] !in sets ==> known[i] in r
  {
    Lists.Filter(known, (s: string) => s !in sets)
  }

  /** Each shown set's label: two pieces in a split plan, four otherwise. */
  function PiecesLabel(sets: seq<string>): (text: string)
    ensures text == TWO_PIECES <==> |sets| == 2
  {
    if |sets| == 2 then TWO_PIECES else FOUR_PIECES
  }

  /** The add button is offered while the card has fewer than ten set plans. */
  predicate AddShown(setPlansCount: nat) {
    setPlansCount < MAX_SETS
  }

  /**
   * The number of set plans after `clicks` presses of the add button, each
   * adding one plan while the button is shown.
   */
  function CountAfterAdds(count: nat, clicks: nat): (r: nat)
    ensures r >= count
    decreases clicks
  {
    if clicks == 0 || !AddShown(count) then count else CountAfterAdds(count + 1, clicks - 1)
  }

  /** From at most ten set plans, the add button adds one per press until there are ten, and never more. */
  lemma {:induction false} AddsStopAtMax(count: nat, clicks: nat)
    requires count <= MAX_SETS
    ensures CountAfterAdds(count, clicks) == if count + clicks <= MAX_SETS then count + clicks else MAX_SETS
    ensures !AddShown(CountAfterAdds(count, clicks)) <==> count + clicks >= MAX_SETS
    decreases clicks
  {
    if clicks > 0 && AddShown(count) {
      AddsStopAtMax(count + 1, clicks - 1);
    }
  }

  /** A set plan cannot be dragged when the card is disabled, its row is blocked, or it is the only one. */
  predicate DragDisabled(disabled: bool, blocked: bool, setPlansCount: nat) {
    disabled || blocked || setPlansCount == 1
  }

  /** A card's only set plan can never be dragged; on an enabled, unblocked row any other plan can. */
  lemma SoleSetPlanNotDraggable(disabled: bool, blocked: bool, setPlansCount: nat)
    ensures setPlansCount == 1 ==> DragDisabled(disabled, blocked, setPlansCount)
    ensures !disabled && !blocked ==> (DragDisabled(disabled, blocked, setPlansCount) <==> setPlansCount == 1)
  {
  }

  /** Clicking a set's icon toggles that set in the set filter. */
  function ToggleSetFilter(artifactSets: set<string>, setId: string): (r: set<string>)
    ensures setId in r <==> setId !in artifactSets
    ensures forall s :: s != setId ==> (s in r <==> s in artifactSets)
  {
    Toggled(artifactSets, setId)
  }

  /** What the icon's recipe returns: `delete` gives whether the set was there, `add` gives the set itself. */
  datatype SetCallValue = DeleteValue(existed: bool) | AddValue(sets: set<string>)

  /**
   * The icon's click as written: the recipe's arrow returns the value of
   * `delete` or `add` after that call changed the draft, so `produce` throws
   * and `setFilters` never reaches `setValue`.
   */
  function ToggleSetFilterAsWritten(artifactSets: set<string>, setId: string): (r: Immer.Produced<set<string>, SetCallValue>)
    ensures !r.Draft?
  {
    var drafted := Toggled(artifactSets, setId);
    var returned := if setId in artifactSets then DeleteValue(true) else AddValue(drafted);
    Immer.Produce(drafted, drafted != artifactSets, Some(returned))
  }

  /** As written, every click throws, so the filter keeps the set it had while the intended toggle would change it. */
  lemma SetIconClickThrows(artifactSets: set<string>, setId: string)
    ensures ToggleSetFilterAsWritten(artifactSets, setId) == Immer.Threw(Immer.RETURNED_AND_MODIFIED)
    ensures ToggleSetFilter(artifactSets, setId) != artifactSets
  {
    var drafted := Toggled(artifactSets, setId);
    assert setId in drafted <==> setId !in artifactSets;
  }

  /**
   * Splitting a one-set plan with a set from the picker gives a plan of two
   * different sets, both labelled two pieces; deleting either of them gives
   * back a one-set plan of the other.
   */
  lemma SplitThenDelete(a: string, known: seq<string>, i: nat)
    requires i < |SplitChoices(known, [a])|
    ensures var b := SplitChoices(known, [a])[i];
            var split := [a] + [b];
            AddSet([a], b) == PushToDraft(b) &&
            b != a && PiecesLabel(split) == TWO_PIECES &&
            DeleteSet(split, b) == RemoveFromDraft(b) && RemoveAll(split, b) == [a] &&
            DeleteSet(split, a) == RemoveFromDraft(a) && RemoveAll(split, a) == [b]
  {
    var b := SplitChoices(known, [a])[i];
    assert b !in [a];
    var split := [a] + [b];
    assert split[1..] == [b] && [b][1..] == [];
    assert RemoveAll([b], b) == [];
    assert RemoveAll([b], a) == [b];
  }

  /** Deleting one of two different sets leaves a one-set plan, never an empty one. */
  lemma NoEmptySetPlan(sets: seq<string>, setId: string)
    requires |sets| == 2 && setId in sets && sets[0] != sets[1]
    ensures |RemoveAll(sets, setId)| == 1
  {
    assert sets == [sets[0]] + [sets[1]];
    assert multiset(sets)[setId] == 1;
    RemoveAllLength(sets, setId);
  }
}
