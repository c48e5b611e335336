/**
 * The plan list filters: the filter value, whether any filter is on, the
 * character predicate, and the values the plans offer to filter by.
 */
module Filters {
  import opened Wrappers
  import opened JsCollections
  import opened Entities

  /**
   * A filter value. `characters` is carried but no predicate reads it;
   * `artifactTypeSpecials` maps an artifact type to the selected specials
   * (the plan filters call the same field `specialsByArtifactTypePlans`).
   */
  datatype Filter = Filter(name: string, elements: set<string>, weaponTypes: set<string>,
                           characters: set<string>, artifactTypeSpecials: map<string, set<string>>)

  /** The initial filter: nothing selected. */
  function EmptyFilter(): Filter {
    Filter("", {}, {}, {}, map[])
  }

  /** `isFiltersEnabled` / `filtersEnabledAtom`. */
  function FiltersEnabled(f: Filter): (enabled: bool)
    ensures enabled <==> f != EmptyFilter()
  {
    assert |f.name| == 0 ==> f.name == "";
    assert |f.elements| == 0 ==> f.elements == {};
    assert |f.weaponTypes| == 0 ==> f.weaponTypes == {};
    assert |f.artifactTypeSpecials| == 0 ==> f.artifactTypeSpecials == map[];
    assert |f.characters| == 0 ==> f.characters == {};
    |f.name| > 0 || |f.elements| > 0 || |f.weaponTypes| > 0 || |f.artifactTypeSpecials| > 0 || |f.characters| > 0
  }

  /**
   * The character predicate of `useCharacterFilterFn`. `fuzzy(needle, hay)`
   * stands for `fuzzysearch` on the lower-cased strings.
   */
  function CharacterPasses(f: Filter, c: Character, plan: Option<Plan>, fuzzy: (string, string) -> bool): bool {
    ElementAndWeaponPass(f, c) && SpecialsPass(f, plan) && NamePasses(f.name, c, fuzzy)
  }

  /** The element and weapon-type part: an empty set passes, a character without an element fails a non-empty element set. */
  function ElementAndWeaponPass(f: Filter, c: Character): (pass: bool)
    ensures pass <==> (f.elements == {} || (c.element != "" && c.element in f.elements)) &&
                      (f.weaponTypes == {} || c.weaponType in f.weaponTypes)
  {
    (|f.elements| == 0 || (c.element != "" && c.element in f.elements)) &&
    (|f.weaponTypes| == 0 || c.weaponType in f.weaponTypes)
  }

  /** The artifact-type-specials part: some artifact type plan of the plan has its special selected for its type. */
  function SpecialsPass(f: Filter, plan: Option<Plan>): (pass: bool)
    ensures f.artifactTypeSpecials == map[] ==> pass
    ensures f.artifactTypeSpecials != map[] ==>
              (pass <==> plan.Some? && exists atp :: atp in plan.value.artifactTypePlans && SpecialSelected(f, atp))
  {
    if |f.artifactTypeSpecials| == 0 then true
    else if plan.None? then false
    else Any(plan.value.artifactTypePlans, f)
  }

  predicate SpecialSelected(f: Filter, atp: ArtifactTypePlan) {
    atp.artifactType in f.artifactTypeSpecials && atp.special in f.artifactTypeSpecials[atp.artifactType]
  }

  /** `artifactTypePlans.some(...)`. */
  function Any(atps: seq<ArtifactTypePlan>, f: Filter): (r: bool)
    ensures r <==> exists atp :: atp in atps && SpecialSelected(f, atp)
  {
    if atps == [] then false
    else SpecialSelected(f, atps[0]) || Any(atps[1..], f)
  }

  /** The name part: an empty name passes. */
  function NamePasses(name: string, c: Character, fuzzy: (string, string) -> bool): (pass: bool)
    ensures name == "" ==> pass
    ensures name != "" ==> pass == fuzzy(name, c.name)
  {
    name == "" || fuzzy(name, c.name)
  }

  /** The `characters` selection never changes the verdict. */
  lemma CharactersIgnored(f: Filter, chosen: set<string>, c: Character, plan: Option<Plan>, fuzzy: (string, string) -> bool)
    ensures CharacterPasses(f.(characters := chosen), c, plan, fuzzy) == CharacterPasses(f, c, plan, fuzzy)
  {
  }

  /** The empty filter passes every character, with or without a plan. */
  lemma EmptyFilterPasses(c: Character, plan: Option<Plan>, fuzzy: (string, string) -> bool)
    ensures CharacterPasses(EmptyFilter(), c, plan, fuzzy)
  {
  }

  /** With a specials filter on, a pending plan (no plan record) never passes. */
  lemma SpecialsFilterExcludesPlanless(f: Filter, c: Character, fuzzy: (string, string) -> bool)
    requires f.artifactTypeSpecials != map[]
    ensures !CharacterPasses(f, c, None, fuzzy)
  {
  }

  /**
   * The predicate of the older atom-based list (`renderingItems.ts`): no
   * specials part. It is the predicate above with the specials filter off.
   */
  function SimpleCharacterPasses(f: Filter, c: Character, fuzzy: (string, string) -> bool): (pass: bool)
    ensures pass == CharacterPasses(f.(artifactTypeSpecials := map[]), c, None, fuzzy)
  {
    (|f.elements| == 0 || (c.element != "" && c.element in f.elements)) &&
    (|f.weaponTypes| == 0 || c.weaponType in f.weaponTypes) &&
    (f.name == "" || fuzzy(f.name, c.name))
  }

  // Available filters.

  /** The elements, weapon types and characters the plans offer, each a `Set` in insertion order. */
  datatype Available = Available(elements: OSet<string>, weaponTypes: OSet<string>, characters: OSet<string>)

  ghost predicate AvailableValid(a: Available) {
    a.elements.Valid() && a.weaponTypes.Valid() && a.characters.Valid()
  }

  function NoneAvailable(): (a: Available)
    ensures AvailableValid(a)
  {
    Available(EmptySet(), EmptySet(), EmptySet())
  }

  /** One iteration: a plan whose character is unknown is skipped; an empty element is not added. */
  function AddPlan(a: Available, characters: map<string, Character>, plan: Plan): (r: Available)
    requires AvailableValid(a)
    ensures AvailableValid(r)
  {
    if plan.character !in characters then a
    else
      var c := characters[plan.character];
      Available(if c.element != "" then a.elements.Add(c.element) else a.elements,
                a.weaponTypes.Add(c.weaponType),
                a.characters.Add(c.id))
  }

  /** The available filters after the first `n` plans. */
  function AvailableUpTo(plans: seq<Plan>, characters: map<string, Character>, n: nat): (a: Available)
    requires n <= |plans|
    ensures AvailableValid(a)
  {
    if n == 0 then NoneAvailable()
    else AddPlan(AvailableUpTo(plans, characters, n - 1), characters, plans[n - 1])
  }

  /** The character of a plan, when the dictionary has it. */
  predicate KnownCharacter(plans: seq<Plan>, characters: map<string, Character>, i: int)
    requires 0 <= i < |plans|
  {
    plans[i].character in characters
  }

  /**
   * Each available value comes from a plan whose character is known, and
   * every such plan contributes its character's id, weapon type and
   * non-empty element.
   */
  lemma {:induction false} AvailableMeaning(plans: seq<Plan>, characters: map<string, Character>, n: nat, x: string)
    requires n <= |plans|
    ensures AvailableUpTo(plans, characters, n).elements.Has(x) <==>
            x != "" && exists i :: 0 <= i < n && KnownCharacter(plans, characters, i) && characters[plans[i].character].element == x
    ensures AvailableUpTo(plans, characters, n).weaponTypes.Has(x) <==>
            exists i :: 0 <= i < n && KnownCharacter(plans, characters, i) && characters[plans[i].character].weaponType == x
    ensures AvailableUpTo(plans, characters, n).characters.Has(x) <==>
            exists i :: 0 <= i < n && KnownCharacter(plans, characters, i) && characters[plans[i].character].id == x
  {
    if n > 0 {
      AvailableMeaning(plans, characters, n - 1, x);
    }
  }

  /** `useAvailableFilters` / `availableFiltersAtom`: the loop over the plans. */
  method CollectAvailable(plans: seq<Plan>, characters: map<string, Character>) returns (res: Available)
    ensures res == AvailableUpTo(plans, characters, |plans|)
  {
    res := NoneAvailable();
    var i := 0;
    while i < |plans|
      invariant 0 <= i <= |plans|
      invariant res == AvailableUpTo(plans, characters, i)
    {
      var item := plans[i];
      if item.character in characters {
        var character := characters[item.character];
        var elements := res.elements;
        if character.element != "" {
          elements := elements.Add(character.element);
        }
        res := Available(elements, res.weaponTypes.Add(character.weaponType), res.characters.Add(character.id));
      }
      i := i + 1;
    }
  }
}
