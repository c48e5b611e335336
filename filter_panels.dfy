/**
 * The filter panels: the build list's panel, whose handlers hand a partial
 * filter to the page, the plan list's panel, whose handlers edit a draft in place, and the
 * character picker's own filter.
 */
module FilterPanels {
  import opened Wrappers
  import opened Lists
  import opened JsCollections
  import opened Entities
  import opened Filters

  /** A set with `x` deleted when present and added otherwise. */
  function Toggled(s: set<string>, x: string): (r: set<string>)
    ensures x in r <==> x !in s
    ensures forall y :: y != x ==> (y in r <==> y in s)
  {
    if x in s then s - {x} else s + {x}
  }

  /** Pressing the same button twice gives the set back. */
  lemma ToggledTwice(s: set<string>, x: string)
    ensures Toggled(Toggled(s, x), x) == s
  {
  }

  /** The specials selected for artifact type `t` (an absent key reads as no selection). */
  function SelectedFor(m: map<string, set<string>>, t: string): set<string> {
    if t in m then m[t] else {}
  }

  /**
   * Deselecting special `s` of type `t`: the type's set loses `s`, and the key
   * goes away when its set is left empty.
   */
  function RemovedSpecial(m: map<string, set<string>>, t: string, s: string): (r: map<string, set<string>>)
    ensures forall u :: u != t ==> (u in r <==> u in m) && (u in m ==> r[u] == m[u])
    ensures t in r <==> SelectedFor(m, t) - {s} != {}
    ensures t in r ==> r[t] == SelectedFor(m, t) - {s}
  {
    var selected := SelectedFor(m, t) - {s};
    if selected == {} then m - {t} else m[t := selected]
  }

  /** Selecting special `s` of type `t`: the type's set, created when missing, gains `s`. */
  function AddedSpecial(m: map<string, set<string>>, t: string, s: string): (r: map<string, set<string>>)
    ensures forall u :: u != t ==> (u in r <==> u in m) && (u in m ==> r[u] == m[u])
    ensures t in r && r[t] == SelectedFor(m, t) + {s}
  {
    m[t := SelectedFor(m, t) + {s}]
  }

  /** No artifact type is kept with an empty selection. */
  ghost predicate NoEmptySelections(m: map<string, set<string>>) {
    forall t :: t in m ==> m[t] != {}
  }

  /** Both special handlers keep every stored selection non-empty. */
  lemma SpecialHandlersKeepSelectionsNonEmpty(m: map<string, set<string>>, t: string, s: string)
    requires NoEmptySelections(m)
    ensures NoEmptySelections(AddedSpecial(m, t, s))
    ensures NoEmptySelections(RemovedSpecial(m, t, s))
  {
    var a := AddedSpecial(m, t, s);
    assert s in a[t];
  }

  /**
   * With no empty selection stored, the specials filter counts as set exactly
   * when some special of some type is selected.
   */
  lemma SpecialsFilterOnMeansSomeSelected(m: map<string, set<string>>)
    requires NoEmptySelections(m)
    ensures m != map[] <==> exists t, s :: t in m && s in m[t]
  {
    if m != map[] {
      var t :| t in m;
      var s :| s in m[t];
    }
  }

  /** Deselecting a special right after selecting it restores the selection. */
  lemma RemoveUndoesAdd(m: map<string, set<string>>, t: string, s: string)
    requires NoEmptySelections(m)
    requires s !in SelectedFor(m, t)
    ensures RemovedSpecial(AddedSpecial(m, t, s), t, s) == m
  {
    var r := RemovedSpecial(AddedSpecial(m, t, s), t, s);
    assert SelectedFor(AddedSpecial(m, t, s), t) - {s} == SelectedFor(m, t);
    assert forall u :: u in r <==> u in m;
  }

  // The build list's panel. Its handlers do not change the filter: they pass a
  // partial filter to `onChange`.

  /** `Partial<TBuildFilter>`: `None` for a field the handler leaves out. */
  datatype Patch = Patch(name: Option<string>, elements: Option<set<string>>, weaponTypes: Option<set<string>>,
                         characters: Option<set<string>>, artifactTypeSpecials: Option<map<string, set<string>>>)

  function NoChange(): Patch {
    Patch(None, None, None, None, None)
  }

  /** `{...f, ...p}`: each field the patch carries replaces the filter's. */
  function Apply(f: Filter, p: Patch): (r: Filter)
    ensures r.name == p.name.GetOr(f.name)
    ensures r.elements == p.elements.GetOr(f.elements)
    ensures r.weaponTypes == p.weaponTypes.GetOr(f.weaponTypes)
    ensures r.characters == p.characters.GetOr(f.characters)
    ensures r.artifactTypeSpecials == p.artifactTypeSpecials.GetOr(f.artifactTypeSpecials)
  {
    Filter(p.name.GetOr(f.name), p.elements.GetOr(f.elements), p.weaponTypes.GetOr(f.weaponTypes),
           p.characters.GetOr(f.characters), p.artifactTypeSpecials.GetOr(f.artifactTypeSpecials))
  }

  /** Clear All: name, elements, weapon types and characters reset; the specials are not in the patch. */
  function BuildClearAll(): (p: Patch)
    ensures p.artifactTypeSpecials.None?
  {
    Patch(Some(""), Some({}), Some({}), Some({}), None)
  }

  /** An element button: a copy of the element set with that element toggled. */
  function BuildToggleElement(f: Filter, x: string): (p: Patch)
    ensures Apply(f, p) == f.(elements := Toggled(f.elements, x))
  {
    NoChange().(elements := Some(Toggled(f.elements, x)))
  }

  /** A weapon-type button: a copy of the weapon-type set with that type toggled. */
  function BuildToggleWeaponType(f: Filter, x: string): (p: Patch)
    ensures Apply(f, p) == f.(weaponTypes := Toggled(f.weaponTypes, x))
  {
    NoChange().(weaponTypes := Some(Toggled(f.weaponTypes, x)))
  }

  /** A selected special's button: a copied map with that special deselected. */
  function BuildRemoveSpecial(f: Filter, t: string, s: string): (p: Patch)
    ensures Apply(f, p) == f.(artifactTypeSpecials := RemovedSpecial(f.artifactTypeSpecials, t, s))
  {
    NoChange().(artifactTypeSpecials := Some(RemovedSpecial(f.artifactTypeSpecials, t, s)))
  }

  /** The special selector: a copied map with that special selected. */
  function BuildAddSpecial(f: Filter, t: string, s: string): (p: Patch)
    ensures Apply(f, p) == f.(artifactTypeSpecials := AddedSpecial(f.artifactTypeSpecials, t, s))
  {
    NoChange().(artifactTypeSpecials := Some(AddedSpecial(f.artifactTypeSpecials, t, s)))
  }

  /**
   * Clear All leaves a filter that is empty apart from the specials, so the
   * filter stays enabled exactly when specials were selected.
   */
  lemma BuildClearAllKeepsSpecials(f: Filter)
    ensures Apply(f, BuildClearAll()) == EmptyFilter().(artifactTypeSpecials := f.artifactTypeSpecials)
    ensures FiltersEnabled(Apply(f, BuildClearAll())) <==> f.artifactTypeSpecials != map[]
  {
  }

  // The plan list's panel edits a draft of the filter in place.

  /** The draft a `setFilters` callback receives. */
  class FilterDraft {
    var name: string
    var elements: set<string>
    var weaponTypes: set<string>
    var characters: set<string>
    var artifactTypeSpecials: map<string, set<string>>

    function Value(): Filter
      reads this
    {
      Filter(name, elements, weaponTypes, characters, artifactTypeSpecials)
    }

    constructor(f: Filter)
      ensures Value() == f
    {
      name := f.name;
      elements := f.elements;
      weaponTypes := f.weaponTypes;
      characters := f.characters;
      artifactTypeSpecials := f.artifactTypeSpecials;
    }

    /** Clear All: every part emptied, the specials included. */
    method ClearAll()
      modifies this
      ensures Value() == EmptyFilter()
      ensures !FiltersEnabled(Value())
    {
      name := "";
      elements := {};
      weaponTypes := {};
      characters := {};
      artifactTypeSpecials := map[];
    }

    /** An element button, in place; the same filter the build panel's copy gives. */
    method ToggleElement(x: string)
      modifies this
      ensures Value() == Apply(old(Value()), BuildToggleElement(old(Value()), x))
    {
      if x in elements {
        elements := elements - {x};
      } else {
        elements := elements + {x};
      }
    }

    /** A weapon-type button, in place; the same filter the build panel's copy gives. */
    method ToggleWeaponType(x: string)
      modifies this
      ensures Value() == Apply(old(Value()), BuildToggleWeaponType(old(Value()), x))
    {
      if x in weaponTypes {
        weaponTypes := weaponTypes - {x};
      } else {
        weaponTypes := weaponTypes + {x};
      }
    }

    /**
     * Deselecting a special: nothing for a type with no selection, and the
     * type's key is deleted once its set is empty. The build panel's copying
     * handler gives the same filter.
     */
    method RemoveSpecial(t: string, s: string)
      modifies this
      ensures Value() == Apply(old(Value()), BuildRemoveSpecial(old(Value()), t, s))
    {
      if t !in artifactTypeSpecials {
        assert artifactTypeSpecials - {t} == artifactTypeSpecials;
        return;
      }
      var selected := artifactTypeSpecials[t] - {s};
      artifactTypeSpecials := artifactTypeSpecials[t := selected];
      if |selected| == 0 {
        artifactTypeSpecials := artifactTypeSpecials - {t};
      }
    }

    /** Selecting a special: `mapGetOrSetDefault(map, t, () => new Set()).add(s)`. */
    method AddSpecial(t: string, s: string)
      modifies this
      ensures Value() == Apply(old(Value()), BuildAddSpecial(old(Value()), t, s))
    {
      if t !in artifactTypeSpecials {
        artifactTypeSpecials := artifactTypeSpecials[t := {}];
      }
      artifactTypeSpecials := artifactTypeSpecials[t := artifactTypeSpecials[t] + {s}];
    }
  }

  // The artifact type rows of both panels.

  /** A row is shown only for a type the plans ask some special for. */
  predicate RowShown(active: Option<OSet<string>>) {
    active.Some? && active.value.Size() > 0
  }

  /**
   * The selector's options: the type's active specials, in their order, that
   * resolve to a known special and are not selected yet.
   */
  function Options(active: Option<OSet<string>>, selected: set<string>, known: set<string>): (r: seq<string>)
    ensures forall x :: x in r <==> active.Some? && active.value.Has(x) && x in known && x !in selected
  {
    if active.None? then []
    else Lists.Filter(active.value.items, (x: string) => x in known && x !in selected)
  }

  /** A hidden row offers nothing, and a selector with no options is not shown. */
  lemma HiddenRowHasNoOptions(active: Option<OSet<string>>, selected: set<string>, known: set<string>)
    requires !RowShown(active)
    ensures Options(active, selected, known) == []
  {
  }

  /** Options come in the active set's order and without repeats. */
  lemma {:induction false} OptionsAreOrderedActive(items: seq<string>, selected: set<string>, known: set<string>)
    requires Distinct(items)
    ensures Distinct(Options(Some(OSet(items)), selected, known))
  {
    if items != [] {
      var p := (x: string) => x in known && x !in selected;
      OptionsAreOrderedActive(items[1..], selected, known);
      assert Options(Some(OSet(items)), selected, known) == (if p(items[0]) then [items[0]] else []) + Lists.Filter(items[1..], p);
      assert items[0] !in items[1..];
    }
  }

  /** Selecting an offered option removes it from the options and leaves the others. */
  lemma SelectedOptionLeavesOptions(f: Filter, t: string, s: string, active: Option<OSet<string>>, known: set<string>)
    requires s in Options(active, SelectedFor(f.artifactTypeSpecials, t), known)
    ensures var after := Apply(f, BuildAddSpecial(f, t, s)).artifactTypeSpecials;
            forall x :: x in Options(active, SelectedFor(after, t), known) <==>
                          x in Options(active, SelectedFor(f.artifactTypeSpecials, t), known) && x != s
  {
  }

  // The character picker.

  /** The picker's own filter: name and element and weapon-type sets, no specials. */
  datatype PickerFilter = PickerFilter(name: string, elements: set<string>, weaponTypes: set<string>)

  /**
   * A character is listed when it is not ignored and each non-empty part
   * matches; unlike the list filters, a character without an element passes
   * the element part.
   */
  function PickerPasses(ignore: Option<set<string>>, f: PickerFilter, c: Character, fuzzy: (string, string) -> bool): (pass: bool)
    ensures pass ==> ignore.None? || c.id !in ignore.value
    ensures c.element == "" ==> (pass <==> (ignore.None? || c.id !in ignore.value) &&
                                           (f.weaponTypes == {} || c.weaponType in f.weaponTypes) &&
                                           (f.name == "" || fuzzy(f.name, c.name)))
  {
    (ignore.None? || c.id !in ignore.value) &&
    (|f.elements| == 0 || c.element == "" || c.element in f.elements) &&
    (|f.weaponTypes| == 0 || c.weaponType in f.weaponTypes) &&
    (|f.name| == 0 || fuzzy(f.name, c.name))
  }

  /** The picker's list: the dictionary's characters that pass, in dictionary order. */
  function Listed(characters: seq<Character>, ignore: Option<set<string>>, f: PickerFilter, fuzzy: (string, string) -> bool): (r: seq<Character>)
    ensures forall c :: c in r <==> c in characters && PickerPasses(ignore, f, c, fuzzy)
  {
    Lists.Filter(characters, (c: Character) => PickerPasses(ignore, f, c, fuzzy))
  }

  /**
   * An element filter that a character without an element passes in the
   * picker but fails in the plan and build lists.
   */
  lemma ElementlessPassesOnlyInPicker(c: Character, element: string, fuzzy: (string, string) -> bool)
    requires c.element == ""
    ensures PickerPasses(None, PickerFilter("", {element}, {}), c, fuzzy)
    ensures !ElementAndWeaponPass(Filter("", {element}, {}, {}, map[]), c)
  {
  }

  /** The dialog after a key press in the search box: whether it is open and what was selected. */
  datatype PickerState = PickerState(open: bool, selected: Option<string>)

  /** Enter picks the first listed character and closes the dialog; other keys, or an empty list, change nothing. */
  function KeyDown(open: bool, key: string, listed: seq<Character>): (r: PickerState)
    ensures r.selected.Some? <==> key == "Enter" && |listed| > 0
    ensures r.selected.Some? ==> r.selected.value == listed[0].id && !r.open
    ensures r.selected.None? ==> r.open == open
  {
    if key == "Enter" && |listed| > 0 then PickerState(false, Some(listed[0].id)) else PickerState(open, None)
  }

  /** What Enter selects is a character the picker lists, never an ignored one. */
  lemma EnterSelectsListedCharacter(open: bool, characters: seq<Character>, ignore: set<string>, f: PickerFilter,
                                    fuzzy: (string, string) -> bool)
    requires Listed(characters, Some(ignore), f, fuzzy) != []
    ensures var r := KeyDown(open, "Enter", Listed(characters, Some(ignore), f, fuzzy));
            r.selected.Some? && r.selected.value !in ignore &&
            exists c :: c in characters && c.id == r.selected.value && PickerPasses(Some(ignore), f, c, fuzzy)
  {
    var l := Listed(characters, Some(ignore), f, fuzzy);
    assert l[0] in l;
  }
}
