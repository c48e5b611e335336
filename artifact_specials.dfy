/**
 * The artifact main-stat rows and the substat row of the plan and build
 * cards: grouping a plan's artifact type plans by type, the specials each row
 * offers, and the requests adding and deleting a special send.
 */
module ArtifactSpecials {
  import opened Wrappers
  import opened Lists
  import opened JsCollections
  import opened Entities
  import A = ArtifactTypePlans

  /** A stored artifact type plan: its record id and what it asks for. */
  datatype TypePlanRecord = TypePlanRecord(id: string, artifactType: string, special: string)

  function AsTypePlan(r: TypePlanRecord): ArtifactTypePlan {
    ArtifactTypePlan(r.artifactType, r.special)
  }

  function AsTypePlans(rs: seq<TypePlanRecord>): (r: seq<ArtifactTypePlan>)
    ensures |r| == |rs| && forall i :: 0 <= i < |rs| ==> r[i] == AsTypePlan(rs[i])
  {
    seq(|rs|, i requires 0 <= i < |rs| => AsTypePlan(rs[i]))
  }

  function OfType(t: string): TypePlanRecord -> bool {
    (r: TypePlanRecord) => r.artifactType == t
  }

  // The plan card's rows.

  /** One step of the `reduce`: the record is pushed onto its type's group, created if missing. */
  function GroupStep(m: OMap<string, seq<TypePlanRecord>>, it: TypePlanRecord): (r: OMap<string, seq<TypePlanRecord>>)
    requires m.Valid()
    ensures r.Valid()
  {
    var group := if it.artifactType in m.entries then m.entries[it.artifactType] else [];
    m.Set(it.artifactType, group + [it])
  }

  /** The records grouped by type after the first `n`, as the `reduce` pushes them. */
  function GroupedUpTo(records: seq<TypePlanRecord>, n: nat): (m: OMap<string, seq<TypePlanRecord>>)
    requires n <= |records|
    ensures m.Valid()
  {
    if n == 0 then EmptyMap() else GroupStep(GroupedUpTo(records, n - 1), records[n - 1])
  }

  /** Some record among the first `n` has type `t`. */
  predicate HasType(records: seq<TypePlanRecord>, n: nat, t: string)
    requires n <= |records|
  {
    exists i :: 0 <= i < n && records[i].artifactType == t
  }

  /**
   * A type is a key exactly when a record has it, and its group is the
   * records of that type in their order.
   */
  lemma {:induction false} GroupedMeaning(records: seq<TypePlanRecord>, n: nat, t: string)
    requires n <= |records|
    ensures t in GroupedUpTo(records, n).entries <==> exists i :: 0 <= i < n && records[i].artifactType == t
    ensures t in GroupedUpTo(records, n).entries ==>
              GroupedUpTo(records, n).entries[t] == Lists.Filter(records[..n], OfType(t))
  {
    GroupedKeys(records, n, t);
    if t in GroupedUpTo(records, n).entries {
      GroupedGroups(records, n, t);
    }
  }

  lemma {:induction false} GroupedKeys(records: seq<TypePlanRecord>, n: nat, t: string)
    requires n <= |records|
    ensures t in GroupedUpTo(records, n).entries <==> HasType(records, n, t)
  {
    if n > 0 {
      GroupedKeys(records, n - 1, t);
      HasTypeStep(records, n, t);
    }
  }

  lemma HasTypeStep(records: seq<TypePlanRecord>, n: nat, t: string)
    requires 0 < n <= |records|
    ensures HasType(records, n, t) <==> HasType(records, n - 1, t) || records[n - 1].artifactType == t
  {
    if HasType(records, n, t) && records[n - 1].artifactType != t {
      var i :| 0 <= i < n && records[i].artifactType == t;
      assert 0 <= i < n - 1;
    }
    if HasType(records, n - 1, t) {
      var i :| 0 <= i < n - 1 && records[i].artifactType == t;
      assert 0 <= i < n;
    }
    if records[n - 1].artifactType == t {
      assert 0 <= n - 1 < n;
    }
  }

  lemma {:induction false} GroupedGroups(records: seq<TypePlanRecord>, n: nat, t: string)
    requires n <= |records|
    ensures t in GroupedUpTo(records, n).entries ==>
              GroupedUpTo(records, n).entries[t] == Lists.Filter(records[..n], OfType(t))
  {
    if n > 0 {
      var m := GroupedUpTo(records, n - 1);
      assert GroupedUpTo(records, n) == GroupStep(m, records[n - 1]);
      GroupedGroups(records, n - 1, t);
      GroupStepEntry(m, records[n - 1], t);
      FilterPrefixStep(records, n, t);
      if t !in m.entries {
        GroupedKeys(records, n - 1, t);
        NoTypeFiltersEmpty(records, n - 1, t);
      }
    }
  }

  lemma FilterPrefixStep(records: seq<TypePlanRecord>, n: nat, t: string)
    requires 0 < n <= |records|
    ensures Lists.Filter(records[..n], OfType(t)) ==
              Lists.Filter(records[..n - 1], OfType(t)) + (if records[n - 1].artifactType == t then [records[n - 1]] else [])
  {
    assert records[..n] == records[..n - 1] + [records[n - 1]];
    FilterSnoc(records[..n - 1], records[n - 1], t);
  }

  lemma NoTypeFiltersEmpty(records: seq<TypePlanRecord>, n: nat, t: string)
    requires n <= |records| && !HasType(records, n, t)
    ensures Lists.Filter(records[..n], OfType(t)) == []
  {
    forall i | 0 <= i < n
      ensures records[..n][i].artifactType != t
    {
      assert records[..n][i] == records[i];
    }
    FilterNone(records[..n], t);
  }

  /** The step appends the record to its own type's group and leaves the other groups alone. */
  lemma GroupStepEntry(m: OMap<string, seq<TypePlanRecord>>, it: TypePlanRecord, t: string)
    requires m.Valid()
    ensures t in GroupStep(m, it).entries <==> t in m.entries || it.artifactType == t
    ensures t in GroupStep(m, it).entries ==>
              GroupStep(m, it).entries[t] ==
                (if t in m.entries then m.entries[t] else []) + (if it.artifactType == t then [it] else [])
  {
  }

  lemma FilterSnoc(pre: seq<TypePlanRecord>, it: TypePlanRecord, t: string)
    ensures Lists.Filter(pre + [it], OfType(t)) ==
              Lists.Filter(pre, OfType(t)) + (if it.artifactType == t then [it] else [])
  {
    FilterAppend(pre, [it], OfType(t));
    assert Lists.Filter([it], OfType(t)) == if it.artifactType == t then [it] else [] by {
      assert [it][1..] == [];
    }
  }

  lemma {:induction false} FilterNone(s: seq<TypePlanRecord>, t: string)
    requires forall i :: 0 <= i < |s| ==> s[i].artifactType != t
    ensures Lists.Filter(s, OfType(t)) == []
  {
    if s != [] {
      FilterNone(s[1..], t);
    }
  }

  /**
   * The plan card's `reduce`: one pass pushing each record onto its type's
   * group and adding its special to its type's set.
   */
  method GroupRecords(records: seq<TypePlanRecord>)
    returns (grouped: OMap<string, seq<TypePlanRecord>>, specials: OMap<string, OSet<string>>)
    ensures grouped == GroupedUpTo(records, |records|)
    ensures specials == A.SpecialsByType(AsTypePlans(records))
  {
    grouped, specials := EmptyMap(), EmptyMap();
    for i := 0 to |records|
      invariant grouped == GroupedUpTo(records, i)
      invariant specials == A.SpecialsUpTo(AsTypePlans(records), i)
    {
      grouped := GroupStep(grouped, records[i]);
      specials := A.AddSpecial(specials, AsTypePlan(records[i]));
    }
  }

  /**
   * A plan card row's options: the type's specials, in their order, except
   * those selected for the type.
   */
  function Options(typeSpecials: seq<string>, selected: Option<OSet<string>>): (r: seq<string>)
    ensures forall i :: 0 <= i < |r| ==> r[i] in typeSpecials && (selected.None? || !selected.value.Has(r[i]))
    ensures forall i :: 0 <= i < |typeSpecials| && (selected.None? || !selected.value.Has(typeSpecials[i])) ==>
              typeSpecials[i] in r
  {
    Lists.Filter(typeSpecials, (s: string) => selected.None? || !selected.value.Has(s))
  }

  /** The selector of a row is shown only while it has options. */
  predicate SelectorShown(options: seq<string>) {
    |options| > 0
  }

  /** A row's selector is hidden exactly when every special of its type is already selected. */
  lemma SelectorShownIffUnselected(typeSpecials: seq<string>, selected: Option<OSet<string>>)
    ensures SelectorShown(Options(typeSpecials, selected)) <==>
              exists i :: 0 <= i < |typeSpecials| && (selected.None? || !selected.value.Has(typeSpecials[i]))
  {
    var r := Options(typeSpecials, selected);
    if |r| > 0 {
      var k :| 0 <= k < |typeSpecials| && typeSpecials[k] == r[0];
    }
  }

  /**
   * Creating with a chosen option adds a record whose special was not yet
   * selected for the row's type; grouped again, the type's set holds it.
   */
  lemma ChosenOptionJoinsItsType(records: seq<TypePlanRecord>, typeId: string, typeSpecials: seq<string>, i: nat,
                                 id: string)
    requires var m := A.SpecialsByType(AsTypePlans(records));
             i < |Options(typeSpecials, if typeId in m.entries then Some(m.entries[typeId]) else None)|
    ensures var m := A.SpecialsByType(AsTypePlans(records));
            var s := Options(typeSpecials, if typeId in m.entries then Some(m.entries[typeId]) else None)[i];
            !(typeId in m.entries && m.entries[typeId].Has(s)) &&
            A.SpecialsByType(AsTypePlans(records + [TypePlanRecord(id, typeId, s)])).entries[typeId].Has(s)
  {
    var m := A.SpecialsByType(AsTypePlans(records));
    var s := Options(typeSpecials, if typeId in m.entries then Some(m.entries[typeId]) else None)[i];
    assert AsTypePlans(records + [TypePlanRecord(id, typeId, s)]) == AsTypePlans(records) + [ArtifactTypePlan(typeId, s)];
    A.AppendedSpecialJoins(AsTypePlans(records), ArtifactTypePlan(typeId, s));
  }

  // The build card's rows (artifact stats and artifact types share them).

  /** The build card's `reduce`: a `get`, a `set` of a new `Set` for a new type, then `add`. */
  method GroupSpecials(items: seq<TypePlanRecord>) returns (acc: OMap<string, OSet<string>>)
    ensures acc == A.SpecialsByType(AsTypePlans(items))
  {
    acc := EmptyMap();
    for i := 0 to |items|
      invariant acc == A.SpecialsUpTo(AsTypePlans(items), i)
    {
      A.ActiveStepIsAddSpecial(acc, AsTypePlan(items[i]));
      acc := A.ActiveStep(acc, AsTypePlan(items[i]));
    }
  }

  /** What the build card's rows send. */
  datatype StatMutation = AddStat(special: string, artifactType: string) | DeleteStat(id: string)

  /** `addSpecial`: exactly the special and the type. */
  function AddStatRequest(artifactType: string, special: string): (m: StatMutation)
    ensures m.AddStat? && m.special == special && m.artifactType == artifactType
  {
    AddStat(special, artifactType)
  }

  /** `items.find(...)`: the index of the first record with that type and special. */
  function FindMatch(items: seq<TypePlanRecord>, artifactType: string, special: string): (r: Option<nat>)
    ensures r.Some? ==> r.value < |items| && items[r.value].artifactType == artifactType &&
                        items[r.value].special == special
    ensures r.Some? ==> forall j :: 0 <= j < r.value ==>
                          !(items[j].artifactType == artifactType && items[j].special == special)
    ensures r.None? ==> forall j :: 0 <= j < |items| ==>
                          !(items[j].artifactType == artifactType && items[j].special == special)
  {
    if items == [] then None
    else if items[0].artifactType == artifactType && items[0].special == special then Some(0)
    else
      match FindMatch(items[1..], artifactType, special)
      case None => None
      case Some(k) => Some(k + 1)
  }

  /**
   * `deleteSpecial`: the deletion of the first record with that type and
   * special; nothing when there is none, or when its id is empty (falsy).
   */
  function DeleteStatRequest(items: seq<TypePlanRecord>, artifactType: string, special: string): (r: Option<StatMutation>)
    ensures r.None? <==> FindMatch(items, artifactType, special).None? ||
                         items[FindMatch(items, artifactType, special).value].id == ""
    ensures r.Some? ==> r.value == DeleteStat(items[FindMatch(items, artifactType, special).value].id)
  {
    match FindMatch(items, artifactType, special)
    case None => None
    case Some(k) => if items[k].id == "" then None else Some(DeleteStat(items[k].id))
  }

  /**
   * A special is selected in a row exactly when a record asks for it; for
   * such a special with a non-empty id, deleting sends that record's id.
   */
  lemma SelectedSpecialCanBeDeleted(items: seq<TypePlanRecord>, t: string, s: string)
    requires t in A.SpecialsByType(AsTypePlans(items)).entries && A.SpecialsByType(AsTypePlans(items)).entries[t].Has(s)
    requires forall i :: 0 <= i < |items| ==> items[i].id != ""
    ensures DeleteStatRequest(items, t, s).Some?
    ensures exists i :: 0 <= i < |items| && DeleteStatRequest(items, t, s) == Some(DeleteStat(items[i].id)) &&
                        items[i].artifactType == t && items[i].special == s
  {
    A.SpecialsHas(AsTypePlans(items), t, s);
    var i :| 0 <= i < |items| && AsTypePlans(items)[i] == ArtifactTypePlan(t, s);
    assert items[i].artifactType == t && items[i].special == s;
    assert FindMatch(items, t, s).Some?;
  }

  /**
   * A build card row's options: the type's specials that resolve to a known
   * special and are not selected, in their order.
   */
  function ResolvedOptions(typeSpecials: seq<string>, known: set<string>, selected: Option<OSet<string>>): (r: seq<string>)
    ensures forall i :: 0 <= i < |r| ==>
              r[i] in typeSpecials && r[i] in known && (selected.None? || !selected.value.Has(r[i]))
    ensures forall i :: (0 <= i < |typeSpecials| && typeSpecials[i] in known &&
                         (selected.None? || !selected.value.Has(typeSpecials[i]))) ==> typeSpecials[i] in r
  {
    Lists.Filter(typeSpecials, (s: string) => s in known && (selected.None? || !selected.value.Has(s)))
  }

  // The substat rows.

  /** The plan card's options: the substat specials not already among the plan's substats. */
  function SubstatOptions(substatSpecials: seq<string>, substats: seq<string>): (r: seq<string>)
    ensures forall i :: 0 <= i < |r| ==> r[i] in substatSpecials && r[i] !in substats
    ensures forall i :: 0 <= i < |substatSpecials| && substatSpecials[i] !in substats ==> substatSpecials[i] in r
  {
    Lists.Filter(substatSpecials, (s: string) => s !in substats)
  }

  /** The draft of a plan whose substats the plan card edits. */
  class SubstatsDraft {
    var substats: seq<string>

    constructor(substats: seq<string>)
      ensures this.substats == substats
    {
      this.substats := substats;
    }

    /** `plan.substats.push(specialId)`. */
    method AddSubstat(specialId: string)
      modifies this
      ensures substats == old(substats) + [specialId]
    {
      substats := substats + [specialId];
    }

    /** `removeByPredMut(plan.substats, s => s == specialId)`. */
    method DeleteSubstat(specialId: string)
      modifies this
      ensures substats == RemoveAll(old(substats), specialId)
    {
      substats := RemoveAll(substats, specialId);
    }
  }

  /** The build card's selected substats: those that resolve to a known special, in their order. */
  function ResolvedSubstats(substats: seq<string>, known: set<string>): (r: seq<string>)
    ensures forall i :: 0 <= i < |r| ==> r[i] in substats && r[i] in known
    ensures forall i :: 0 <= i < |substats| && substats[i] in known ==> substats[i] in r
  {
    Lists.Filter(substats, (s: string) => s in known)
  }

  /** The build card's options: the substat specials whose id is not among the resolved selected ones. */
  function BuildSubstatOptions(substatSpecials: seq<string>, substats: seq<string>, known: set<string>): (r: seq<string>)
    ensures forall i :: 0 <= i < |r| ==> r[i] in substatSpecials && r[i] !in ResolvedSubstats(substats, known)
  {
    var selected := ResolvedSubstats(substats, known);
    Lists.Filter(substatSpecials, (s: string) => s !in selected)
  }

  /** The build card's `addSpecial`: the substats with the id at the end. */
  function AddedSubstat(substats: seq<string>, specialId: string): (r: seq<string>)
    ensures |r| == |substats| + 1 && r[..|substats|] == substats && r[|substats|] == specialId
  {
    substats + [specialId]
  }

  /** The build card's `deleteSpecial`: every equal id removed, the others in order. */
  function DeletedSubstat(substats: seq<string>, specialId: string): (r: seq<string>)
    ensures specialId !in r && |r| == |substats| - multiset(substats)[specialId]
    ensures forall i :: 0 <= i < |substats| && substats[i] != specialId ==> substats[i] in r
  {
    RemoveAllLength(substats, specialId);
    RemoveAll(substats, specialId)
  }

  /**
   * Both cards offer the same options when the substat specials are known:
   * no option is a current substat. Adding an option and deleting it again
   * gives back the substats, and the option is offered again.
   */
  lemma SubstatOptionsAgree(substatSpecials: seq<string>, substats: seq<string>, known: set<string>, i: nat)
    requires forall j :: 0 <= j < |substatSpecials| ==> substatSpecials[j] in known
    requires i < |SubstatOptions(substatSpecials, substats)|
    ensures BuildSubstatOptions(substatSpecials, substats, known) == SubstatOptions(substatSpecials, substats)
    ensures var s := SubstatOptions(substatSpecials, substats)[i];
            DeletedSubstat(AddedSubstat(substats, s), s) == substats &&
            s !in SubstatOptions(substatSpecials, AddedSubstat(substats, s)) &&
            s in SubstatOptions(substatSpecials, DeletedSubstat(AddedSubstat(substats, s), s))
  {
    var selected := ResolvedSubstats(substats, known);
    FilterSameTest(substatSpecials, (x: string) => x !in selected, (x: string) => x !in substats, substats, known);
    var s := SubstatOptions(substatSpecials, substats)[i];
    RemoveAllAppendFresh(substats, s);
  }

  lemma {:induction false} FilterSameTest(s: seq<string>, p: string -> bool, q: string -> bool,
                                          substats: seq<string>, known: set<string>)
    requires forall x :: p(x) <==> x !in ResolvedSubstats(substats, known)
    requires forall x :: q(x) <==> x !in substats
    requires forall j :: 0 <= j < |s| ==> s[j] in known
    ensures Lists.Filter(s, p) == Lists.Filter(s, q)
  {
    if s != [] {
      FilterSameTest(s[1..], p, q, substats, known);
      assert p(s[0]) <==> q(s[0]) by {
        if s[0] in substats {
          var j :| 0 <= j < |substats| && substats[j] == s[0];
          assert substats[j] in known;
        }
      }
    }
  }
}
