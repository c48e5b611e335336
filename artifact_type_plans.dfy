/** The artifact type plans of all plans, and the specials they ask for, by artifact type. */
module ArtifactTypePlans {
  import opened Lists
  import opened JsCollections
  import opened MapGetOrSetDefault
  import opened Entities

  /** `artifactTypePlansAtom`: every plan's artifact type plans, plan by plan. */
  function Flatten(plans: seq<Plan>): (r: seq<ArtifactTypePlan>)
    ensures |r| == Total(plans)
  {
    if plans == [] then [] else plans[0].artifactTypePlans + Flatten(plans[1..])
  }

  function Total(plans: seq<Plan>): nat {
    if plans == [] then 0 else |plans[0].artifactTypePlans| + Total(plans[1..])
  }

  /** An artifact type plan is in the flattened list iff some plan has it. */
  lemma {:induction false} FlattenMembers(plans: seq<Plan>, atp: ArtifactTypePlan)
    ensures atp in Flatten(plans) <==> exists i :: 0 <= i < |plans| && atp in plans[i].artifactTypePlans
  {
    if plans != [] {
      FlattenMembers(plans[1..], atp);
      if exists i :: 1 <= i < |plans| && atp in plans[i].artifactTypePlans {
        var i :| 1 <= i < |plans| && atp in plans[i].artifactTypePlans;
        assert plans[1..][i - 1] == plans[i];
      }
    }
  }

  ghost predicate SpecialsValid(m: OMap<string, OSet<string>>) {
    m.Valid() && forall t :: t in m.entries ==> m.entries[t].Valid()
  }

  /** One iteration: `mapGetOrSetDefault(acc, type, () => new Set()).add(special)`. */
  function AddSpecial(acc: OMap<string, OSet<string>>, it: ArtifactTypePlan): (r: OMap<string, OSet<string>>)
    requires SpecialsValid(acc)
    ensures SpecialsValid(r)
  {
    var v := if it.artifactType in acc.entries then acc.entries[it.artifactType] else EmptySet();
    acc.Set(it.artifactType, v.Add(it.special))
  }

  /** The step is `mapGetOrSetDefault` followed by `add` on the set it returns. */
  lemma AddSpecialIsGetOrSetDefault(acc: OMap<string, OSet<string>>, it: ArtifactTypePlan)
    requires SpecialsValid(acc)
    ensures var (acc', v) := GetOrSetDefault(acc, it.artifactType, EmptySet());
            AddSpecial(acc, it) == acc'.Set(it.artifactType, v.Add(it.special))
  {
    var t := it.artifactType;
    var (acc', v) := GetOrSetDefault(acc, t, EmptySet());
    if t !in acc.entries {
      assert acc' == acc.Set(t, EmptySet());
      assert acc'.entries[t := v.Add(it.special)] == acc.entries[t := v.Add(it.special)];
    }
  }

  /** The step adds `it.special` to the set of `it.artifactType`, creating it if missing, and touches no other type. */
  lemma AddSpecialSpec(acc: OMap<string, OSet<string>>, it: ArtifactTypePlan, t: string, x: string)
    requires SpecialsValid(acc)
    ensures t in AddSpecial(acc, it).entries <==> t in acc.entries || t == it.artifactType
    ensures t in acc.entries && t != it.artifactType ==> AddSpecial(acc, it).entries[t] == acc.entries[t]
    ensures AddSpecial(acc, it).entries[it.artifactType].Has(x) <==>
              x == it.special || (it.artifactType in acc.entries && acc.entries[it.artifactType].Has(x))
  {
    var v := if it.artifactType in acc.entries then acc.entries[it.artifactType] else EmptySet();
    assert AddSpecial(acc, it).entries == acc.entries[it.artifactType := v.Add(it.special)];
  }

  /** The map after the first `n` artifact type plans: one `Set` of specials per artifact type. */
  function SpecialsUpTo(atps: seq<ArtifactTypePlan>, n: nat): (m: OMap<string, OSet<string>>)
    requires n <= |atps|
    ensures SpecialsValid(m)
  {
    if n == 0 then EmptyMap() else AddSpecial(SpecialsUpTo(atps, n - 1), atps[n - 1])
  }

  function SpecialsByType(atps: seq<ArtifactTypePlan>): OMap<string, OSet<string>> {
    SpecialsUpTo(atps, |atps|)
  }

  /** The artifact types of some artifact type plans. */
  function TypesOf(atps: seq<ArtifactTypePlan>): set<string> {
    set a | a in atps :: a.artifactType
  }

  /**
   * The map holds the artifact type plans `seen`: a type is a key iff one of
   * them has it, and its set holds exactly the specials asked for with it.
   */
  ghost predicate SpecialsMatch(m: OMap<string, OSet<string>>, seen: seq<ArtifactTypePlan>) {
    m.entries.Keys == TypesOf(seen) &&
    (forall t, s {:trigger m.entries[t].Has(s)} :: t in m.entries ==> (m.entries[t].Has(s) <==> ArtifactTypePlan(t, s) in seen))
  }

  lemma AddSpecialMatches(m: OMap<string, OSet<string>>, seen: seq<ArtifactTypePlan>, it: ArtifactTypePlan,
                          r: OMap<string, OSet<string>>, seen': seq<ArtifactTypePlan>)
    requires SpecialsValid(m)
    requires SpecialsMatch(m, seen)
    requires r == AddSpecial(m, it)
    requires seen' == seen + [it]
    ensures SpecialsMatch(r, seen')
  {
    AddSpecialKeys(m, seen, it);
    forall t, s | t in r.entries
      ensures r.entries[t].Has(s) <==> ArtifactTypePlan(t, s) in seen'
    {
      AddSpecialHas(m, seen, it, t, s);
    }
  }

  lemma AddSpecialKeys(m: OMap<string, OSet<string>>, seen: seq<ArtifactTypePlan>, it: ArtifactTypePlan)
    requires SpecialsValid(m)
    requires SpecialsMatch(m, seen)
    ensures AddSpecial(m, it).entries.Keys == TypesOf(seen + [it])
  {
    forall t
      ensures t in AddSpecial(m, it).entries <==> t in TypesOf(seen + [it])
    {
      AddSpecialSpec(m, it, t, "");
      if t in m.entries {
        var a :| a in seen && a.artifactType == t;
        assert a in seen + [it];
      }
      if t == it.artifactType {
        assert it in seen + [it];
      }
    }
  }

  lemma AddSpecialHas(m: OMap<string, OSet<string>>, seen: seq<ArtifactTypePlan>, it: ArtifactTypePlan, t: string,
                      s: string)
    requires SpecialsValid(m)
    requires SpecialsMatch(m, seen)
    requires t in AddSpecial(m, it).entries
    ensures AddSpecial(m, it).entries[t].Has(s) <==> ArtifactTypePlan(t, s) in seen + [it]
  {
    AddSpecialSpec(m, it, t, s);
    if t != it.artifactType {
      assert ArtifactTypePlan(t, s) != it;
    } else if t !in m.entries {
      assert ArtifactTypePlan(t, s) !in seen;
    }
  }

  /** The map after `n` artifact type plans holds exactly those plans. */
  lemma {:induction false} SpecialsByTypeMeaning(atps: seq<ArtifactTypePlan>, n: nat)
    requires n <= |atps|
    ensures SpecialsMatch(SpecialsUpTo(atps, n), atps[..n])
  {
    if n > 0 {
      SpecialsByTypeMeaning(atps, n - 1);
      assert atps[..n] == atps[..n - 1] + [atps[n - 1]];
      assert SpecialsUpTo(atps, n) == AddSpecial(SpecialsUpTo(atps, n - 1), atps[n - 1]);
      AddSpecialMatches(SpecialsUpTo(atps, n - 1), atps[..n - 1], atps[n - 1], SpecialsUpTo(atps, n), atps[..n]);
    }
  }

  /** A type's set holds a special exactly when an artifact type plan asks for that pair. */
  lemma SpecialsHas(atps: seq<ArtifactTypePlan>, t: string, s: string)
    requires t in SpecialsByType(atps).entries
    ensures SpecialsByType(atps).entries[t].Has(s) <==> ArtifactTypePlan(t, s) in atps
  {
    SpecialsByTypeMeaning(atps, |atps|);
    assert atps[..|atps|] == atps;
  }

  /** The map after `n` plans depends only on the first `n`. */
  lemma {:induction false} SpecialsUpToPrefix(a: seq<ArtifactTypePlan>, b: seq<ArtifactTypePlan>, n: nat)
    requires n <= |a| && n <= |b| && a[..n] == b[..n]
    ensures SpecialsUpTo(a, n) == SpecialsUpTo(b, n)
  {
    if n > 0 {
      assert a[n - 1] == a[..n][n - 1] && b[n - 1] == b[..n][n - 1];
      assert a[..n - 1] == a[..n][..n - 1] && b[..n - 1] == b[..n][..n - 1];
      SpecialsUpToPrefix(a, b, n - 1);
    }
  }

  /** An appended artifact type plan's special joins its type's set. */
  lemma AppendedSpecialJoins(atps: seq<ArtifactTypePlan>, it: ArtifactTypePlan)
    ensures var m := SpecialsByType(atps + [it]);
            it.artifactType in m.entries && m.entries[it.artifactType].Has(it.special)
  {
    var a := atps + [it];
    assert a[..|atps|] == atps[..|atps|];
    SpecialsUpToPrefix(a, atps, |atps|);
    AddSpecialSpec(SpecialsUpTo(atps, |atps|), it, it.artifactType, it.special);
  }

  /** No plans: no artifact type plans and no keys. */
  lemma NoPlansNoSpecials()
    ensures Flatten([]) == [] && SpecialsByType(Flatten([])).entries == map[]
  {
  }

  /** `artifactTypesPlansSpecialsMapAtom`: the loop calling `mapGetOrSetDefault(...).add`. */
  method CollectSpecialsByType(items: seq<ArtifactTypePlan>) returns (acc: OMap<string, OSet<string>>)
    ensures acc == SpecialsByType(items)
  {
    acc := EmptyMap();
    assert acc == SpecialsUpTo(items, 0);
    var i := 0;
    while i < |items|
      invariant 0 <= i <= |items|
      invariant acc == SpecialsUpTo(items, i)
    {
      acc := AddSpecial(acc, items[i]);
      i := i + 1;
    }
  }

  /**
   * One step of the `reduce` of the build filter panel: an explicit `get`,
   * and a `set` of a new `Set` for a type not seen yet, then `add`.
   */
  function ActiveStep(acc: OMap<string, OSet<string>>, it: ArtifactTypePlan): (r: OMap<string, OSet<string>>)
    requires SpecialsValid(acc)
    ensures SpecialsValid(r)
  {
    var acc' := if it.artifactType in acc.entries then acc else acc.Set(it.artifactType, EmptySet());
    var types := acc'.entries[it.artifactType];
    acc'.Set(it.artifactType, types.Add(it.special))
  }

  /**
   * The panel's step and the list's step build the same map, keys in the same
   * order; so the panel's `reduce` over the artifact type plans is `SpecialsByType`.
   */
  lemma ActiveStepIsAddSpecial(acc: OMap<string, OSet<string>>, it: ArtifactTypePlan)
    requires SpecialsValid(acc)
    ensures ActiveStep(acc, it) == AddSpecial(acc, it)
  {
    var t := it.artifactType;
    if t !in acc.entries {
      var v := EmptySet<string>().Add(it.special);
      var acc' := acc.Set(t, EmptySet());
      assert acc'.Set(t, v).keys == acc.Set(t, v).keys;
      assert acc'.Set(t, v).entries == acc.Set(t, v).entries;
    }
  }
}
