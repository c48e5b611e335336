/**
 * The dictionary context of the client: each dictionary collection as its
 * item list and an id → item map, plus the index of domains of blessing by
 * the artifact sets they drop, and the hooks that read one collection.
 */
module DictionaryHooks {
  import opened Wrappers

  /** A domain of blessing: its id, the artifact sets it drops, and its other fields. */
  datatype Domain<D> = Domain(id: string, artifactSets: seq<string>, rest: D)

  /** `m` with each of the first `j` sets of `d` mapped to `d`. */
  function AddSets<D>(m: map<string, Domain<D>>, d: Domain<D>, j: nat): map<string, Domain<D>>
    requires j <= |d.artifactSets|
  {
    if j == 0 then m
    else AddSets(m, d, j - 1)[d.artifactSets[j - 1] := d]
  }

  /** The sets added to the index are the first `j` of `d`, all mapped to `d`; other keys keep their domain. */
  lemma {:induction false} AddSetsSpec<D>(m: map<string, Domain<D>>, d: Domain<D>, j: nat, s: string)
    requires j <= |d.artifactSets|
    ensures s in AddSets(m, d, j) <==> s in m || s in d.artifactSets[..j]
    ensures s in AddSets(m, d, j) ==> AddSets(m, d, j)[s] == if s in d.artifactSets[..j] then d else m[s]
  {
    if j > 0 {
      assert d.artifactSets[..j] == d.artifactSets[..j - 1] + [d.artifactSets[j - 1]];
      AddSetsSpec(m, d, j - 1, s);
    }
  }

  /** `getDomainsByArtifactSetId` after the first `n` domains. */
  function ByArtifactSetIdUpTo<D>(items: seq<Domain<D>>, n: nat): (m: map<string, Domain<D>>)
    requires n <= |items|
  {
    if n == 0 then map[]
    else
      AddSets(ByArtifactSetIdUpTo(items, n - 1), items[n - 1], |items[n - 1].artifactSets|)
  }

  /** The last of the first `n` domains that lists `s`, or -1. */
  function LastListing<D>(items: seq<Domain<D>>, n: nat, s: string): (i: int)
    requires n <= |items|
    ensures -1 <= i < n
    ensures i >= 0 ==> s in items[i].artifactSets
    ensures forall j :: i < j < n ==> s !in items[j].artifactSets
  {
    if n == 0 then -1
    else if s in items[n - 1].artifactSets then n - 1
    else LastListing(items, n - 1, s)
  }

  /**
   * A set is indexed iff some domain lists it, and then it is mapped to the
   * last domain in input order that lists it.
   */
  lemma {:induction false} ByArtifactSetIdLastWins<D>(items: seq<Domain<D>>, n: nat, s: string)
    requires n <= |items|
    ensures s in ByArtifactSetIdUpTo(items, n) <==> LastListing(items, n, s) >= 0
    ensures s in ByArtifactSetIdUpTo(items, n) ==> ByArtifactSetIdUpTo(items, n)[s] == items[LastListing(items, n, s)]
  {
    if n > 0 {
      var d := items[n - 1];
      assert d.artifactSets[..|d.artifactSets|] == d.artifactSets;
      AddSetsSpec(ByArtifactSetIdUpTo(items, n - 1), d, |d.artifactSets|, s);
      ByArtifactSetIdLastWins(items, n - 1, s);
    }
  }

  /** `getDomainsByArtifactSetId`: every set listed by some domain, mapped to the last domain listing it. */
  function ByArtifactSetId<D>(items: seq<Domain<D>>): (m: map<string, Domain<D>>)
  {
    ByArtifactSetIdUpTo(items, |items|)
  }

  /** Every set any domain lists is indexed, and only those; each maps to a domain listing it. */
  lemma ByArtifactSetIdKeys<D>(items: seq<Domain<D>>, s: string)
    ensures s in ByArtifactSetId(items) <==> exists i :: 0 <= i < |items| && s in items[i].artifactSets
    ensures s in ByArtifactSetId(items) ==> ByArtifactSetId(items)[s] in items && s in ByArtifactSetId(items)[s].artifactSets
  {
    ByArtifactSetIdLastWins(items, |items|, s);
  }

  /** The two loops of `getDomainsByArtifactSetId`. */
  method GetDomainsByArtifactSetId<D>(items: seq<Domain<D>>) returns (acc: map<string, Domain<D>>)
    ensures acc == ByArtifactSetId(items)
  {
    acc := map[];
    var i := 0;
    while i < |items|
      invariant 0 <= i <= |items|
      invariant acc == ByArtifactSetIdUpTo(items, i)
    {
      var it := items[i];
      ghost var base := acc;
      var j := 0;
      while j < |it.artifactSets|
        invariant 0 <= j <= |it.artifactSets|
        invariant acc == AddSets(base, it, j)
      {
        acc := acc[it.artifactSets[j] := it];
        j := j + 1;
      }
      assert ByArtifactSetIdUpTo(items, i + 1) == AddSets(base, items[i], |items[i].artifactSets|);
      i := i + 1;
    }
  }

  /** `createRecordsMap`: id → item, a later item replacing an earlier one with the same id. */
  function RecordsMap<D>(items: seq<Domain<D>>): (m: map<string, Domain<D>>)
    ensures forall id :: id in m <==> exists i :: 0 <= i < |items| && items[i].id == id
    ensures forall id :: id in m ==> m[id].id == id && m[id] in items
  {
    if items == [] then map[]
    else
      var m := RecordsMap(items[..|items| - 1]);
      var last := items[|items| - 1];
      assert forall i :: 0 <= i < |items| - 1 ==> items[..|items| - 1][i] == items[i];
      m[last.id := last]
  }

  /** A dictionary collection: its items and `createRecordsMap(items)`. */
  datatype CollectionValue<D> = CollectionValue(items: seq<Domain<D>>, byId: map<string, Domain<D>>)

  function CollectionValueOf<D>(items: seq<Domain<D>>): CollectionValue<D> {
    CollectionValue(items, RecordsMap(items))
  }

  /**
   * The context as the hooks see it, by collection name. The record types of
   * the collections differ in the client; the model gives them one shape.
   */
  datatype Context<D> = Context(collections: map<string, CollectionValue<D>>, byArtifactSetId: map<string, Domain<D>>)

  /** The context `DictionaryProvider` builds from the stored collections. */
  function Provide<D>(stored: map<string, seq<Domain<D>>>): (ctx: Context<D>)
    requires DOMAINS_OF_BLESSING in stored
    ensures forall c :: c in ctx.collections <==> c in stored
    ensures ctx.byArtifactSetId == ByArtifactSetId(stored[DOMAINS_OF_BLESSING])
    ensures forall c :: c in ctx.collections ==> ctx.collections[c].items == stored[c]
  {
    Context(map c | c in stored :: CollectionValueOf(stored[c]), ByArtifactSetId(stored[DOMAINS_OF_BLESSING]))
  }

  const DOMAINS_OF_BLESSING := "domainsOfBlessing"
  const ARTIFACT_TYPES := "artifactTypes"

  /** `useItem` of `createCollectionValueHooks(collection)`: the item with that id, if the collection has one. */
  function UseItem<D>(ctx: Context<D>, collection: string, id: string): (r: Option<Domain<D>>)
    ensures r.Some? ==> collection in ctx.collections && id in ctx.collections[collection].byId &&
                        r.value == ctx.collections[collection].byId[id]
  {
    if collection in ctx.collections && id in ctx.collections[collection].byId then
      Some(ctx.collections[collection].byId[id])
    else None
  }

  /** The collection the `useDomainsOfBlessing*` hooks are created for, as written. */
  const DOMAINS_OF_BLESSING_HOOKS_AS_WRITTEN := ARTIFACT_TYPES

  /** The collection they are evidently meant to read. */
  const DOMAINS_OF_BLESSING_HOOKS := DOMAINS_OF_BLESSING

  /** `useDomainsOfBlessingItem` as written. */
  function UseDomainsOfBlessingItemAsWritten<D>(ctx: Context<D>, id: string): Option<Domain<D>> {
    UseItem(ctx, DOMAINS_OF_BLESSING_HOOKS_AS_WRITTEN, id)
  }

  /** `useDomainsOfBlessingItem` bound to the domains of blessing. */
  function UseDomainsOfBlessingItem<D>(ctx: Context<D>, id: string): Option<Domain<D>> {
    UseItem(ctx, DOMAINS_OF_BLESSING_HOOKS, id)
  }

  /**
   * As written, a domain the index by artifact set names is not found by its
   * own id when no artifact type has that id.
   */
  lemma DomainHookMissesIndexedDomain<D>(rest: D)
    ensures var stored := map[DOMAINS_OF_BLESSING := [Domain("d1", ["s1"], rest)], ARTIFACT_TYPES := []];
            var ctx := Provide(stored);
            "s1" in ctx.byArtifactSetId && ctx.byArtifactSetId["s1"].id == "d1" &&
            UseDomainsOfBlessingItemAsWritten(ctx, "d1").None?
  {
    var items: seq<Domain<D>> := [Domain("d1", ["s1"], rest)];
    var stored := map[DOMAINS_OF_BLESSING := items, ARTIFACT_TYPES := []];
    var ctx := Provide(stored);
    assert "s1" in items[0].artifactSets;
    ByArtifactSetIdLastWins(items, 1, "s1");
    assert ctx.collections[ARTIFACT_TYPES].byId == map[];
  }

  /**
   * Bound to the domains of blessing, the item hook finds every domain the
   * index by artifact set returns, under its own id.
   */
  lemma DomainHookFindsIndexedDomain<D>(stored: map<string, seq<Domain<D>>>, s: string)
    requires DOMAINS_OF_BLESSING in stored
    requires s in Provide(stored).byArtifactSetId
    ensures var d := Provide(stored).byArtifactSetId[s];
            var found := UseDomainsOfBlessingItem(Provide(stored), d.id);
            found.Some? && found.value.id == d.id && found.value in stored[DOMAINS_OF_BLESSING] && s in d.artifactSets
  {
    var items := stored[DOMAINS_OF_BLESSING];
    ByArtifactSetIdKeys(items, s);
    var d := Provide(stored).byArtifactSetId[s];
    var i :| 0 <= i < |items| && items[i] == d;
    assert d.id in RecordsMap(items);
  }
}
