/**
 * The farm tips: artifact sets wanted by character plans, grouped by the
 * domain of blessing that drops them, with the characters that want them,
 * the domains with the most characters first.
 */
module DomainsOfBlessing {
  import opened Wrappers
  import opened Lists
  import opened JsCollections
  import opened MapGetOrSetDefault
  import ArraySort
  import DictionaryHooks

  /** An artifact-sets plan: the character plan (or build) it belongs to and the sets it asks for. */
  datatype SetsPlan = SetsPlan(characterPlan: string, artifactSets: seq<string>)

  /** The characters and sets collected for one domain, each a `Set` in insertion order. */
  datatype Group = Group(characters: OSet<string>, artifactSets: OSet<string>)

  /** One entry of the result. */
  datatype DomainSets = DomainSets(domain: string, characters: seq<string>, artifactSets: seq<string>)

  /**
   * The lookups the loop uses: the domain id dropping each artifact set, and
   * the character of each plan id. A set or plan the lookup misses is skipped.
   */
  datatype Lookups = Lookups(domainOf: map<string, string>, characterOf: map<string, string>)

  /** The contribution of set `artifactSet` of a plan, if both lookups hit: (domain, character, set). */
  function Contribution(l: Lookups, plan: string, artifactSet: string): (r: Option<(string, string, string)>)
    ensures r.Some? <==> artifactSet in l.domainOf && plan in l.characterOf
    ensures r.Some? ==> r.value == (l.domainOf[artifactSet], l.characterOf[plan], artifactSet)
  {
    if artifactSet in l.domainOf && plan in l.characterOf then Some((l.domainOf[artifactSet], l.characterOf[plan], artifactSet))
    else None
  }

  /** The collected groups are duplicate-free. */
  ghost predicate GroupsValid(acc: OMap<string, Group>) {
    acc.Valid() &&
    forall d :: d in acc.entries ==> acc.entries[d].characters.Valid() && acc.entries[d].artifactSets.Valid()
  }

  /** The body of the inner loop: `mapGetOrSetDefault` on the domain, then `add` the character and the set. */
  function AddSet(l: Lookups, acc: OMap<string, Group>, plan: string, artifactSet: string): (r: OMap<string, Group>)
    requires GroupsValid(acc)
    ensures GroupsValid(r)
  {
    match Contribution(l, plan, artifactSet)
    case None => acc
    case Some((d, c, s)) =>
      var (acc', v) := GetOrSetDefault(acc, d, Group(EmptySet(), EmptySet()));
      acc'.Set(d, Group(v.characters.Add(c), v.artifactSets.Add(s)))
  }

  /** The groups after the first `j` sets of `item`. */
  function AddSets(l: Lookups, acc: OMap<string, Group>, item: SetsPlan, j: nat): (r: OMap<string, Group>)
    requires GroupsValid(acc) && j <= |item.artifactSets|
    ensures GroupsValid(r)
  {
    if j == 0 then acc
    else AddSet(l, AddSets(l, acc, item, j - 1), item.characterPlan, item.artifactSets[j - 1])
  }

  /** The groups after the first `n` plans. */
  function GroupsUpTo(l: Lookups, items: seq<SetsPlan>, n: nat): (r: OMap<string, Group>)
    requires n <= |items|
    ensures GroupsValid(r)
  {
    if n == 0 then EmptyMap()
    else
      var item := items[n - 1];
      AddSets(l, GroupsUpTo(l, items, n - 1), item, |item.artifactSets|)
  }

  /** The result before sorting: one entry per domain, in the order domains were first met. */
  function Entries(acc: OMap<string, Group>): (r: seq<DomainSets>)
    requires GroupsValid(acc)
    ensures |r| == |acc.keys|
    ensures forall i :: 0 <= i < |r| ==>
              (r[i].domain == acc.keys[i] &&
               r[i].characters == acc.entries[acc.keys[i]].characters.items &&
               r[i].artifactSets == acc.entries[acc.keys[i]].artifactSets.items)
  {
    seq(|acc.keys|, i requires 0 <= i < |acc.keys| =>
      var g := acc.entries[acc.keys[i]];
      DomainSets(acc.keys[i], g.characters.items, g.artifactSets.items))
  }

  /** The sort key: `(a, b) => b.characters.length - a.characters.length` sorts ascending by minus the count. */
  function ByCharactersDescending(e: DomainSets): int {
    -|e.characters|
  }

  /** The whole aggregation. */
  function Aggregate(l: Lookups, items: seq<SetsPlan>): seq<DomainSets> {
    SortBy(Entries(GroupsUpTo(l, items, |items|)), ByCharactersDescending)
  }

  // The contributions, as a reference for what the groups hold.

  /** The contributions of the first `j` sets of `item`. */
  ghost function ItemContributions(l: Lookups, item: SetsPlan, j: nat): set<(string, string, string)>
    requires j <= |item.artifactSets|
  {
    if j == 0 then {}
    else
      var c := Contribution(l, item.characterPlan, item.artifactSets[j - 1]);
      ItemContributions(l, item, j - 1) + if c.Some? then {c.value} else {}
  }

  /** The contributions of the first `n` plans. */
  ghost function Contributions(l: Lookups, items: seq<SetsPlan>, n: nat): set<(string, string, string)>
    requires n <= |items|
  {
    if n == 0 then {}
    else Contributions(l, items, n - 1) + ItemContributions(l, items[n - 1], |items[n - 1].artifactSets|)
  }

  /** A contribution is a set some plan asks for whose domain and plan are both known. */
  lemma {:induction false} ContributionsMeaning(l: Lookups, items: seq<SetsPlan>, n: nat, t: (string, string, string))
    requires n <= |items|
    ensures t in Contributions(l, items, n) <==>
            exists i, k :: 0 <= i < n && 0 <= k < |items[i].artifactSets| &&
                           Contribution(l, items[i].characterPlan, items[i].artifactSets[k]) == Some(t)
  {
    if n > 0 {
      ContributionsMeaning(l, items, n - 1, t);
      var item := items[n - 1];
      ItemContributionsMeaning(l, item, |item.artifactSets|, t);
      if t in ItemContributions(l, item, |item.artifactSets|) {
        var k :| 0 <= k < |item.artifactSets| && Contribution(l, item.characterPlan, item.artifactSets[k]) == Some(t);
        assert 0 <= n - 1 < n && Contribution(l, items[n - 1].characterPlan, items[n - 1].artifactSets[k]) == Some(t);
      }
    }
  }

  lemma {:induction false} ItemContributionsMeaning(l: Lookups, item: SetsPlan, j: nat, t: (string, string, string))
    requires j <= |item.artifactSets|
    ensures t in ItemContributions(l, item, j) <==>
            exists k :: 0 <= k < j && Contribution(l, item.characterPlan, item.artifactSets[k]) == Some(t)
  {
    if j > 0 {
      ItemContributionsMeaning(l, item, j - 1, t);
    }
  }

  /** The groups hold exactly the contributions `cs`, projected by domain. */
  ghost predicate Matches(acc: OMap<string, Group>, cs: set<(string, string, string)>)
    requires GroupsValid(acc)
  {
    KeysMatch(acc, cs) && CharactersMatch(acc, cs) && SetsMatch(acc, cs)
  }

  ghost predicate KeysMatch(acc: OMap<string, Group>, cs: set<(string, string, string)>) {
    forall d :: d in acc.entries <==> exists c, s :: (d, c, s) in cs
  }

  ghost predicate CharactersMatch(acc: OMap<string, Group>, cs: set<(string, string, string)>)
    requires GroupsValid(acc)
  {
    forall d, c :: d in acc.entries ==> (acc.entries[d].characters.Has(c) <==> exists s :: (d, c, s) in cs)
  }

  ghost predicate SetsMatch(acc: OMap<string, Group>, cs: set<(string, string, string)>)
    requires GroupsValid(acc)
  {
    forall d, s :: d in acc.entries ==> (acc.entries[d].artifactSets.Has(s) <==> exists c :: (d, c, s) in cs)
  }

  lemma AddSetMatches(l: Lookups, acc: OMap<string, Group>, cs: set<(string, string, string)>, plan: string, artifactSet: string)
    requires GroupsValid(acc) && Matches(acc, cs)
    ensures var c := Contribution(l, plan, artifactSet);
            Matches(AddSet(l, acc, plan, artifactSet), cs + if c.Some? then {c.value} else {})
  {
    var c := Contribution(l, plan, artifactSet);
    if c.Some? {
      var (d0, c0, s0) := c.value;
      var r := AddSet(l, acc, plan, artifactSet);
      AddSetSpec(l, acc, plan, artifactSet, d0, c0, s0, r);
      ContributionMatches(acc, r, cs, d0, c0, s0);
    }
  }

  /** `AddSet` with a contribution puts its domain in the groups, its character and its set in the domain's group. */
  lemma AddSetSpec(l: Lookups, acc: OMap<string, Group>, plan: string, artifactSet: string, d0: string, c0: string, s0: string,
                   r: OMap<string, Group>)
    requires GroupsValid(acc) && Contribution(l, plan, artifactSet) == Some((d0, c0, s0)) && r == AddSet(l, acc, plan, artifactSet)
    ensures forall d :: d in r.entries <==> d in acc.entries || d == d0
    ensures forall d, ch :: d in r.entries ==>
              (r.entries[d].characters.Has(ch) <==> (d in acc.entries && acc.entries[d].characters.Has(ch)) || (d == d0 && ch == c0))
    ensures forall d, st :: d in r.entries ==>
              (r.entries[d].artifactSets.Has(st) <==> (d in acc.entries && acc.entries[d].artifactSets.Has(st)) || (d == d0 && st == s0))
  {
    var (acc', v) := GetOrSetDefault(acc, d0, Group(EmptySet(), EmptySet()));
    var g := Group(v.characters.Add(c0), v.artifactSets.Add(s0));
    assert r == acc'.Set(d0, g);
    assert r.entries == acc'.entries[d0 := g];
    assert forall ch :: g.characters.Has(ch) <==> (d0 in acc.entries && acc.entries[d0].characters.Has(ch)) || ch == c0;
    assert forall st :: g.artifactSets.Has(st) <==> (d0 in acc.entries && acc.entries[d0].artifactSets.Has(st)) || st == s0;
  }

  /** One more contribution, added to groups that matched the others, gives groups that match them all. */
  lemma ContributionMatches(acc: OMap<string, Group>, r: OMap<string, Group>, cs: set<(string, string, string)>,
                            d0: string, c0: string, s0: string)
    requires GroupsValid(acc) && GroupsValid(r) && Matches(acc, cs)
    requires forall d :: d in r.entries <==> d in acc.entries || d == d0
    requires forall d, ch :: d in r.entries ==>
               (r.entries[d].characters.Has(ch) <==> (d in acc.entries && acc.entries[d].characters.Has(ch)) || (d == d0 && ch == c0))
    requires forall d, st :: d in r.entries ==>
               (r.entries[d].artifactSets.Has(st) <==> (d in acc.entries && acc.entries[d].artifactSets.Has(st)) || (d == d0 && st == s0))
    ensures Matches(r, cs + {(d0, c0, s0)})
  {
    KeysMatchAdded(acc, r, cs, d0, c0, s0);
    CharactersMatchAdded(acc, r, cs, d0, c0, s0);
    SetsMatchAdded(acc, r, cs, d0, c0, s0);
  }

  lemma KeysMatchAdded(acc: OMap<string, Group>, r: OMap<string, Group>, cs: set<(string, string, string)>,
                       d0: string, c0: string, s0: string)
    requires KeysMatch(acc, cs)
    requires forall d :: d in r.entries <==> d in acc.entries || d == d0
    ensures KeysMatch(r, cs + {(d0, c0, s0)})
  {
    var cs' := cs + {(d0, c0, s0)};
    assert (d0, c0, s0) in cs';
    forall d | d in acc.entries && d != d0
      ensures exists c, s :: (d, c, s) in cs'
    {
      var c1, s1 :| (d, c1, s1) in cs;
      assert (d, c1, s1) in cs';
    }
  }

  lemma CharactersMatchAdded(acc: OMap<string, Group>, r: OMap<string, Group>, cs: set<(string, string, string)>,
                             d0: string, c0: string, s0: string)
    requires GroupsValid(acc) && GroupsValid(r) && KeysMatch(acc, cs) && CharactersMatch(acc, cs)
    requires forall d, ch :: d in r.entries ==>
               (r.entries[d].characters.Has(ch) <==> (d in acc.entries && acc.entries[d].characters.Has(ch)) || (d == d0 && ch == c0))
    ensures CharactersMatch(r, cs + {(d0, c0, s0)})
  {
    var cs' := cs + {(d0, c0, s0)};
    assert (d0, c0, s0) in cs';
    forall d, ch | d in acc.entries && acc.entries[d].characters.Has(ch)
      ensures exists s :: (d, ch, s) in cs'
    {
      var s1 :| (d, ch, s1) in cs;
      assert (d, ch, s1) in cs';
    }
  }

  lemma SetsMatchAdded(acc: OMap<string, Group>, r: OMap<string, Group>, cs: set<(string, string, string)>,
                       d0: string, c0: string, s0: string)
    requires GroupsValid(acc) && GroupsValid(r) && KeysMatch(acc, cs) && SetsMatch(acc, cs)
    requires forall d, st :: d in r.entries ==>
               (r.entries[d].artifactSets.Has(st) <==> (d in acc.entries && acc.entries[d].artifactSets.Has(st)) || (d == d0 && st == s0))
    ensures SetsMatch(r, cs + {(d0, c0, s0)})
  {
    var cs' := cs + {(d0, c0, s0)};
    assert (d0, c0, s0) in cs';
    forall d, st | d in acc.entries && acc.entries[d].artifactSets.Has(st)
      ensures exists c :: (d, c, st) in cs'
    {
      var c1 :| (d, c1, st) in cs;
      assert (d, c1, st) in cs';
    }
  }

  lemma {:induction false} AddSetsMatches(l: Lookups, acc: OMap<string, Group>, cs: set<(string, string, string)>, item: SetsPlan, j: nat)
    requires GroupsValid(acc) && Matches(acc, cs) && j <= |item.artifactSets|
    ensures Matches(AddSets(l, acc, item, j), cs + ItemContributions(l, item, j))
  {
    if j > 0 {
      AddSetsMatches(l, acc, cs, item, j - 1);
      AddSetMatches(l, AddSets(l, acc, item, j - 1), cs + ItemContributions(l, item, j - 1),
                    item.characterPlan, item.artifactSets[j - 1]);
    }
  }

  /** The groups after `n` plans are the contributions of those plans, by domain. */
  lemma {:induction false} GroupsMatch(l: Lookups, items: seq<SetsPlan>, n: nat)
    requires n <= |items|
    ensures Matches(GroupsUpTo(l, items, n), Contributions(l, items, n))
  {
    if n > 0 {
      GroupsMatch(l, items, n - 1);
      var item := items[n - 1];
      AddSetsMatches(l, GroupsUpTo(l, items, n - 1), Contributions(l, items, n - 1), item, |item.artifactSets|);
    }
  }

  /**
   * Every set in a group is dropped by that domain, and a set with no known
   * domain or a plan with no known character adds nothing.
   */
  lemma GroupSetsBelongToDomain(l: Lookups, items: seq<SetsPlan>, d: string, s: string)
    requires var g := GroupsUpTo(l, items, |items|); d in g.entries && g.entries[d].artifactSets.Has(s)
    ensures s in l.domainOf && l.domainOf[s] == d
    ensures exists i :: 0 <= i < |items| && s in items[i].artifactSets && items[i].characterPlan in l.characterOf
  {
    GroupsMatch(l, items, |items|);
    var c :| (d, c, s) in Contributions(l, items, |items|);
    ContributionsMeaning(l, items, |items|, (d, c, s));
    var i, k :| 0 <= i < |items| && 0 <= k < |items[i].artifactSets| &&
                Contribution(l, items[i].characterPlan, items[i].artifactSets[k]) == Some((d, c, s));
  }

  /** Set `k` of `item` is dropped by domain `d` and `item` is a plan of character `c`. */
  predicate Wants(l: Lookups, item: SetsPlan, k: int, d: string, c: string)
    requires 0 <= k < |item.artifactSets|
  {
    item.characterPlan in l.characterOf && l.characterOf[item.characterPlan] == c &&
    item.artifactSets[k] in l.domainOf && l.domainOf[item.artifactSets[k]] == d
  }

  /**
   * A character is in a domain's group exactly when a plan of that character
   * asks for a set the domain drops.
   */
  lemma GroupCharacters(l: Lookups, items: seq<SetsPlan>, d: string, c: string)
    requires d in GroupsUpTo(l, items, |items|).entries
    ensures GroupsUpTo(l, items, |items|).entries[d].characters.Has(c) <==>
            exists i, k :: 0 <= i < |items| && 0 <= k < |items[i].artifactSets| && Wants(l, items[i], k, d, c)
  {
    GroupsMatch(l, items, |items|);
    var g := GroupsUpTo(l, items, |items|);
    if g.entries[d].characters.Has(c) {
      var s :| (d, c, s) in Contributions(l, items, |items|);
      ContributionsMeaning(l, items, |items|, (d, c, s));
      var i, k :| 0 <= i < |items| && 0 <= k < |items[i].artifactSets| &&
                  Contribution(l, items[i].characterPlan, items[i].artifactSets[k]) == Some((d, c, s));
      assert Wants(l, items[i], k, d, c);
    }
    if exists i, k :: 0 <= i < |items| && 0 <= k < |items[i].artifactSets| && Wants(l, items[i], k, d, c) {
      var i, k :| 0 <= i < |items| && 0 <= k < |items[i].artifactSets| && Wants(l, items[i], k, d, c);
      var s := items[i].artifactSets[k];
      assert Contribution(l, items[i].characterPlan, s) == Some((d, c, s));
      ContributionsMeaning(l, items, |items|, (d, c, s));
    }
  }

  /**
   * The result is ordered by character count, most first, and keeps the
   * order domains were first met in among equal counts; it is a
   * permutation of the unsorted entries.
   */
  lemma AggregateSorted(l: Lookups, items: seq<SetsPlan>, k: int)
    ensures SortedBy(Aggregate(l, items), ByCharactersDescending)
    ensures multiset(Aggregate(l, items)) == multiset(Entries(GroupsUpTo(l, items, |items|)))
    ensures WithKey(Aggregate(l, items), ByCharactersDescending, k)
         == WithKey(Entries(GroupsUpTo(l, items, |items|)), ByCharactersDescending, k)
  {
    var e := Entries(GroupsUpTo(l, items, |items|));
    SortBySortedPermutation(e, ByCharactersDescending);
    SortByStable(e, ByCharactersDescending, k);
  }

  /** No domain occurs twice in the result, and each entry's characters and sets are duplicate-free. */
  lemma AggregateDistinct(l: Lookups, items: seq<SetsPlan>)
    ensures var r := Aggregate(l, items);
            Distinct(DomainsOf(r)) &&
            forall i :: 0 <= i < |r| ==> Distinct(r[i].characters) && Distinct(r[i].artifactSets)
  {
    var g := GroupsUpTo(l, items, |items|);
    var e := Entries(g);
    var r := Aggregate(l, items);
    SortBySortedPermutation(e, ByCharactersDescending);
    assert DomainsOf(e) == g.keys;
    DistinctPermutation(e, r);
    assert forall m :: 0 <= m < |e| ==> Distinct(e[m].characters) && Distinct(e[m].artifactSets);
    PermutationKeepsDistinctLists(e, r);
  }

  /** Reordering the entries keeps each entry's lists duplicate-free. */
  lemma PermutationKeepsDistinctLists(e: seq<DomainSets>, r: seq<DomainSets>)
    requires multiset(e) == multiset(r)
    requires forall m :: 0 <= m < |e| ==> Distinct(e[m].characters) && Distinct(e[m].artifactSets)
    ensures forall i :: 0 <= i < |r| ==> Distinct(r[i].characters) && Distinct(r[i].artifactSets)
  {
    forall i | 0 <= i < |r|
      ensures Distinct(r[i].characters) && Distinct(r[i].artifactSets)
    {
      assert r[i] in multiset(e);
      var m :| 0 <= m < |e| && e[m] == r[i];
    }
  }

  /** The result names exactly the domains some contribution names. */
  lemma AggregateDomains(l: Lookups, items: seq<SetsPlan>, d: string)
    ensures d in DomainsOf(Aggregate(l, items)) <==>
            exists i, j :: 0 <= i < |items| && 0 <= j < |items[i].artifactSets| &&
                           Contribution(l, items[i].characterPlan, items[i].artifactSets[j]).Some? &&
                           l.domainOf[items[i].artifactSets[j]] == d
  {
    var g := GroupsUpTo(l, items, |items|);
    var e := Entries(g);
    AggregateSorted(l, items, 0);
    DomainsOfPermutation(e, Aggregate(l, items), d);
    assert DomainsOf(e) == g.keys;
    GroupsMatch(l, items, |items|);
    if d in g.entries {
      var c, s :| (d, c, s) in Contributions(l, items, |items|);
      ContributionsMeaning(l, items, |items|, (d, c, s));
    }
    if exists i, j :: 0 <= i < |items| && 0 <= j < |items[i].artifactSets| &&
                      Contribution(l, items[i].characterPlan, items[i].artifactSets[j]).Some? &&
                      l.domainOf[items[i].artifactSets[j]] == d {
      var i, j :| 0 <= i < |items| && 0 <= j < |items[i].artifactSets| &&
                  Contribution(l, items[i].characterPlan, items[i].artifactSets[j]).Some? &&
                  l.domainOf[items[i].artifactSets[j]] == d;
      var t := Contribution(l, items[i].characterPlan, items[i].artifactSets[j]).value;
      ContributionsMeaning(l, items, |items|, t);
    }
  }

  /** The domains of the entries, in order. */
  function DomainsOf(r: seq<DomainSets>): (ds: seq<string>)
    ensures |ds| == |r| && forall i :: 0 <= i < |r| ==> ds[i] == r[i].domain
  {
    seq(|r|, i requires 0 <= i < |r| => r[i].domain)
  }

  lemma DomainsOfPermutation(e: seq<DomainSets>, r: seq<DomainSets>, d: string)
    requires multiset(e) == multiset(r)
    ensures d in DomainsOf(e) <==> d in DomainsOf(r)
  {
    if d in DomainsOf(e) {
      var i :| 0 <= i < |e| && e[i].domain == d;
      assert e[i] in multiset(r);
      var j :| 0 <= j < |r| && r[j] == e[i];
      assert DomainsOf(r)[j] == d;
    }
    if d in DomainsOf(r) {
      var i :| 0 <= i < |r| && r[i].domain == d;
      assert r[i] in multiset(e);
      var j :| 0 <= j < |e| && e[j] == r[i];
      assert DomainsOf(e)[j] == d;
    }
  }

  /** A permutation of entries with distinct domains has distinct domains. */
  lemma DistinctPermutation(e: seq<DomainSets>, r: seq<DomainSets>)
    requires Distinct(DomainsOf(e)) && multiset(e) == multiset(r)
    ensures Distinct(DomainsOf(r))
  {
    forall i, j | 0 <= i < j < |r|
      ensures r[i].domain != r[j].domain
    {
      if r[i].domain == r[j].domain {
        assert r[i] in multiset(e) && r[j] in multiset(e);
        var a :| 0 <= a < |e| && e[a] == r[i];
        var b :| 0 <= b < |e| && e[b] == r[j];
        if a == b {
          assert r[i] == r[j];
          CountTwo(r, i, j);
          CountOne(e, a);
          assert false;
        }
      }
    }
  }

  /** Two positions holding one value count it twice. */
  lemma CountTwo<T>(r: seq<T>, i: int, j: int)
    requires 0 <= i < j < |r| && r[i] == r[j]
    ensures multiset(r)[r[i]] >= 2
  {
    assert r == r[..i] + [r[i]] + r[i + 1..j] + [r[j]] + r[j + 1..];
  }

  /** A value at a position whose domain occurs once in distinct-domain entries is counted once. */
  lemma CountOne(e: seq<DomainSets>, a: int)
    requires 0 <= a < |e| && Distinct(DomainsOf(e))
    ensures multiset(e)[e[a]] == 1
  {
    assert e == e[..a] + [e[a]] + e[a + 1..];
    forall m | 0 <= m < |e| && m != a
      ensures e[m] != e[a]
    {
      assert DomainsOf(e)[m] != DomainsOf(e)[a];
    }
    assert forall m :: 0 <= m < a ==> e[..a][m] == e[m];
    assert forall m :: a < m < |e| ==> e[a + 1..][m - a - 1] == e[m];
    assert e[a] !in e[..a];
    assert e[a] !in e[a + 1..];
  }

  // The loops.

  /** The two loops filling `domainsWithSets`. */
  method CollectGroups(l: Lookups, items: seq<SetsPlan>) returns (domainsWithSets: OMap<string, Group>)
    ensures domainsWithSets == GroupsUpTo(l, items, |items|)
  {
    domainsWithSets := EmptyMap();
    var i := 0;
    while i < |items|
      invariant 0 <= i <= |items|
      invariant domainsWithSets == GroupsUpTo(l, items, i)
    {
      var item := items[i];
      ghost var base := domainsWithSets;
      var j := 0;
      while j < |item.artifactSets|
        invariant 0 <= j <= |item.artifactSets|
        invariant domainsWithSets == AddSets(l, base, item, j)
      {
        var artifactSet := item.artifactSets[j];
        if artifactSet in l.domainOf && item.characterPlan in l.characterOf {
          var domain := l.domainOf[artifactSet];
          var character := l.characterOf[item.characterPlan];
          var (m, v) := GetOrSetDefault(domainsWithSets, domain, Group(EmptySet(), EmptySet()));
          domainsWithSets := m.Set(domain, Group(v.characters.Add(character), v.artifactSets.Add(artifactSet)));
        }
        j := j + 1;
      }
      i := i + 1;
    }
  }

  /** `useDomainsByArtifactSets` / `domainsByArtifactSetsAtom` / `aggregateSets`: collect, list, sort in place. */
  method AggregateSets(l: Lookups, items: seq<SetsPlan>) returns (res: array<DomainSets>)
    ensures fresh(res)
    ensures res[..] == Aggregate(l, items)
  {
    var domainsWithSets := CollectGroups(l, items);
    var entries := Entries(domainsWithSets);
    res := new DomainSets[|entries|](i requires 0 <= i < |entries| => entries[i]);
    assert res[..] == entries;
    ArraySort.SortInPlace(res, ByCharactersDescending);
  }

  // The three callers and their lookups.

  /** `useDomainsByArtifactSets` and `domainsByArtifactSetsAtom`: domains from the index by set, characters from the plans. */
  function PlanLookups<D>(domainsBySet: map<string, DictionaryHooks.Domain<D>>, planCharacter: map<string, string>): (l: Lookups)
    ensures forall s :: s in l.domainOf <==> s in domainsBySet
    ensures forall s :: s in l.domainOf ==> l.domainOf[s] == domainsBySet[s].id
    ensures l.characterOf == planCharacter
  {
    Lookups(map s | s in domainsBySet :: domainsBySet[s].id, planCharacter)
  }

  /** The build id → character map of `aggregateSets`: a later build with the same id wins. */
  function CharacterByBuildId(builds: seq<(string, string)>): (m: map<string, string>)
    ensures forall id :: id in m <==> exists i :: 0 <= i < |builds| && builds[i].0 == id
  {
    if builds == [] then map[]
    else
      var init := builds[..|builds| - 1];
      var m := CharacterByBuildId(init);
      assert forall i :: 0 <= i < |init| ==> init[i] == builds[i];
      m[builds[|builds| - 1].0 := builds[|builds| - 1].1]
  }

  lemma {:induction false} CharacterByBuildIdLastWins(builds: seq<(string, string)>, i: int)
    requires 0 <= i < |builds|
    requires forall j :: i < j < |builds| ==> builds[j].0 != builds[i].0
    ensures CharacterByBuildId(builds)[builds[i].0] == builds[i].1
  {
    if i < |builds| - 1 {
      var init := builds[..|builds| - 1];
      assert init[i] == builds[i];
      CharacterByBuildIdLastWins(init, i);
    }
  }

  /**
   * The lookups of `aggregateSets`: `!domain || !character` also skips an
   * empty domain id or an empty character.
   */
  function BuildLookups(domainsBySet: map<string, string>, builds: seq<(string, string)>): (l: Lookups)
    ensures forall s :: s in l.domainOf <==> s in domainsBySet && domainsBySet[s] != ""
    ensures forall b :: b in l.characterOf <==> b in CharacterByBuildId(builds) && CharacterByBuildId(builds)[b] != ""
  {
    var byBuild := CharacterByBuildId(builds);
    Lookups(map s | s in domainsBySet && domainsBySet[s] != "" :: domainsBySet[s],
            map b | b in byBuild && byBuild[b] != "" :: byBuild[b])
  }
}
