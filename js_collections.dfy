/**
 * JavaScript `Map` and `Set` values. Both iterate in insertion order, and the
 * client code depends on that order (batch building, merged record lists), so
 * they are modelled as a sequence of keys plus the key/value table.
 */
module JsCollections {
  import opened Lists

  /** A JavaScript `Map`; re-setting an existing key keeps its position. */
  datatype OMap<K(==,!new), V> = OMap(keys: seq<K>, entries: map<K, V>) {

    ghost predicate Valid() {
      Distinct(keys) && forall k :: k in keys <==> k in entries
    }

    predicate Has(k: K) {
      k in entries
    }

    function Size(): nat {
      |keys|
    }

    /** `map.set(k, v)`. */
    function Set(k: K, v: V): (m: OMap<K, V>)
      requires Valid()
      ensures m.Valid()
      ensures m.entries == entries[k := v]
      ensures k in entries ==> m.keys == keys
      ensures k !in entries ==> m.keys == keys + [k]
    {
      if k in entries then OMap(keys, entries[k := v])
      else
        assert forall j :: 0 <= j < |keys| ==> keys[j] in entries;
        OMap(keys + [k], entries[k := v])
    }

    /** `map.delete(k)`. */
    function Delete(k: K): (m: OMap<K, V>)
      requires Valid()
      ensures m.Valid()
      ensures m.entries == entries - {k}
      ensures m.keys == RemoveAll(keys, k)
    {
      var ks := RemoveAll(keys, k);
      DistinctRemoveAll(keys, k);
      assert forall j :: j in ks <==> j in keys && j != k;
      OMap(ks, entries - {k})
    }

    /** The values in iteration order (`Array.from(map.values())`). */
    function Values(): (vs: seq<V>)
      requires Valid()
      ensures |vs| == |keys|
      ensures forall i :: 0 <= i < |keys| ==> vs[i] == entries[keys[i]]
    {
      ValuesOf(keys, entries)
    }
  }

  function ValuesOf<K, V>(ks: seq<K>, m: map<K, V>): (vs: seq<V>)
    requires forall i :: 0 <= i < |ks| ==> ks[i] in m
    ensures |vs| == |ks|
    ensures forall i :: 0 <= i < |ks| ==> vs[i] == m[ks[i]]
  {
    if ks == [] then [] else [m[ks[0]]] + ValuesOf(ks[1..], m)
  }

  function EmptyMap<K(==,!new), V>(): (m: OMap<K, V>)
    ensures m.Valid() && m.keys == [] && m.entries == map[]
  {
    OMap([], map[])
  }

  lemma DistinctRemoveAll<K(!new)>(s: seq<K>, x: K)
    requires Distinct(s)
    ensures Distinct(RemoveAll(s, x))
    ensures |RemoveAll(s, x)| == if x in s then |s| - 1 else |s|
  {
    DistinctRemoveAllDistinct(s, x);
    RemoveAllLength(s, x);
    if x in s {
      DistinctCount(s, x);
    }
  }

  lemma {:induction false} DistinctRemoveAllDistinct<K(!new)>(s: seq<K>, x: K)
    requires Distinct(s)
    ensures Distinct(RemoveAll(s, x))
  {
    if s != [] {
      DistinctRemoveAllDistinct(s[1..], x);
      assert s[0] !in s[1..];
      DistinctCons(s[0], RemoveAll(s[1..], x));
    }
  }

  /** An element absent from a sequence without repeats can go in front. */
  lemma DistinctCons<K>(a: K, t: seq<K>)
    requires Distinct(t) && a !in t
    ensures Distinct([a] + t)
  {
  }

  lemma DistinctCount<K>(s: seq<K>, x: K)
    requires Distinct(s) && x in s
    ensures multiset(s)[x] == 1
  {
    if s[0] == x {
      assert s == [s[0]] + s[1..];
      assert x !in s[1..];
    } else {
      assert s == [s[0]] + s[1..];
      DistinctCount(s[1..], x);
    }
  }

  /** The entries of `src` whose keys occur in `ks`. */
  function Restrict<K, V>(src: map<K, V>, ks: seq<K>): map<K, V> {
    map k | k in src && k in ks :: src[k]
  }

  lemma RestrictCons<K, V>(e: map<K, V>, ks: seq<K>, src: map<K, V>)
    requires ks != [] && ks[0] in src
    ensures e[ks[0] := src[ks[0]]] + Restrict(src, ks[1..]) == e + Restrict(src, ks)
  {
    assert ks == [ks[0]] + ks[1..];
  }

  lemma PrefixOfPrefix<K>(s: seq<K>, t: seq<K>, u: seq<K>)
    requires |s| >= |t| >= |u|
    requires s[..|t|] == t && t[..|u|] == u
    ensures s[..|u|] == u
  {
    assert s[..|u|] == s[..|t|][..|u|];
  }

  /** Each key of `ks` set in turn to its value in `src`. */
  function SetEach<K(==,!new), V>(a: OMap<K, V>, ks: seq<K>, src: map<K, V>): (m: OMap<K, V>)
    requires a.Valid()
    requires forall i :: 0 <= i < |ks| ==> ks[i] in src
    ensures m.Valid()
    ensures m.entries == a.entries + Restrict(src, ks)
    ensures |m.keys| >= |a.keys| && m.keys[..|a.keys|] == a.keys
    decreases |ks|
  {
    if ks == [] then
      assert Restrict(src, ks) == map[];
      a
    else
      var a' := a.Set(ks[0], src[ks[0]]);
      var m := SetEach(a', ks[1..], src);
      RestrictCons(a.entries, ks, src);
      PrefixOfPrefix(m.keys, a'.keys, a.keys);
      m
  }

  /**
   * `new Map([...a, ...b])`: `a`'s entries in order, then the entries of `b`
   * whose keys `a` lacks; on a shared key the value from `b` wins.
   */
  function Spread<K(==,!new), V>(a: OMap<K, V>, b: OMap<K, V>): (m: OMap<K, V>)
    requires a.Valid() && b.Valid()
    ensures m.Valid()
    ensures m.entries == a.entries + b.entries
    ensures |m.keys| >= |a.keys| && m.keys[..|a.keys|] == a.keys
  {
    var m := SetEach(a, b.keys, b.entries);
    assert Restrict(b.entries, b.keys) == b.entries;
    m
  }

  /** A JavaScript `Set` of keys in insertion order. */
  datatype OSet<K(==,!new)> = OSet(items: seq<K>) {

    ghost predicate Valid() {
      Distinct(items)
    }

    predicate Has(k: K) {
      k in items
    }

    function Size(): nat {
      |items|
    }

    /** `set.add(k)`: appended unless already present. */
    function Add(k: K): (s: OSet<K>)
      requires Valid()
      ensures s.Valid()
      ensures forall j :: s.Has(j) <==> Has(j) || j == k
      ensures s.items == if k in items then items else items + [k]
    {
      if k in items then this else OSet(items + [k])
    }

    /** `set.delete(k)`. */
    function Delete(k: K): (s: OSet<K>)
      requires Valid()
      ensures s.Valid()
      ensures forall j :: s.Has(j) <==> Has(j) && j != k
      ensures s.items == RemoveAll(items, k)
    {
      DistinctRemoveAll(items, k);
      OSet(RemoveAll(items, k))
    }

    /** `set.has(k) ? set.delete(k) : set.add(k)`, the filter buttons' toggle. */
    function Toggle(k: K): (s: OSet<K>)
      requires Valid()
      ensures s.Valid()
      ensures s.Has(k) <==> !Has(k)
      ensures forall j :: j != k ==> (s.Has(j) <==> Has(j))
    {
      if k in items then Delete(k) else Add(k)
    }

    /** Each of `ks` added in turn (`new Set([...this, ...ks])`). */
    function AddAll(ks: seq<K>): (s: OSet<K>)
      requires Valid()
      ensures s.Valid()
      ensures forall j :: s.Has(j) <==> Has(j) || j in ks
      ensures |s.items| >= |items| && s.items[..|items|] == items
      decreases |ks|
    {
      if ks == [] then this
      else
        var s := Add(ks[0]).AddAll(ks[1..]);
        assert ks == [ks[0]] + ks[1..];
        s
    }
  }

  function EmptySet<K(==,!new)>(): (s: OSet<K>)
    ensures s.Valid() && s.items == []
  {
    OSet([])
  }

  /** `new Set(ks)`: the distinct elements of `ks` in first-occurrence order. */
  function SetOf<K(==,!new)>(ks: seq<K>): (s: OSet<K>)
    ensures s.Valid()
    ensures forall j :: s.Has(j) <==> j in ks
  {
    EmptySet<K>().AddAll(ks)
  }
}
