/** `mapGetOrSetDefault`: read a key of a `Map`, storing a default first when the key is missing. */
module MapGetOrSetDefault {
  import opened JsCollections

  /**
   * The map after the call and the value returned. `default` is what the
   * factory would produce; the factory is only called for a missing key.
   */
  function GetOrSetDefault<K(==,!new), V>(m: OMap<K, V>, key: K, default: V): (r: (OMap<K, V>, V))
    requires m.Valid()
    ensures r.0.Valid() && key in r.0.entries && r.1 == r.0.entries[key]
    ensures key in m.entries ==> r.0 == m && r.1 == m.entries[key]
    ensures key !in m.entries ==> r.1 == default && r.0.keys == m.keys + [key]
    ensures forall k :: k != key ==> (k in r.0.entries <==> k in m.entries) && (k in m.entries ==> r.0.entries[k] == m.entries[k])
  {
    if key in m.entries then (m, m.entries[key])
    else
      var m' := m.Set(key, default);
      (m', default)
  }

  /** Calling it twice with the same key stores at most one default: the second call changes nothing. */
  lemma GetOrSetDefaultIdempotent<K(!new), V>(m: OMap<K, V>, key: K, d1: V, d2: V)
    requires m.Valid()
    ensures var (m1, v1) := GetOrSetDefault(m, key, d1);
            GetOrSetDefault(m1, key, d2) == (m1, v1)
  {
  }

  /** A `Map` passed by reference. */
  class MapRef<K(==,!new), V> {
    var value: OMap<K, V>

    constructor(m: OMap<K, V>)
      ensures value == m
    {
      value := m;
    }
  }

  /** The call on a live map: `factoryCalled` says whether `defaultFactory` ran. */
  method MapGetOrSetDefault<K(==,!new), V>(m: MapRef<K, V>, key: K, defaultFactory: () -> V)
    returns (v: V, factoryCalled: bool)
    requires m.value.Valid()
    modifies m
    ensures factoryCalled <==> key !in old(m.value.entries)
    ensures (m.value, v) == GetOrSetDefault(old(m.value), key, defaultFactory())
  {
    factoryCalled := false;
    if key !in m.value.entries {
      factoryCalled := true;
      m.value := m.value.Set(key, defaultFactory());
    }
    v := m.value.entries[key];
  }
}
