/** Walking over a map in an unspecified order: the part of the map already visited. */
module Maps {
  function Part<K, V>(m: map<K, V>, keys: set<K>): map<K, V> {
    map k | k in keys && k in m :: m[k]
  }

  /** Nothing visited yet. */
  lemma PartNone<K, V>(m: map<K, V>)
    ensures Part(m, m.Keys - m.Keys) == map[]
  {
  }

  /** Visiting one more of the keys that remain. */
  lemma PartMore<K, V>(m: map<K, V>, rest: set<K>, k: K)
    requires k in m && k in rest
    ensures Part(m, m.Keys - (rest - {k})) == Part(m, m.Keys - rest)[k := m[k]]
  {
  }

  /** Nothing remains. */
  lemma PartAll<K, V>(m: map<K, V>)
    ensures Part(m, m.Keys - {}) == m
  {
  }

  lemma OverlayUpdate<K, V>(base: map<K, V>, over: map<K, V>, k: K, v: V)
    ensures base + over[k := v] == (base + over)[k := v]
  {
  }
}
