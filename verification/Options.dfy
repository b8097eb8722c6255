/** Optional values, and map lookup in their terms. */
module Options {
  datatype Option<+T> = None | Some(value: T)

  /** Python's `mapping.get(key)`. */
  function Get<K, V>(m: map<K, V>, key: K): Option<V> {
    if key in m then Some(m[key]) else None
  }
}
