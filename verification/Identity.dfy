/** Shared vocabulary: opaque branded ids and optional values. */
module Identity {

  /** A branded id: an opaque string, compared only for equality. */
  type Id(==, !new, 00)

  datatype Option<+T> = None | Some(value: T)

  function Lookup<K, V>(m: map<K, V>, k: K): Option<V> {
    if k in m then Some(m[k]) else None
  }
}
