/** Values that may be absent. */
module Options {

  datatype Option<+T> = None | Some(value: T)

  /** The entry of a table, if there is one. */
  function Find<K, V>(m: map<K, V>, k: K): Option<V> {
    if k in m then Some(m[k]) else None
  }
}
