/** The one failure-carrying shape shared by the other modules. */
module Wrappers {
  datatype Option<+T> = None | Some(value: T)

  /** Writing a key twice, or writing and erasing it, forgets the first write. */
  lemma Overwrite<K, V>(m: map<K, V>, k: K, a: V, b: V)
    ensures m[k := a][k := b] == m[k := b]
    ensures m[k := a][k := b] - {k} == m - {k}
  {
  }
}
