/** Optional values (a missing file, an unset head, a null parent), distinctness, and the largest safe integer. */
module Wrappers {
  const MAX_SAFE := 9007199254740991

  datatype Option<+T> = None | Some(value: T)

  function Get<K, V>(m: map<K, V>, k: K): Option<V> {
    if k in m then Some(m[k]) else None
  }

  predicate Distinct<T(==)>(s: seq<T>) {
    forall i, j :: 0 <= i < j < |s| ==> s[i] != s[j]
  }
}
