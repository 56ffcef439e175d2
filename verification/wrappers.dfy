/** Optional values: JavaScript's `undefined` (or any falsy value) is `None`. */
module Wrappers {

  datatype Option<+T> = None | Some(value: T)

  /** Property lookup on a plain object: a missing key reads as `undefined`. */
  function Get<K, T>(m: map<K, T>, k: K): (r: Option<T>)
    ensures r.Some? <==> k in m
    ensures r.Some? ==> r.value == m[k]
  {
    if k in m then Some(m[k]) else None
  }
}
