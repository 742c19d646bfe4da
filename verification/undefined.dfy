/**
 * JavaScript's `undefined` as an optional value: a missing object key, a
 * missing query parameter, an unset environment variable.
 */
module Undefined {

  datatype Option<T> = None | Some(value: T)

  /** `o ?? fallback`: the value when it is defined, the fallback otherwise. */
  function Coalesce<T>(o: Option<T>, fallback: T): (r: T)
    ensures o.Some? ==> r == o.value
    ensures o.None? ==> r == fallback
  {
    if o.Some? then o.value else fallback
  }

  /** Looks a key up in a map; a missing key reads as None (`undefined`). */
  function Get<K, V>(m: map<K, V>, k: K): (r: Option<V>)
    ensures r.Some? <==> k in m
    ensures r.Some? ==> r.value == m[k]
  {
    if k in m then Some(m[k]) else None
  }
}
