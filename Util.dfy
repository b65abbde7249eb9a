/** Small shared helpers: an Option type standing for Java's nullable references. */
module Util {

  /** `None` models a Java `null` result; `Some(v)` a present value. */
  datatype Option<+T> = None | Some(value: T)

  /** Map lookup that returns `None` on a missing key, as `java.util.Map.get` returns `null`. */
  function Get<K, V>(m: map<K, V>, k: K): (r: Option<V>)
    ensures r.Some? <==> k in m
    ensures r.Some? ==> r.value == m[k]
  {
    if k in m then Some(m[k]) else None
  }
}
