/** Option and the outcome of a Python call that may raise. */
module Wrappers {

  datatype Option<+T> = None | Some(value: T)

  /** The exceptions the modelled code lets escape to its caller. */
  datatype Fault =
    | FetchFailed       // a fetch raised, or its result variable stayed unbound
    | IndexOutOfRange   // `xs[i]` on a too-short list (IndexError)
    | KeyMissing        // `d[k]` on an absent key (KeyError)
    | ValueError        // `int(s)` on a string that is not an integer literal
    | NoneAttribute     // a method called on None (AttributeError)

  /** The value of a call that returns normally, or the exception it raised. */
  datatype Outcome<+T> = Ok(value: T) | Raised(fault: Fault)

  /** `d.get(k)` on a Python dict. */
  function Get<K, V>(m: map<K, V>, k: K): (r: Option<V>)
    ensures r.Some? <==> k in m
    ensures r.Some? ==> r.value == m[k]
  {
    if k in m then Some(m[k]) else None
  }
}
