/** Optional values and the truthiness test that both the Python back end and
    the JavaScript client apply to optional strings. */
module Wrappers {

  /** A value that may be absent: a missing JSON key, a NULL column, `undefined`. */
  datatype Option<+T> = None | Some(value: T)

  /** Truthiness of an optional string in Python (`if not x`) and JavaScript
      (`x || …`, `a && b`): absent and empty are both false. */
  predicate Truthy(v: Option<string>) {
    v.Some? && v.value != ""
  }

  /** JavaScript `v || fallback` on an optional string. */
  function OrElse(v: Option<string>, fallback: string): (r: string)
    ensures Truthy(v) ==> r == v.value
    ensures !Truthy(v) ==> r == fallback
    ensures fallback != "" ==> r != ""
  {
    if Truthy(v) then v.value else fallback
  }
}
