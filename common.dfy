/** Values shared by every component: optional values, results that carry an
    error, and JavaScript truthiness of an optional string. */
module Common {

  /** A value that may be absent (`null` / `undefined` in the gateway). */
  datatype Option<T> = None | Some(value: T)

  /** The outcome of an operation that can throw: its value, or the error thrown. */
  datatype Result<T, E> = Ok(value: T) | Err(error: E)

  /** JavaScript truthiness of a string that may be missing:
      `undefined`, `null` and the empty string are falsy. */
  predicate Truthy(s: Option<string>)
  {
    s.Some? && s.value != ""
  }

  /** The JavaScript expression `s || fallback` on an optional string. */
  function OrElse(s: Option<string>, fallback: string): (r: string)
    ensures Truthy(s) ==> r == s.value
    ensures !Truthy(s) ==> r == fallback
  {
    if Truthy(s) then s.value else fallback
  }
}
