/** Small value wrappers shared by the store, the player and the router. */
module Common {

  /** A value that may be missing: JavaScript's `null`/`undefined` next to a present value. */
  datatype Option<+T> = None | Some(value: T)

  /** JavaScript's `s || ''` on an optional string: a missing or empty string becomes `''`. */
  function OrEmpty(o: Option<string>): (r: string)
    ensures o.Some? && o.value != "" ==> r == o.value
    ensures (o.None? || o.value == "") ==> r == ""
  {
    if o.Some? then o.value else ""
  }
}
