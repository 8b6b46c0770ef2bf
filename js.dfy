/** JavaScript values that the repository's code treats loosely: a property
    that may be missing, and the `||` / template-literal rules for strings. */
module Js {

  /** A property that may be `undefined` or `null` (None) or hold a value. */
  datatype Option<+T> = None | Some(value: T)

  /** JavaScript truthiness of a string property: `undefined`, `null` and the
      empty string are falsy. */
  predicate Truthy(o: Option<string>) {
    o.Some? && o.value != ""
  }

  /** `o || d` for a string property. */
  function Or(o: Option<string>, d: string): (r: string)
    ensures Truthy(o) ==> r == o.value
    ensures !Truthy(o) ==> r == d
  {
    if Truthy(o) then o.value else d
  }

  /** `${o}` in a template literal: a missing value prints as "undefined". */
  function Interpolate(o: Option<string>): (r: string)
    ensures o.Some? ==> r == o.value
    ensures o.None? ==> r == "undefined"
  {
    match o
    case Some(s) => s
    case None => "undefined"
  }
}
