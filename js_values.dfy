/** Values as the client's TypeScript sees them: optional fields that may be
    `undefined`/`null`, and the truthiness-based `||` default used throughout
    the components. */
module JsValues {

  /** A field or variable that may hold `undefined` or `null`. */
  datatype Option<+T> = None | Some(value: T)

  /** What an expression does when evaluated: yields a value, or throws a
      `TypeError` (a property read on `undefined`). */
  datatype Outcome<+T> = Ok(value: T) | TypeError

  /** JavaScript's `o || d` on an optional string: `undefined`, `null` and
      the empty string are falsy, so each of them yields the default. */
  function OrElse(o: Option<string>, d: string): (r: string)
    ensures r == d || (o.Some? && r == o.value && r != "")
    ensures o.Some? && o.value != "" ==> r == o.value
  {
    if o.Some? && o.value != "" then o.value else d
  }

  /** JavaScript truthiness of an optional string (`if (token)`). */
  predicate Truthy(o: Option<string>)
  {
    o.Some? && o.value != ""
  }
}
