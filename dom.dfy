/** Values read from the page: an attribute or form field that may be absent
    (`null` in the browser), and JavaScript's truthiness test on such a value. */
module Dom {

  datatype Option<+T> = None | Some(value: T)

  /** A string-or-null value is truthy in JavaScript when it is present and not empty. */
  predicate Truthy(a: Option<string>)
  {
    a.Some? && a.value != ""
  }

  /** The JavaScript expression `a || fallback` for a string-or-null `a`. */
  function Or(a: Option<string>, fallback: string): (r: string)
    ensures Truthy(a) ==> r == a.value
    ensures !Truthy(a) ==> r == fallback
  {
    if a.Some? && a.value != "" then a.value else fallback
  }

  /** `String(b)` for a boolean. */
  function BoolString(b: bool): (r: string)
    ensures r == "true" <==> b
    ensures r == "false" <==> !b
  {
    if b then "true" else "false"
  }
}
