/** Shared value wrappers and the JavaScript `value || fallback` rule on
    optional strings, used by the status view, the form defaults and the
    account lookups. */
module Common {

  datatype Option<+T> = None | Some(value: T)

  /** An operation that either yields a value or the text of an error. */
  datatype Result<+T> = Ok(value: T) | Err(message: string)

  /** JavaScript truthiness of a value that is a string or absent
      (`null`/`undefined`): only a non-empty string is truthy. */
  predicate Truthy(v: Option<string>)
  {
    v.Some? && v.value != ""
  }

  /** `v || fallback` where `v` is an optional string and `fallback` a string. */
  function OrDefault(v: Option<string>, fallback: string): (r: string)
    ensures Truthy(v) ==> r == v.value
    ensures !Truthy(v) ==> r == fallback
  {
    if v.Some? && v.value != "" then v.value else fallback
  }
}
