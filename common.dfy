/** Option and Result values shared by every module of the model. */
module Common {

  /** A value that may be missing: JavaScript's `undefined` / `null` become `None`. */
  datatype Option<+T> = None | Some(value: T)

  /** A computation that either yields a value or fails with an error message. */
  datatype Result<+T> = Ok(value: T) | Err(message: string)

  /** JavaScript truthiness of an optional string: absent and empty are both falsy. */
  predicate Truthy(s: Option<string>) {
    s.Some? && s.value != ""
  }

  /** The JavaScript idiom `s || fallback` for an optional string. */
  function OrElse(s: Option<string>, fallback: string): string {
    if Truthy(s) then s.value else fallback
  }
}
