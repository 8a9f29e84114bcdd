/** Small shared types: optional values, HTTP responses and JavaScript string truthiness. */
module Wrappers {

  datatype Option<T> = None | Some(value: T)

  /** A handler's reply: a status code with a body, or a status code with an `error` message. */
  datatype Response<T> = Ok(code: int, body: T) | Err(code: int, error: string)

  const OK := 200
  const CREATED := 201
  const BAD_REQUEST := 400
  const NOT_FOUND := 404
  const CONFLICT := 409
  const INTERNAL_ERROR := 500

  /** JavaScript truthiness of an optional string: a missing value and "" are both falsy. */
  predicate Present(s: Option<string>)
  {
    s.Some? && s.value != ""
  }

  /** `s || fallback` for an optional string. */
  function OrElse(s: Option<string>, fallback: string): string
  {
    if Present(s) then s.value else fallback
  }

  /** `s || null` for an optional string: "" is stored as null. */
  function NullIfEmpty(s: Option<string>): Option<string>
  {
    if Present(s) then s else None
  }
}
