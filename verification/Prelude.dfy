/** Values shared by every component: optional values, HTTP-style failures, results. */
module Prelude {

  datatype Option<+T> = None | Some(value: T)

  /** The application error classes the services throw. */
  datatype Error =
    | BadRequest
    | Unauthorized
    | Forbidden
    | NotFound
    | Conflict
    | Unprocessable
    | UniqueViolation   // the database refuses a duplicate key
    | NumericOverflow   // the database refuses a decimal that does not fit
    | Internal          // anything else that throws

  datatype Result<+T> = Ok(value: T) | Err(error: Error)

  /** The new value of a field that an update may leave out. */
  function Or<T>(change: Option<T>, value: T): T {
    if change.Some? then change.value else value
  }

  function Max(a: int, b: int): int { if a >= b then a else b }
  function Min(a: int, b: int): int { if a <= b then a else b }

  /** White space: the regular expression class \s, which parseInt also skips. */
  predicate IsSpace(c: char) {
    || c in {'\t', '\n', '\U{000B}', '\U{000C}', '\r', ' ', '\U{00A0}', '\U{1680}'}
    || '\U{2000}' <= c <= '\U{200A}'
    || c in {'\U{2028}', '\U{2029}', '\U{202F}', '\U{205F}', '\U{3000}', '\U{FEFF}'}
  }
}
