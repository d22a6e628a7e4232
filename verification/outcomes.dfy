/** Failure-carrying values shared by every controller of the model. */
module Outcomes {

  datatype Option<+T> = None | Some(value: T) {
    function GetOr(default: T): T {
      match this
      case Some(v) => v
      case None => default
    }
  }

  /** The HTTP outcomes the controllers produce: 400, 404, 409, and the 500 that Express's
      error handler sends for anything passed to `next(error)` (ORM validation and column errors). */
  datatype Error =
    | BadRequest(message: string)
    | NotFound(message: string)
    | Conflict(message: string)
    | ServerError(message: string)

  datatype Result<+T> = Ok(value: T) | Err(error: Error)

  /** One field of a JSON request body: omitted (`undefined`), an explicit `null`, or a string. */
  datatype Field = Undefined | Null | Given(text: string)

  /** JavaScript falsiness of a request field: `undefined`, `null` and `''` are falsy. */
  predicate Falsy(f: Field) {
    f.Undefined? || f.Null? || f.text == ""
  }

  /** `f || fallback` on a request field. */
  function OrElse(f: Field, fallback: string): string {
    if Falsy(f) then fallback else f.text
  }

  /** How a nullable column stores a request field: `undefined` and `null` both store NULL. */
  function Nullable(f: Field): Option<string> {
    match f
    case Given(s) => Some(s)
    case _ => None
  }
}
