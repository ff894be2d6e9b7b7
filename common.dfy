/** Small value types shared by every module of the model. */
module Common {

  /** JavaScript's `T | null`: a value that may be absent. */
  datatype Option<+T> = None | Some(value: T) {
    function GetOr(default: T): T {
      match this
      case Some(v) => v
      case None => default
    }
  }

  /** A computation that either yields a value or fails with an error value. */
  datatype Result<+T, +E> = Ok(value: T) | Err(error: E)

  /** What a route handler answers: an HTTP status and either a JSON body
      or the `{ error: ... }` body all handlers use for failures. */
  datatype Reply<+T> = Success(status: nat, body: T) | Failure(status: nat, error: string)

  /** Milliseconds since the epoch, as a JavaScript `Date` holds them. */
  type Time = int

  /** JavaScript truthiness of a string-valued request field:
      `undefined`, `null` and `""` are all falsy. */
  predicate Present(s: Option<string>) {
    s.Some? && s.value != ""
  }
}
