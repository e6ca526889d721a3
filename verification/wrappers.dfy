/** Failure-carrying datatypes shared by every module of the storefront model.
    - Option<T> models a JavaScript value that may be `null`/`undefined`.
    - Outcome<T> models the settled result of one remote call: the server's
      reply, or a rejection carrying the error's `message` (possibly empty). */
module Wrappers {

  datatype Option<+T> = None | Some(value: T) {

    /** The value, or `default` when absent (JavaScript `x ?? default`). */
    function GetOr(default: T): T {
      match this
      case Some(v) => v
      case None => default
    }
  }

  datatype Outcome<+T> = Ok(value: T) | Err(message: string) {

    /** Applies `f` to a successful reply and keeps a failure as it is. */
    function Map<U>(f: T -> U): Outcome<U> {
      match this
      case Ok(v) => Ok(f(v))
      case Err(m) => Err(m)
    }
  }

  /** JavaScript `message || fallback`: an empty message counts as missing. */
  function MessageOr(message: string, fallback: string): string {
    if message != "" then message else fallback
  }

  /** JavaScript truthiness of an optional string: present and non-empty. */
  predicate Truthy(s: Option<string>) {
    s.Some? && s.value != ""
  }
}
