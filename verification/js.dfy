/** The few JavaScript value shapes the extension's logic depends on: values
    that may be absent, promises that settle with a value or an Error, and the
    truthiness that `||` and `if (x)` test. */
module Js {

  /** A property that may be missing (`undefined`/`null`) or present. */
  datatype Option<+T> = None | Some(value: T)

  /** A settled promise: fulfilled with a value, or rejected with an Error of
      which only the message is ever read. */
  datatype Result<+T> = Ok(value: T) | Err(message: string) {
    /** `.then(f)` for a synchronous `f`. */
    function MapValue<U>(f: T -> U): Result<U> {
      match this
      case Ok(v) => Ok(f(v))
      case Err(m) => Err(m)
    }
  }

  /** A possibly-missing string is truthy exactly when it is present and non-empty. */
  predicate Truthy(v: Option<string>) {
    v.Some? && v.value != ""
  }

  /** A possibly-missing integer Number is truthy exactly when it is present and non-zero. */
  predicate TruthyNumber(v: Option<int>) {
    v.Some? && v.value != 0
  }

  /** `v || fallback` for a possibly-missing string. */
  function OrDefault(v: Option<string>, fallback: string): string {
    if Truthy(v) then v.value else fallback
  }
}
