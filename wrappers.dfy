/** Small value types shared by every module of the model. */
module Wrappers {

  /** A value that may be missing: JavaScript's `undefined`/`null` for an optional field. */
  datatype Option<+T> = None | Some(value: T) {
    /** The contained value, or `default` when it is missing (`x ?? default`). */
    function GetOr(default: T): T {
      match this
      case Some(v) => v
      case None => default
    }
  }

  /** The result of an operation that can throw: either a value or an error. */
  datatype Result<+T> = Ok(value: T) | Err(error: string)

  /** The larger of two integers (`Math.max`). */
  function Max(a: int, b: int): (m: int)
    ensures m >= a && m >= b
    ensures m == a || m == b
  {
    if a >= b then a else b
  }

  /** The smaller of two integers (`Math.min`). */
  function Min(a: int, b: int): (m: int)
    ensures m <= a && m <= b
    ensures m == a || m == b
  {
    if a <= b then a else b
  }

  /** `x || 0` for an optional number: a missing value and 0 both read as 0. */
  function OrZero(x: Option<int>): (r: int)
    ensures x.Some? ==> r == x.value
    ensures x.None? ==> r == 0
  {
    match x
    case Some(v) => v
    case None => 0
  }

  /** `x || fallback` for an optional number: missing and 0 are both falsy. */
  function NumberOr(x: Option<int>, fallback: int): (r: int)
    ensures x.Some? && x.value != 0 ==> r == x.value
    ensures (x.None? || x.value == 0) ==> r == fallback
  {
    if x.Some? && x.value != 0 then x.value else fallback
  }

  /** JavaScript truthiness of an optional string: missing and "" are falsy. */
  predicate TruthyString(x: Option<string>) {
    x.Some? && x.value != ""
  }
}
