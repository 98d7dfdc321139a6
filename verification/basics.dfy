/**
  Shared vocabulary of the model: optional values, error-carrying results,
  and the JavaScript numeric helpers the scoring code relies on
  (`Math.round`, `Math.abs`, `Math.max`), stated exactly over `real`.
 */
module Basics {

  /** A value that may be absent; stands for the source's `T | null`. */
  datatype Option<+T> = None | Some(value: T)

  /** Either a value or the error the source would throw. */
  datatype Result<+T, +E> = Ok(value: T) | Err(error: E)

  /** `Math.round`: the nearest integer, with halves rounded up. */
  function Round(x: real): (r: int)
    ensures x - 0.5 < r as real <= x + 0.5
  {
    (x + 0.5).Floor
  }

  /** A whole number rounds to itself. */
  lemma RoundWhole(n: int)
    ensures Round(n as real) == n
  {
  }

  /** Rounding never reverses the order of its arguments. */
  lemma RoundMonotone(x: real, y: real)
    requires x <= y
    ensures Round(x) <= Round(y)
  {
  }

  /** `Math.abs` */
  function Abs(x: real): (r: real)
    ensures 0.0 <= r
    ensures r == x || r == -x
  {
    if x < 0.0 then -x else x
  }

  /** `Math.max` of two numbers. */
  function Max(a: real, b: real): (r: real)
    ensures a <= r && b <= r
    ensures r == a || r == b
  {
    if a >= b then a else b
  }

  /** A number whose JSON form has at most one decimal place. */
  predicate IsTenth(x: real) {
    (x * 10.0).Floor as real == x * 10.0
  }
}
