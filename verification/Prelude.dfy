/** Failure-carrying datatypes shared by every module. */
module Prelude {

  datatype Option<+T> = None | Some(value: T)

  /** The result of an operation that produces a value or an error. */
  datatype Result<+T, +E> = Success(value: T) | Failure(error: E)

  /** The result of an operation that produces nothing but may fail. */
  datatype Outcome<+E> = Pass | Fail(error: E)

  function Max(a: nat, b: nat): nat {
    if a < b then b else a
  }

  function Min(a: nat, b: nat): nat {
    if a < b then a else b
  }

  /** The first `n` elements, or all of them when there are fewer. */
  function Truncate<T>(s: seq<T>, n: nat): seq<T> {
    if |s| <= n then s else s[..n]
  }

  /** How many times `x` occurs in `s`. */
  function Count<T(==)>(s: seq<T>, x: T): nat {
    if s == [] then 0 else (if s[0] == x then 1 else 0) + Count(s[1..], x)
  }
}
