/** Building blocks shared across the honeypot model: optional values,
    results, and two helpers on integers and lists. */
module Wrappers {

  /** An optional value, used for a matcher that may not match. */
  datatype Option<+T> = None | Some(value: T)

  /** A computation that either succeeds with a value or fails with an error. */
  datatype Result<+R, +E> = Success(value: R) | Failure(error: E)

  /** Python's `min` of two integers. */
  function Min(a: int, b: int): int {
    if a < b then a else b
  }

  /** No element is listed twice. */
  predicate NoRepeats<T(==)>(s: seq<T>) {
    forall i, j :: 0 <= i < j < |s| ==> s[i] != s[j]
  }
}
