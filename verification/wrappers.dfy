/** Optional values and tagged results, plus the notion of a "missing" input
    that the services test with JavaScript truthiness. */
module Wrappers {

  /** A value that may be absent (`undefined` or `null` on the JavaScript side). */
  datatype Option<+T> = None | Some(value: T)

  /** Either the value an operation produced or the error it threw. */
  datatype Result<+R, +E> = Success(value: R) | Failure(error: E)

  /** `!x` for a numeric input: absent, or the number 0. */
  predicate IsFalsyInt(x: Option<int>) {
    x.None? || x.value == 0
  }

  /** `!x` for a text input: absent, or the empty string. */
  predicate IsFalsyString(x: Option<string>) {
    x.None? || x.value == ""
  }
}
