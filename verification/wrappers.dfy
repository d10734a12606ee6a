/** Failure-compatible wrappers used across the model.

    The optional-value type is called `Opt` (with `Nothing` / `Just`) because the
    grammar combinators themselves are called `Some`, `Option`, `Optional` and `Maybe`.
 */
module Wrappers {

  /** An optional value: Python's `None` or a present value. */
  datatype Opt<+T> = Nothing | Just(value: T)

  /** The result of an operation that raises in the source: `Fail` carries the error. */
  datatype Result<+T, +E> = Ok(value: T) | Fail(error: E) {
    predicate IsFailure() {
      Fail?
    }

    function PropagateFailure<U>(): Result<U, E>
      requires Fail?
    {
      Fail(error)
    }

    function Extract(): T
      requires Ok?
    {
      value
    }
  }

  /** The result of an operation that returns `None` or raises. */
  datatype Outcome<+E> = Pass | Failure(error: E)
}
