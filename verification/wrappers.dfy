/** PHP's `null` and thrown exceptions, as values. Both types work with
    Dafny's `:-` operator, whose protocol fixes the names `IsFailure`,
    `PropagateFailure` and `Extract`. */
module Wrappers {

  /** A nullable value: `None` is PHP's `null`. */
  datatype Option<+T> = None | Some(value: T) {
    predicate IsFailure() { None? }

    function PropagateFailure<U>(): Option<U>
      requires None?
    { None }

    function Extract(): T
      requires Some?
    { value }

    /** PHP's null-coalescing `$x ?? $fallback`. */
    function Coalesce(fallback: T): T {
      if Some? then value else fallback
    }
  }

  /** A call that returns `value` or throws `error`. */
  datatype Result<+T, +E> = Success(value: T) | Failure(error: E) {
    predicate IsFailure() { Failure? }

    function PropagateFailure<U>(): Result<U, E>
      requires Failure?
    { Failure(error) }

    function Extract(): T
      requires Success?
    { value }
  }
}
