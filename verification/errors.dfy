/** Failure-carrying results shared by every module of the model.

    The library signals failure with Python exceptions and with the
    `NotImplemented` operator sentinel; here each of them is one variant of
    `Error`, and every partial operation returns a `Result`.
 */
module Errors {

  /** The exception (or sentinel) an operation ends with. */
  datatype Error =
    | WriteOnce         // WriteOnceError: a write-once field assigned twice
    | MissingVariable   // MissingVariable: a field read before it was set
    | TypeMismatch      // TypeError: a value of the wrong type
    | ValueFailure      // ValueError
    | ZeroDivision      // ZeroDivisionError
    | Overflow          // OverflowError
    | NotSupported      // the `NotImplemented` operator sentinel
    | IndexOutOfRange   // IndexError
    | KeyMissing        // KeyError
    | ReadOnly          // ReadOnlyError: assigning a derived field
    | DispatchFailure   // no constructor overload matches the arguments
    | RecursionGuard    // RecursionError raised by an explicit guard
    | RuntimeFailure    // RuntimeError
    | IterationStop     // StopIteration: the iterator is exhausted
    | AttributeMissing  // AttributeError

  datatype Option<+T> = None | Some(value: T) {

    /** The wrapped value, or `default` when there is none. */
    function GetOr(default: T): T {
      match this
      case Some(v) => v
      case None => default
    }
  }

  datatype Result<+T> = Ok(value: T) | Err(error: Error) {

    /** True when the operation failed with exactly `e`. */
    predicate FailsWith(e: Error) {
      Err? && error == e
    }
  }
}
