/** Failure-carrying results shared by every module of the model. */
module Wrappers {

  /** A value that may be absent: JavaScript `null`/`undefined`, Ruby `nil`. */
  datatype Option<+T> = None | Some(value: T)

  /** The outcome of an operation that may throw (JavaScript) or raise (Ruby). */
  datatype Result<+R> = Ok(value: R) | Err(error: string) {
    predicate IsFailure() { Err? }

    function PropagateFailure<U>(): Result<U>
      requires Err?
    {
      Err(error)
    }

    function Extract(): R
      requires Ok?
    {
      value
    }
  }
}
