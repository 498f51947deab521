/** Failure-carrying results shared by every codec of the model. */
module Wrappers {

  datatype Option<+T> = None | Some(value: T)

  /**
   * The source has one error kind, `ParseError(String)`; its message text is
   * not modelled.  `Panicked` stands for the inputs on which the source does
   * not return at all but aborts: an `unwrap` of `None`, a `u8` that overflows
   * or underflows, or a 64-bit shift by 64 or more (the debug-build behaviour
   * of Rust arithmetic).
   */
  datatype Error = ParseError | Panicked

  datatype Result<+T> = Ok(value: T) | Err(error: Error) {

    predicate IsFailure() {
      Err?
    }

    function PropagateFailure<U>(): Result<U>
      requires Err?
    {
      Err(error)
    }

    function Extract(): T
      requires Ok?
    {
      value
    }
  }
}
