/** Result types shared by every module. */
module Wrappers {

  datatype Option<+T> = None | Some(value: T)

  datatype Result<+T, +E> = Ok(value: T) | Err(error: E)

  /** The result of a parser or printer whose every error is the same: the data is malformed. */
  datatype Parsed<+T> = Valid(value: T) | Malformed {
    predicate IsFailure() {
      Malformed?
    }

    function PropagateFailure<U>(): Parsed<U>
      requires IsFailure()
    {
      Malformed
    }

    function Extract(): T
      requires !IsFailure()
    {
      value
    }
  }
}
