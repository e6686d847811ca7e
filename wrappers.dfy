/** Optional values and results with an error, standing for Python's `None`
    and for raised exceptions. */
module Wrappers {

  datatype Option<+T> = None | Some(value: T)

  /** The classes of exception the modelled code raises (their messages are not
      modelled). */
  datatype Error =
    | ValueError
    | KeyError
    | AssertionError

  datatype Result<+T> = Ok(value: T) | Err(error: Error) {
    predicate IsFailure() { Err? }

    function PropagateFailure<U>(): Result<U>
      requires Err?
    {
      Err(error)
    }

    function Extract(): T
      requires Ok?
    {
      value
    }
  }
}
