/** The exceptions the C++ core throws, as values, and the wrappers that carry them. */
module Errors {

  datatype Error =
    | RuntimeError(msg: string)      // std::runtime_error
    | InvalidArgument(msg: string)   // std::invalid_argument
    | LengthError(msg: string)       // std::length_error
    | LogicError(msg: string)        // std::logic_error
    | Undefined(msg: string)         // a path on which the C++ behaviour is undefined (null dereference)
    | BadAlloc(msg: string)          // std::bad_alloc, std::bad_array_new_length

  datatype Result<+T> = Ok(value: T) | Fail(error: Error)
  {
    predicate IsFailure() { Fail? }

    function PropagateFailure<U>(): Result<U>
      requires Fail?
    {
      Fail(error)
    }

    function Extract(): T
      requires Ok?
    {
      value
    }
  }

  datatype Option<+T> = None | Some(value: T)
}
