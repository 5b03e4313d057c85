/** Failure-carrying results shared by both generations of the compiler.

    The C sources report every problem through `error_at(loc, fmt, ...)`,
    which prints the input, a caret under `loc` and a message, then exits.
    Here that becomes an `Err` value carrying the offset of `loc` within the
    input and the message; the caller propagates it with `:-`.
 */
module Results {

  /** A diagnostic: `pos` is `loc - user_input`, the byte offset of the caret. */
  datatype Error = Error(pos: nat, msg: string)

  datatype Result<+T> = Ok(value: T) | Err(error: Error) {

    predicate IsFailure() {
      Err?
    }

    function PropagateFailure<U>(): Result<U>
      requires Err?
    {
      Err(error)
    }

    function Extract(): T
      requires Ok?
    {
      value
    }
  }

  datatype Option<+T> = None | Some(value: T)
}
