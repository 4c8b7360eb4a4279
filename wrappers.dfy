/** Option, Result and the error kinds the program can end in. */
module Wrappers {

  datatype Option<+T> = None | Some(value: T)

  /** How an operation of the program fails. A Rust `panic!`, `unwrap()` or
      `expect()` on a missing value becomes `Panic`; an HTTP response whose
      status is an error becomes `HttpStatus`; a request that could not be
      sent, or a backend call that reported an error, becomes `Transport`; a
      response body that does not decode becomes `Malformed`. */
  datatype Error =
    | Panic(reason: string)
    | HttpStatus(code: int)
    | Transport(cause: string)
    | Malformed(cause: string)

  datatype Result<+T> = Ok(value: T) | Err(error: Error) {
    predicate IsFailure() { Err? }

    function PropagateFailure<U>(): Result<U>
      requires Err?
    {
      Err(error)
    }

    function Extract(): T
      requires Ok?
    {
      value
    }
  }

  type byte = b: int | 0 <= b < 256
}
