/** Value wrappers shared by every module: an optional value, a Go-style
    `(value, error)` pair as a result, and the gRPC status codes the
    plugin's handlers return. */
module Common {

  datatype Option<+T> = None | Some(value: T)

  /** A Go function returning `(T, error)`: either a value or an error text. */
  datatype Result<+T> = Ok(value: T) | Err(msg: string) {
    predicate IsFailure() { Err? }
    function PropagateFailure<U>(): Result<U>
      requires Err?
    {
      Err(msg)
    }
    function Extract(): T
      requires Ok?
    {
      value
    }
  }

  /** The gRPC status codes that appear in the handlers. `Unknown` stands
      for a plain Go error that the handler returns without a status. */
  datatype Code =
    | InvalidArgument
    | NotFound
    | AlreadyExists
    | OutOfRange
    | Internal
    | Unimplemented
    | Unknown

  /** An error returned by a remote-procedure handler. */
  datatype Status = Status(code: Code, message: string)

  /** A handler result: a response value or a status error. */
  datatype Reply<+T> = Respond(response: T) | Fail(status: Status)
}
