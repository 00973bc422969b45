/** Failure-carrying values shared by every layer of the adapter: the error
    taxonomy of the b291 protocol adapter, an Option, and a failure-compatible
    Result that supports Dafny's `:-` operator. */
module Outcomes {

  /** The ways a read or write of the adapter can fail. */
  datatype Error =
    /** The transport failed, or ran out of bytes before a field was complete. */
    | IoError
    /** Fewer payload bytes arrived than the frame's length field declared. */
    | LengthMismatch(expected: int, got: int)
    /** The length field read as a negative int32; the Go code panics in `make`. */
    | NegativeLength(length: int)
    /** The payload was not validly compressed. */
    | CorruptData
    /** A string field did not start with one of the two string markers. */
    | MalformedString

  datatype Option<+T> = None | Some(value: T)

  datatype Result<+T> = Ok(value: T) | Err(error: Error) {

    predicate IsFailure() {
      Err?
    }

    function PropagateFailure<U>(): Result<U>
      requires Err?
    {
      Err(error)
    }

    function Extract(): T
      requires Ok?
    {
      value
    }
  }

  /** The Go `error` return of an operation that yields nothing else:
      `Pass` is a nil error. */
  datatype Outcome = Pass | Fail(error: Error)
}
