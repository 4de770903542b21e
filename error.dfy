/** The crate's error type (src/error.rs) and the failure-compatible wrappers the decoder returns. */
module ProcError {

  /** The three error variants. Their payloads (the wrapped io, grammar and integer errors) are not modelled. */
  datatype Error =
    | Io          // the underlying reader failed
    | ParseError  // the line does not have the shape of a maps record
    | WidthError  // an integer token could not be converted (it does not fit 64 bits)

  /** `Result<T, Error>`, usable with `:-` as Rust's `?` operator is. */
  datatype Result<+T> = Ok(value: T) | Err(error: Error) {
    predicate IsFailure() { Err? }

    function PropagateFailure<U>(): Result<U>
      requires Err?
    {
      Err(error)
    }

    function Extract(): T
      requires Ok?
    {
      value
    }
  }

  datatype Option<+T> = None | Some(value: T)
}
