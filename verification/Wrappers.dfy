/** Bytes, and the Option and two-way Result used where the Go code returns (value, error). */
module Wrappers {
  type Byte = x: int | 0 <= x < 256
  type Bytes = seq<Byte>

  datatype Option<+T> = None | Some(value: T)

  /** The error kinds callers of lokv can tell apart. Io stands for any store,
      scratch-file or cancellation error; Callback for an error from the caller's function. */
  datatype Error =
    | Corrupt
    | NotFound
    | Exists
    | InvalidRange
    | Exhausted
    | Io
    | Callback

  datatype Result<+T> = Ok(value: T) | Err(error: Error)
}
