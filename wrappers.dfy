/** Small failure-carrying datatypes shared by every format. */
module Wrappers {

  /** A value that may be absent, as `null` / `undefined` are in the source. */
  datatype Option<+T> = None | Some(value: T)

  /** The only error the engine reports: a fixed-size format started with the wrong roster size. */
  datatype Error = InvalidPlayerCount

  /** The outcome of an operation that can refuse its input before building any state. */
  datatype Result<+T> = Ok(value: T) | Err(error: Error)
}
