/** Option and Result, the failure-carrying values used throughout the model. */
module Wrappers {

  datatype Option<+T> = None | Some(value: T)

  datatype Result<+T, +E> = Ok(value: T) | Err(error: E)

  /** Fatal conditions of the running program (a Rust `panic!`, a failed `expect`,
      an out-of-bounds slice index). A method that can panic returns one of these
      instead of requiring that it does not happen. */
  datatype Panic =
    | OriginalNotSet(hook: string)
    | DynamicModuleNotLoaded(moduleName: string)
    | IndexOutOfBounds(index: int, len: nat)
    | SelfModuleNotFound

  /** What a fallible step produced: it completed, or it panicked. */
  datatype Outcome = Completed | Panicked(reason: Panic)
}
