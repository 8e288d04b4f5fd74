/** Failure-carrying values used at every boundary where the bot calls out
    to the language model, the JSON decoder or the spreadsheet. */
module Wrappers {

  /** `None` stands for a call that raised; `Some(v)` for one that returned `v`. */
  datatype Option<+T> = None | Some(value: T)

  /** A call that either returns a value or fails with a message. */
  datatype Result<+T, +E> = Ok(value: T) | Err(error: E)
}
