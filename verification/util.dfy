/** Shared result types of the command-line client: the optional and
    fallible values its operations return, and the client's own error kinds. */
module Util {

  datatype Option<+T> = None | Some(value: T)

  datatype Result<+T, +E> = Ok(value: T) | Err(error: E)

  /** The errors a command reports to its caller. `Anki` wraps the message
      of a failure reported by the collection library. */
  datatype Error =
    | InvalidParam(given: string, accepted: string)
    | InvalidNumber(given: string, accepted: string)
    | NoResults
    | Anki(message: string)
}
