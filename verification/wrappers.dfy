/** Optional values and results with a failure message.

    `Option` stands for a nil-able Go `error` value (`None` is `nil`), and
    `Result` for a call that either returns a value or panics with a message. */
module Wrappers {

  datatype Option<+T> = None | Some(value: T)

  datatype Result<+R, +E> = Success(value: R) | Failure(error: E)
}
