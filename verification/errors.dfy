/** The error values that flow through a chain.

    Go errors are interface values whose dynamic type decides which handler
    may receive them. The model closes the set of dynamic types over the
    three that the package documentation and tests use or declare:
    `errors.New` values, `*os.PathError` and the tests' `*MyError`. */
module Errors {
  import opened Wrappers

  /** The dynamic (pointer) type of a non-nil error value. */
  datatype Tag =
    | ErrorStringTag   // *errors.errorString, built by errors.New
    | PathErrorTag     // *os.PathError
    | MyErrorTag       // *MyError, a user-defined error type

  /** A non-nil error value. A `PathError` wraps a cause that may be nil. */
  datatype Error =
    | ErrorString(text: string)
    | PathError(op: string, path: string, cause: Option<Error>)
    | MyError(data: string)

  /** The dynamic type of an error value, as `reflect.TypeOf` reports it. */
  function TagOf(e: Error): Tag {
    match e
    case ErrorString(_) => ErrorStringTag
    case PathError(_, _, _) => PathErrorTag
    case MyError(_) => MyErrorTag
  }

  /** Some error value of dynamic type `t`: every tag is inhabited. */
  function Sample(t: Tag): (e: Error)
    ensures TagOf(e) == t
  {
    match t
    case ErrorStringTag => ErrorString("")
    case PathErrorTag => PathError("", "", None)
    case MyErrorTag => MyError("")
  }
}
