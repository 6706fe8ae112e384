/** Values shared by the whole library: the opaque request and response a
    stack carries, the failures a `StackdException` reports, and the result
    of an operation that may throw one. */
module Context {

  /** A PHP value as far as the library can tell them apart: the library only
      ever asks whether a value is `null`; everything else passes through
      untouched (an empty array `[]` is a perfectly good request). */
  datatype Value = Null | Scalar(text: string) | Arr(items: seq<Value>)

  /** The four situations in which the library throws a `StackdException`,
      one constructor per message. */
  datatype StackdError =
    | MissingRequestOrResponse   // constructor given a null request or response
    | NotAMiddleware             // `add` given something that is not a Middleware
    | EmptyStack                 // `run` on a stack nothing was added to
    | NoNextMiddleware           // `next` on a middleware without a successor

  /** Either the value an operation returns or the exception it throws. */
  datatype Result<+T> = Ok(value: T) | Err(error: StackdError)

  /** The outcome of an operation that returns nothing unless it throws. */
  datatype Outcome = Pass | Fail(error: StackdError)
}
