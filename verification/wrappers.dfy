/** Failure-compatible wrappers and the exceptions the caption engine can raise. */
module Wrappers {

  /** A value or its absence (JavaScript's `null`/`undefined`, Python's `None`). */
  datatype Option<+T> = None | Some(value: T)

  /** The exceptions a call into the engine may end with. */
  datatype JsError =
    | ParsingError(message: string)  // thrown explicitly by parse_time and parse_subtitles
    | TypeError                      // a property read on `undefined` or `null`
    | NotANumber                     // a time component that numeric coercion turns into NaN

  /** The outcome of a call that returns a value or throws. */
  datatype Result<+R> = Success(value: R) | Failure(error: JsError) {
    predicate IsFailure() {
      Failure?
    }

    function PropagateFailure<U>(): Result<U>
      requires Failure?
    {
      Failure(error)
    }

    function Extract(): R
      requires Success?
    {
      value
    }
  }

  /** The outcome of a call that returns nothing or throws. */
  datatype Outcome = Pass | Fail(error: JsError)
}
