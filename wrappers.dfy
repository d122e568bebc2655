/** Option and Result, the two failure-carrying datatypes of the model. */
module Wrappers {

  datatype Option<+T> = None | Some(value: T)

  /** Why a call of the getter raised instead of returning a table. */
  datatype Error =
    | Transport                                  // the HTTP request or its JSON decoding failed
    | MissingKey(key: string)                    // a payload key the code indexes is absent
    | ShapeMismatch(expected: nat, actual: nat)  // pandas: "N columns passed, passed data had M columns"
    | DuplicateColumn(column: string)            // pandas DataFrame.insert of a column that exists
    | Unresolved(code: string)                   // the quote-id resolver rejected the code

  datatype Result<+R> = Success(value: R) | Failure(error: Error) {
    predicate IsFailure() {
      Failure?
    }

    function PropagateFailure<U>(): Result<U>
      requires Failure?
    {
      Failure(error)
    }

    function Extract(): R
      requires Success?
    {
      value
    }
  }
}
