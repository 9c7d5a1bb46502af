/** Failure-compatible results for the pipeline's stages.

    Every stage of the repository wraps whatever went wrong into its single exception
    type and re-raises it; the model keeps the cause, so that a contract can say which
    failure a stage reports. */
module Errors {

  /** What a stage raised, before the uniform wrapping. */
  datatype Error =
    | MissingColumns(names: seq<string>)       // pandas: labels not found in the columns axis
    | ValidationFailed(message: string)        // transformation gate on the validation artifact
    | BelowExpectedAccuracy                    // trainer gate on the ensemble's test accuracy
    | NotSubscriptable                         // indexing an object that has no item access
    | StorageFailure                           // the object store raised
    | MissingObject(bucket: string, key: string)
    | MissingFile(path: string)
    | LengthMismatch                           // arrays of unequal length put side by side
    | NoColumns                                // taking the last column of a zero-width array
    | NotANumber(text: string)                 // a string cell that does not parse as a float

  datatype Result<+T> = Ok(value: T) | Err(error: Error) {

    predicate IsFailure() {
      Err?
    }

    function PropagateFailure<U>(): Result<U>
      requires Err?
    {
      Err(error)
    }

    function Extract(): T
      requires Ok?
    {
      value
    }
  }

  /** Python's `None` or a value. */
  datatype Option<+T> = None | Some(value: T)
}
