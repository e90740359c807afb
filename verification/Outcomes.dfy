/** Results of operations that the Python code ends either by returning or by raising. */
module Outcomes {

  datatype Error =
    | PointerError      // JsonPointerException
    | Conflict          // JsonPatchConflict
    | InvalidPatch      // InvalidJsonPatch
    | TestFailed        // JsonPatchTestFailed
    | PythonTypeError   // TypeError, IndexError, ValueError or AttributeError
    | NoSuchProcess     // ProcessLookupError

  datatype Option<+T> = None | Some(value: T)

  datatype Outcome<+T> = Ok(value: T) | Raised(error: Error) {

    predicate IsFailure() {
      Raised?
    }

    function PropagateFailure<U>(): Outcome<U>
      requires Raised?
    {
      Raised(error)
    }

    function Extract(): T
      requires Ok?
    {
      value
    }
  }
}
