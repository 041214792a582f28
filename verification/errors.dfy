/** The exceptions the gate and the entry points raise, and a result type
    that carries them. */
module Errors {
  import opened Values

  datatype Error =
    | MassAssignmentError(removed: seq<string>)   // the removal policy aborted
    | ForbiddenAttributes                         // unpermitted parameters, no declarations
    | UnknownAttribute(name: string)              // no setter for a surviving key
    | NoMethod(message: string)                   // a value lacks the method called on it
    | TypeError(message: string)                  // a value cannot be converted as asked
    | SetterRaised(name: string)                  // a custom setter raised
    | StackTooDeep                                // re-entrant setters past the depth bound
    | SubclassNotFound(typeName: string)
    | RecordNotFound(association: string, id: Value)
    | TooManyRecords(limit: nat, size: nat)
    | ArgumentError(message: string)
    | RecordNotSaved
    | RecordInvalid

  datatype Result<+T> = Ok(value: T) | Err(error: Error) {
    predicate IsFailure() {
      Err?
    }

    function PropagateFailure<U>(): Result<U>
      requires Err?
    {
      Err(error)
    }

    function Extract(): T
      requires Ok?
    {
      value
    }
  }
}
