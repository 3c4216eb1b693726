/** Python exceptions of the bot, as values.
    An operation that may raise returns an Outcome: either its value or the
    exception it raised. The kinds are the ones the driver loop tells apart:
    the bot's own PracticumException (with the reason it was raised for),
    KeyError, TypeError, and any other exception. */
module Outcomes {

  datatype Option<+T> = None | Some(value: T)

  /** Why a PracticumException was raised. */
  datatype Cause =
    | ApiUnavailable     // get_api_answer: transport failure, status other than 200, body not JSON
    | ServerError        // the response carries an `error` object with an inner `error`
    | ServerCode         // the response carries a `code` field
    | NoHomeworks        // `homeworks` is null
    | NotAList           // `homeworks` is neither null nor a list
    | UnknownStatus      // the homework's status is not a key of the status table

  datatype Failure =
    | Practicum(cause: Cause)   // PracticumException
    | KeyMissing(key: string)   // KeyError on a dictionary lookup
    | WrongType                 // TypeError: `in` or `[]` applied to a value that does not support it
    | OtherError                // any other exception

  /** The result of a Python expression that may raise. */
  datatype Outcome<+T> = Ok(value: T) | Raise(failure: Failure) {

    predicate IsFailure() {
      Raise?
    }

    function PropagateFailure<U>(): Outcome<U>
      requires Raise?
    {
      Raise(failure)
    }

    function Extract(): T
      requires Ok?
    {
      value
    }
  }
}
