/** Outcomes shared by every module of the model.

    The original program reports an unrecoverable condition by logging a
    numbered message and exiting the process (`log2die`); a Python exception
    that nobody catches ends the process too.  Both become an explicit error
    value here.
 */
module Failures {

  datatype Option<+T> = None | Some(value: T) {
    function GetOr(default: T): T {
      match this
      case Some(v) => v
      case None => default
    }
  }

  /** Python exceptions that the modelled code raises and does not catch. */
  datatype Exception =
    | IndexError   // `statement.split()[0]` on a blank statement
    | KeyError     // `descriptions[key]` for an ifIndex without a description

  datatype Failure =
    | Die(code: int)                 // log2die(code, ...): fatal, numbered
    | Uncaught(exception: Exception)

  datatype Result<+T> = Ok(value: T) | Err(failure: Failure) {
    predicate IsFailure() {
      Err?
    }

    function PropagateFailure<U>(): Result<U>
      requires Err?
    {
      Err(failure)
    }

    function Extract(): T
      requires Ok?
    {
      value
    }
  }
}
