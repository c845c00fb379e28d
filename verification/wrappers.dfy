/** Failure-carrying datatypes shared by every module of the model. */
module Wrappers {

  /** An optional value; `None` also stands for a missing (NaN) table cell. */
  datatype Option<+T> = None | Some(value: T) {

    /** The carried value, or `default` when there is none. */
    function GetOr(default: T): T {
      match this
      case Some(v) => v
      case None => default
    }
  }

  /** The outcome of a step that may raise: a value or the failure it raised. */
  datatype Result<+T, +E> = Success(value: T) | Failure(error: E)

  /** Why a step raised. Each constructor names the Python exception it stands for. */
  datatype Failure =
    | MissingColumn(column: string)      // KeyError from a column lookup
    | SourceUnavailable(path: string)    // the fetch raised
    | BadNumber(text: string)            // ValueError from float() or int()
    | NotFinite(text: string)            // casting NaN to int
    | MissingControl                     // a NaN `control` cell reached str methods
    | MissingCategory(path: string)      // KeyError from a category table
    | BadPath(path: string)              // IndexError from splitting a path
    | DivisionByZero                     // ZeroDivisionError from `//`
    | BadCall(name: string)              // TypeError from a call with the wrong arity
}
