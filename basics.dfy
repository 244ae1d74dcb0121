/** Values shared by every part of the model: bytes, optional values and the
    exceptions the modelled code can raise. */
module Basics {

  type Bytes = seq<bv8>

  /** Python's `None` or a value. */
  datatype Option<T> = None | Some(value: T)

  /** The exceptions of the modelled code that reach its callers. */
  datatype Failure =
    | FileNotFound          // open() of a ledger file that does not exist
    | MultipleResultsFound  // scalar_one_or_none() on a query matching several rows
    | NoneHasNoAsDict       // `._asdict()` called on the None that one_or_none() returned
    | NotNullViolation      // an UPDATE that sets a NOT NULL column to NULL

  /** A value, or the exception that was raised instead of returning one. */
  datatype Result<T> = Ok(value: T) | Err(failure: Failure)

  /** How a call that returns nothing ended: normally, or by raising. */
  datatype Outcome = Done | Raised(failure: Failure)

  /** Python's truth value of an optional string: None and "" are false. */
  predicate Truthy(s: Option<string>) {
    s.Some? && s.value != ""
  }
}
