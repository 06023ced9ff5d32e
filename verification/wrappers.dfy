/** Failure-compatible wrappers shared by every module of the model. */
module Wrappers {

  /** A value or its absence (Python's `None`). */
  datatype Option<+T> = None | Some(value: T)

  /** The reason an operation of the report generator raises instead of returning. */
  datatype Failure =
    | KeyMissing        // a dictionary lookup raised KeyError and nothing caught it
    | NoSnapshotDates   // the list of snapshot dates was empty, so `dates[0]` raised IndexError
    | SummaryFailed     // the score summary failed; its handler raises NameError (see Summary)

  /** The outcome of an operation that can raise. */
  datatype Result<+T> = Ok(value: T) | Err(failure: Failure)
}
