/** Failure-compatible result types and the errors the record pipeline can raise. */
module Wrappers {

  /** Every way the analysis aborts before writing its histogram. */
  datatype Error =
    | MisalignedRecord   // the record's value count is not a multiple of the row width
    | UnevenSplit        // the record's row count does not split into the sub-block count
    | EmptySubBlock      // an empty record: its sub-blocks have no first row to read a tag from
    | NoBunchBlock       // no sub-block of the record is a bunch block, so there is nothing to stack
    | UnexpectedEof      // the records ran out before a run-end marker was seen
    | TooFewBins         // the detector extent yields fewer than one histogram bin

  datatype Result<+R, +E> = Success(value: R) | Failure(error: E) {
    predicate IsFailure() { Failure? }

    function PropagateFailure<U>(): Result<U, E>
      requires Failure?
    {
      Failure(error)
    }

    function Extract(): R
      requires Success?
    {
      value
    }
  }

  datatype Outcome<+E> = Pass | Fail(error: E)
}
