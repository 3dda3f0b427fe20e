/** Option and Result, the two ways the ledger reports absence and failure. */
module Wrappers {

  datatype Option<+T> = None | Some(value: T)

  datatype Result<+T, +E> = Ok(value: T) | Err(error: E)

  /** The errors the ledger raises to its callers (Python's `ValueError`s and
      the date-range overflow of the standard `datetime` module). */
  datatype Error =
    | NegativeAmount     // "Amount cannot be negative" / "Budget amount cannot be negative"
    | BadDate            // "Date must be in YYYY-MM-DD format"
    | BadPeriod          // "Period must be one of: weekly, monthly, yearly"
    | DateOutOfRange     // a period window that leaves the years 1..9999
    | NothingToExport    // "No expenses available to export."
}
