/** The optional value used for cells that may be missing. */
module Wrappers {

  /** A cell that holds a value, or is missing (pandas' NaN). */
  datatype Option<+T> = None | Some(value: T)
}
