/** The optional value used throughout the model: a SQL NULL, a missing row, an absent header. */
module Wrappers {
  datatype Option<+T> = None | Some(value: T)
}
