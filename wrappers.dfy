/** The optional-value type used for the outcome of parsing a deadline. */
module Wrappers {

  datatype Option<+T> = None | Some(value: T)
}
