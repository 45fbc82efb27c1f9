/** The optional-value type used for the Python functions that return a value or `None`. */
module Wrappers {

  datatype Option<+T> = None | Some(value: T)
}
