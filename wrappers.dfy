/** The optional-value type the model uses where the source returns a nullable result. */
module Wrappers {
  datatype Option<+T> = None | Some(value: T)
}
