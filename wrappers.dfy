/** The optional value used for Ruby's `nil` throughout the model. */
module Wrappers {

  datatype Option<+T> = None | Some(value: T)
}
