/** The optional value used for a caller identity that may not resolve and for a
    validator that may reject its input. */
module Wrappers {

  datatype Option<+T> = None | Some(value: T)
}
