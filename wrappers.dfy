/** The optional-value datatype used by the matchers. */
module Wrappers {

  datatype Option<+T> = None | Some(value: T)
}
