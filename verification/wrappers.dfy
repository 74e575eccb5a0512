/** The optional-value datatype the model uses for partial operations. */
module Wrappers {

  datatype Option<+T> = None | Some(value: T)
}
