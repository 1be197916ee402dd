/** The optional value used for every "may be absent or may have failed" result in the model. */
module Wrappers {

  datatype Option<+T> = None | Some(value: T)
}
