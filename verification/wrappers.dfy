/** The optional value used for nullable fields and for callbacks that may not fire. */
module Wrappers {

  datatype Option<+T> = None | Some(value: T)
}
