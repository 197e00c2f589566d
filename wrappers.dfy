/** The optional value used where the program signals a failure. */
module Wrappers {

  datatype Option<+T> = None | Some(value: T)
}
