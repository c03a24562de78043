/** The optional value used where the program returns `undefined` or reads a nullable object. */
module Wrappers {

  datatype Option<+T> = None | Some(value: T)
}
