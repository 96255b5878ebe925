/** The optional value used by every model of the project. */
module Wrappers {

  datatype Option<+T> = None | Some(value: T)
}
