/** The optional value used wherever Java hands back a reference that may be null. */
module Wrappers {

  datatype Option<+T> = None | Some(value: T)
}
