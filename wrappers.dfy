/** The optional value used where the source returns a null reference. */
module Wrappers {

  datatype Option<+T> = None | Some(value: T)
}
