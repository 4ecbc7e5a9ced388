/** The optional value used for a path that may be absent and for an I/O result that may fail. */
module Wrappers {

  datatype Option<+T> = None | Some(value: T)
}
