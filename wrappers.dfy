/** The optional value used wherever the program returns None or fails softly. */
module Wrappers {

  datatype Option<T> = None | Some(value: T)
}
