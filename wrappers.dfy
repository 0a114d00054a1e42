/** The optional value used for absent keys and fields that a request may omit. */
module Wrappers {

  datatype Option<+T> = None | Some(value: T)

}
