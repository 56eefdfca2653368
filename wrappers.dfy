/** The optional value the server uses wherever the source has `null`. */
module Wrappers {

  datatype Option<+T> = None | Some(value: T)
}
