/** The usual optional-value datatype: a stored document that may be missing. */
module Wrappers {

  datatype Option<+T> = None | Some(value: T)

}
