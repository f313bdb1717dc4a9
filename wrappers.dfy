/** The optional value used wherever the source has a value or None/null. */
module Wrappers {

  datatype Option<+T> = None | Some(value: T)
}
