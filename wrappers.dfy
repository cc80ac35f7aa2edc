/** Option, for the absent destination path and the missing object name. */
module Wrappers {

  datatype Option<+T> = None | Some(value: T)
}
