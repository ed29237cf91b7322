/** The optional value used for lookups that may find no row. */
module Wrappers {

  datatype Option<+T> = None | Some(value: T)
}
