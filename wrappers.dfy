/** The optional value used for lookups that may come up empty. */
module Wrappers {
  datatype Option<+T> = None | Some(value: T)
}
