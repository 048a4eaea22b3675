/** The optional value used for `T | undefined` results and `field?: T` record fields. */
module Wrappers {

  datatype Option<+T> = None | Some(value: T)
}
