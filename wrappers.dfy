/** The nullable results of the source (`T | undefined`, `T | null`). */
module Wrappers {

  datatype Option<+T> = None | Some(value: T)
}
