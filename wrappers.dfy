/** The Option datatype used for the source's `null`, `undefined`, `-1` and `''` sentinels. */
module Wrappers {

  datatype Option<+T> = None | Some(value: T)
}
