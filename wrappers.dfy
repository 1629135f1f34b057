/** The optional-value datatype used for `T | undefined` fields and for "no call was made". */
module Wrappers {
  datatype Option<+T> = None | Some(value: T)
}
