/** Values that may be absent: a row that an UPDATE did not match, a key that Redis does not hold. */
module Wrappers {
  datatype Option<+T> = None | Some(value: T)
}
