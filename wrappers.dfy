/** The optional value used where the formatter either produces something or signals a failure. */
module Wrappers {
  datatype Option<+T> = None | Some(value: T)
}
