/** The optional value used wherever the booking code returns `None` or may fail. */
module Wrappers {
  datatype Option<+T> = None | Some(value: T)
}
