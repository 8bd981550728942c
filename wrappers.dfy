/** The optional value used by the recognizers and the state machine. */
module Wrappers {
  datatype Option<+T> = None | Some(value: T)
}
