/** Small value wrappers shared by the other modules. */
module Wrappers {
  /** An optional value: a request slot that may be empty, a parse that may fail. */
  datatype Option<T> = None | Some(value: T)
}
