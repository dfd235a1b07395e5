/** Small option type used by the searches of the scanner. */
module Wrappers {
  datatype Option<T> = None | Some(value: T)
}
