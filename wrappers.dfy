/** Small shared datatype for "maybe a value". */
module Wrappers {
  datatype Option<+T> = None | Some(value: T)
}
