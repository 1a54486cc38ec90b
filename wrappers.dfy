/** Option, for conversions and prompts that may produce no value. */
module Wrappers {
  datatype Option<+T> = None | Some(value: T)
}
