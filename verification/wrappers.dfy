/** The optional value used wherever a decoding step of the binding can fail. */
module Wrappers {

  datatype Option<+T> = None | Some(value: T)
}
