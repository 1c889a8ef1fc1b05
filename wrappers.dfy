/** The optional value used where the model answers "which one, if any". */
module Wrappers {
  datatype Option<+T> = None | Some(value: T)
}
