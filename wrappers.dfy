/** Option, used where the source returns a flag plus out-parameters or a nullable value. */
module Wrappers {
  datatype Option<+T> = None | Some(value: T)
}
