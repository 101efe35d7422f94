/** Option type for values the source leaves `undefined`/`null`. */
module Wrappers {
  datatype Option<+T> = None | Some(value: T)
}
