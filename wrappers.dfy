/** The Option type used where the source yields `None`, NaN or raises. */
module Wrappers {
  datatype Option<+T> = None | Some(value: T)
}
