/** The optional-value type used throughout the model (Kotlin's nullable `T?`). */
module Wrappers {
  datatype Option<+T> = None | Some(value: T)
}
