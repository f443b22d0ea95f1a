/** The optional-value type used for the nullable references of the checker. */
module Wrappers {

  /** `None` stands for a C# `null`; `Some(v)` for a non-null reference `v`. */
  datatype Option<+T> = None | Some(value: T)
}
