/** An optional value, used in place of a Java reference that may be null. */
module Wrappers {

  /** `None` stands for Java's `null`; `Some(v)` for a non-null reference to `v`. */
  datatype Option<+T> = None | Some(value: T)
}
