/** Java references that may be null. */
module Nullable {

  /** `None` stands for Java's `null`. */
  datatype Option<+T> = None | Some(value: T)
}
