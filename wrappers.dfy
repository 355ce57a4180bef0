/** The optional-value type shared by every module of the model. */
module Wrappers {

  /** A value that may be missing: an absent stored setting, a window that
      was not found. */
  datatype Option<+T> = None | Some(value: T)
}
