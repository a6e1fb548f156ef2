/** The optional-value wrapper used across the model. */
module Wrappers {

  /** `None` stands for a JavaScript `undefined` where an optional argument may be left out. */
  datatype Option<+T> = None | Some(value: T)
}
