/** The optional-value wrapper used throughout the model (a JavaScript
    `undefined`/`null` or an absent match becomes `None`). */
module Wrappers {
  datatype Option<+T> = None | Some(value: T)
}
