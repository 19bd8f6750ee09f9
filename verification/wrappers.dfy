/** The optional-value datatype used throughout the model (a JavaScript
    `null`/`undefined` on one side, a value on the other). */
module Wrappers {

  datatype Option<+T> = None | Some(value: T)
}
