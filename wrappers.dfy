/** The optional-value wrapper used throughout the model: an `undefined` field or
    variable of the JavaScript source is `None`, a present one is `Some`. */
module Wrappers {

  datatype Option<+T> = None | Some(value: T)
}
