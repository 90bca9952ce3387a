/** Option, standing for a JavaScript value that may be null (a missing
    storage record) or NaN (a string parseInt cannot read). */
module Wrappers {

  datatype Option<+T> = None | Some(value: T)
}
