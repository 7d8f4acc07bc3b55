/** The optional-value datatype the rest of the model uses for JavaScript
    values that may be `undefined`, and for remote reads that may fail. */
module Wrappers {

  datatype Option<+T> = None | Some(value: T)
}
