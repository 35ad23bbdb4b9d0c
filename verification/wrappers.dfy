/** The optional-value datatype used throughout the model for JavaScript's
    `undefined`/`null` results and for answers the user has not given yet. */
module Wrappers {

  datatype Option<+T> = None | Some(value: T)
}
