/** The optional-value datatype used across the model for values the
    source represents as `null` (a missing cache, an unset anchor, a
    missing bridge manager). */
module Wrappers {

  datatype Option<+T> = None | Some(value: T)
}
