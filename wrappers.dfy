/** The optional-value datatype used throughout the model for C# `null` and for
    operations that throw. */
module Wrappers {

  datatype Option<+T> = None | Some(value: T)
}
