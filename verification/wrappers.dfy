/** The optional-value datatype used throughout the model: `None` stands for
    JavaScript's `undefined` (or `null`) where the source uses an optional value. */
module Wrappers {

  datatype Option<+T> = None | Some(value: T)
}
