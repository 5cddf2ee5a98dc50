/** The optional value used wherever the TypeScript source returns `null`
    or leaves a property undefined. */
module Wrappers {

  datatype Option<+T> = None | Some(value: T)
}
