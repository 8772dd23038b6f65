/** Nullable references of the C# source are modelled as `Option` values. */
module Wrappers {

  datatype Option<+T> = None | Some(value: T)
}
