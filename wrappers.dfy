/** The usual optional value, standing in for TypeScript's `T | null`. */
module Wrappers {
  datatype Option<+T> = None | Some(value: T)
}
