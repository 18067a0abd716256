/** A value that may be missing: nil in Go, undefined in TypeScript, or the absence of a result. */
module Wrappers {

  datatype Option<+T> = None | Some(value: T)
}
