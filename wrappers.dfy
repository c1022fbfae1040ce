/** Kotlin's nullable types (`String?`, `AndroidScore?`) as an explicit option. */
module Wrappers {

  datatype Option<+T> = None | Some(value: T)
}
