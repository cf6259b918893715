/** The optional value shared by every module (a nullable reference, a
    `Optional` or an absent property). */
module Wrappers {
  datatype Option<+T> = None | Some(value: T)
}
