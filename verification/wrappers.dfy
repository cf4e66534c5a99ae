/** Failure-compatible wrappers used throughout the model. */
module Wrappers {

  /** A value that may be absent: the source's `None`. */
  datatype Option<+T> = None | Some(value: T)

  /** A value, or the exception raised instead of producing it. */
  datatype Result<+T, +E> = Success(value: T) | Failure(error: E)

  /** Python truthiness of an optional string: neither `None` nor empty. */
  predicate TruthyStr(o: Option<string>) {
    o.Some? && o.value != ""
  }

  /** Python truthiness of an optional integer id: neither `None` nor zero. */
  predicate TruthyId(o: Option<nat>) {
    o.Some? && o.value != 0
  }
}
