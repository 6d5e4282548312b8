/** Java's Optional, as a value. */
module Wrappers {

  /** `None` stands for an empty Optional (or a Java null), `Some(v)` for a present value. */
  datatype Option<+T> = None | Some(value: T) {

    /** Optional.orElse: the value when present, the default otherwise. */
    function GetOr(default: T): T {
      match this
      case Some(v) => v
      case None => default
    }
  }
}
