/** A value that may be absent, shared by the other modules. */
module Wrappers {

  /** A value that may be absent: a nullable column or an omitted request field. */
  datatype Option<+T> = None | Some(value: T) {

    /** The carried value, or `default` when absent. */
    function GetOr(default: T): T
    {
      match this
      case Some(v) => v
      case None => default
    }
  }
}
