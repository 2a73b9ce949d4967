/** The failure value used wherever the game utilities would raise on a
    missing dictionary key, an unknown lookup name or a division by zero. */
module Wrappers {

  /** `None` stands for the exception the original code would raise. */
  datatype Option<+T> = None | Some(value: T) {

    /** The wrapped value, or `default` when the computation failed. */
    function GetOr(default: T): T {
      match this
      case Some(v) => v
      case None => default
    }
  }
}
