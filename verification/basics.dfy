/** Vocabulary shared by the scripting model: optional values and octets. */
module Basics {

  /** A value that may be absent; Qt's `bool *ok` out-parameter becomes `None`. */
  datatype Option<T> = None | Some(value: T) {

    /** The wrapped value, or `default` when absent. */
    function GetOr(default: T): T {
      match this
      case Some(v) => v
      case None => default
    }
  }

  /** One element of a QByteArray. */
  type byte = b: int | 0 <= b < 256
}
