/** Datatypes shared by the model: `Option` is a C# reference or nullable
    value that may be null, and `Result` is either a computed value or the
    exception the computation ends in. */
module Wrappers {

  datatype Option<+T> = None | Some(value: T) {

    /** The value, or `default` when absent: the C# `??` operator. */
    function GetOr(default: T): T {
      match this
      case Some(v) => v
      case None => default
    }
  }

  datatype Result<+R, +E> = Success(value: R) | Failure(error: E)
}
