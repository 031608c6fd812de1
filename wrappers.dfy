/** The optional value used throughout the model: None stands for JavaScript's null/NaN and pandas's NaN. */
module Wrappers {

  datatype Option<+T> = None | Some(value: T) {

    function GetOr(default: T): T {
      match this
      case Some(v) => v
      case None => default
    }
  }
}
