/** The optional-value datatype used throughout the model for JavaScript's
    `undefined`/`null` results and for the fields of partial records. */
module Wrappers {

  datatype Option<+T> = None | Some(value: T) {

    /** The carried value, or `default` when there is none. */
    function GetOr(default: T): T {
      match this
      case Some(v) => v
      case None => default
    }
  }
}
