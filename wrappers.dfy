/** The conventional optional-value datatype: `None` stands for a JavaScript
    `undefined` or `null`, and for `NaN` where a number fails to parse. */
module Wrappers {

  datatype Option<+T> = None | Some(value: T) {

    /** The value, or `default` when there is none. */
    function GetOr(default: T): T {
      match this
      case Some(v) => v
      case None => default
    }
  }
}
