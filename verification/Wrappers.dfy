/** The optional value shared by every module of the project. */
module Wrappers {

  datatype Option<+T> = None | Some(value: T) {

    /** The value of `Some`, or `default` for `None`. */
    function GetOr(default: T): T {
      if Some? then value else default
    }
  }
}
