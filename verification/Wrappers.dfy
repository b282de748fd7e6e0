/** The shape that stands for an absent value. */
module Wrappers {

  datatype Option<+T> = None | Some(value: T) {

    /** The value held, or `default` when there is none. */
    function Or(default: T): T {
      if Some? then value else default
    }
  }
}
