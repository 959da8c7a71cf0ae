/** The conventional optional value: Python's `None` or a value. */
module Options {
  datatype Option<+T> = None | Some(value: T) {

    /** Python's `value or default`, for values that are never falsy. */
    function Or(default: T): T {
      if Some? then value else default
    }
  }
}
