/** A value that may be missing, for JSON keys that may be absent. */
module Optional {

  /** `None` is what Python's `dict.get` yields for a missing key or a JSON `null`. */
  datatype Option<T> = None | Some(value: T) {

    /** Python's `d.get(key, default)`: the value, or `default` when missing. */
    function GetOr(default: T): T {
      if Some? then value else default
    }
  }
}
