/** A value or none: the source's None, missing keys and refusals. */
module Options {

  datatype Option<+T> = None | Some(value: T) {
    function Or(default: T): T {
      if Some? then value else default
    }
  }
}
