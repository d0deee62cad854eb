/** A value that may be absent: a dictionary entry that is not there, or
    a decoder that gave up. */
module Wrappers {

  datatype Option<T> = None | Some(value: T) {

    /** What `d.get(key, fallback)` yields: the value when present, the
        fallback otherwise. */
    function ValueOr(fallback: T): T {
      if Some? then value else fallback
    }
  }
}
