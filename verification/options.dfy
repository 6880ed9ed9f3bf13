/** A value that may be absent. In the tracker this is the storage slot, which holds a
    saved workout list or nothing (`localStorage.getItem` gives `null`), and the result
    of a lookup by id (`find` gives `undefined` on a miss). */
module Options {

  datatype Option<T> = None | Some(value: T) {

    /** The value held, or `default` when there is none. */
    function GetOr(default: T): T {
      if Some? then value else default
    }
  }
}
