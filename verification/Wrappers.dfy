/** Values that may be absent: the source's `null` and `undefined`. */
module Wrappers {
  datatype Option<T> = None | Some(value: T) {
    /** The value, or a default: `??`. */
    function GetOr(default: T): T { if Some? then value else default }
  }
}
