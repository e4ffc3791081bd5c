/** Option, and the overriding of one optional setting by another. */
module Wrappers {
  datatype Option<+T> = None | Some(value: T) {
    function GetOr(default: T): T {
      match this
      case Some(v) => v
      case None => default
    }
  }

  /** A setting that was asked for replaces the one there was. */
  function Override<X>(was: Option<X>, asked: Option<X>): Option<X> {
    if asked.Some? then asked else was
  }
}
