/** Optional values: a JSON field that may be absent from a record. */
module Wrappers {

  /** `None` is a field the record does not carry; `Some(v)` one it does. */
  datatype Option<+T> = None | Some(value: T) {

    /** The carried value, or `default` when the field is absent
        (the behaviour of Python's `dict.get(key, default)`). */
    function GetOr(default: T): T {
      match this
      case Some(v) => v
      case None => default
    }
  }
}
