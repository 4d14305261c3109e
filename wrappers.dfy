/** Optional values shared by the model.

    In the JavaScript client an `Option` stands for a key that an object may or
    may not carry (a patch `{ status: "OPEN" }` has no `description`) or for
    React state that starts as `null`; in the Java backend it stands for a
    reference that may be `null`. */
module Wrappers {

  datatype Option<+T> = None | Some(value: T) {

    /** The carried value, or `default` when there is none. */
    function GetOr(default: T): T
    {
      match this
      case Some(v) => v
      case None => default
    }
  }
}
