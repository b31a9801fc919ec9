/** Option, usable with `:-`, for the model's partial operations. */
module Wrappers {

  datatype Option<+T> = None | Some(value: T) {

    predicate IsFailure() {
      None?
    }

    function PropagateFailure<U>(): Option<U>
      requires None?
    {
      None
    }

    function Extract(): T
      requires Some?
    {
      value
    }

    /** The value when present, `fallback` when absent. With the fallback `""` this is
        JavaScript's `v || ""` on a string: an empty value gives `""` either way. */
    function GetOr(fallback: T): T {
      match this
      case Some(v) => v
      case None => fallback
    }
  }
}
