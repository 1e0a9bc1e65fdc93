/** The optional-value type used throughout the model for JavaScript's
    `null` / `undefined` ("absent") versus a present value. */
module Wrappers {

  datatype Option<+T> = None | Some(value: T) {

    /** JavaScript's `a ?? b` on optional values: `a` when present,
        otherwise `b`. */
    function OrElse(other: Option<T>): (r: Option<T>)
      ensures r.Some? <==> Some? || other.Some?
      ensures Some? ==> r == this
      ensures None? ==> r == other
    {
      match this
      case Some(_) => this
      case None => other
    }
  }
}
