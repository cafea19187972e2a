/** Swift optionals (`T?`) as a tagged variant: `nil` is `None`, a present value is `Some`. */
module Wrappers {

  datatype Option<+T> = None | Some(value: T) {

    /** Optional chaining `x?.f`: applies `f` only when a value is present,
        and the whole chain is `nil` as soon as one link is missing. */
    function Then<U>(f: T -> Option<U>): (r: Option<U>)
      ensures r.Some? <==> Some? && f(value).Some?
      ensures r.Some? ==> r == f(value)
    {
      match this
      case None => None
      case Some(v) => f(v)
    }
  }
}
