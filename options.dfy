/** The optional value that the firmware's iterators and sensor reads return. */
module Options {

  datatype Option<T> = None | Some(value: T) {

    /** `unwrap_or`: the value, or `default` when there is none. */
    function UnwrapOr(default: T): (r: T)
      ensures Some? ==> r == value
      ensures None? ==> r == default
    {
      match this
      case Some(v) => v
      case None => default
    }
  }
}
