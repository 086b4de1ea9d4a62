/** The optional value used throughout for the source's `std::optional` results. */
module Wrappers {

  datatype Option<+T> = None | Some(value: T) {
    function GetOr(default: T): T {
      match this
      case Some(v) => v
      case None => default
    }

    /** Keeps this value when there is one, and takes the other otherwise. */
    function Else(other: Option<T>): Option<T> {
      if Some? then this else other
    }
  }
}
