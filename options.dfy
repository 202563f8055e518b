/** A cell that may be missing: a CSV value pandas would read as NaN. */
module Options {

  datatype Option<+T> = None | Some(value: T) {

    /** The value, or `default` when the cell is missing (one `fillna` entry). */
    function GetOr(default: T): (r: T)
      ensures Some? ==> r == value
      ensures None? ==> r == default
    {
      match this
      case Some(v) => v
      case None => default
    }
  }
}
