/** `Option` and `Min`, shared by the other modules. */
module Wrappers {

  /** A value that may be absent: an optional AiiDA input, a dictionary key that may be missing. */
  datatype Option<+T> = None | Some(value: T)

  /** The smaller of two integers (used for Python's clamping slice bounds). */
  function Min(a: int, b: int): (m: int)
    ensures m <= a && m <= b
    ensures m == a || m == b
  {
    if a <= b then a else b
  }
}
