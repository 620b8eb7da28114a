/** The two result shapes every component shares. */
module Wrappers {

  /** A value the source may leave out (`None` in Python, NULL in a table). */
  datatype Option<+T> = None | Some(value: T)

  /** A call that either answers or raises. */
  datatype Result<+R, +E> = Success(value: R) | Failure(error: E)

  /** Some member of a set that has one. */
  ghost function Pick<T>(s: set<T>): (x: T)
    requires s != {}
    ensures x in s
  {
    var x :| x in s; x
  }
}
