/** Java's nullable references and thrown exceptions, written as values. */
module Wrappers {

  /** A nullable reference: `None` stands for Java's `null`. */
  datatype Option<+T> = None | Some(value: T)

  /** Either the value an operation returns or the exception it throws. */
  datatype Result<+T, +E> = Success(value: T) | Failure(error: E)

  /**
   * First-write-wins update of a nullable field: the current value is kept
   * unless it is null, in which case the argument (possibly null itself) is
   * taken.
   */
  function FirstSet<T>(current: Option<T>, arg: Option<T>): Option<T>
  {
    if current.None? then arg else current
  }
}
