/** Result and option types standing in for JavaScript's `undefined`, `NaN` and thrown errors. */
module Wrappers {
  /** A value that may be missing, as JavaScript's `undefined`. */
  datatype Option<T> = None | Some(value: T)

  /** The outcome of an operation that either returns a value or throws an error with a message. */
  datatype Result<T> = Ok(value: T) | Err(msg: string)
  {
    predicate IsOk() { Ok? }
  }

  /** A JavaScript number as produced by `parseInt`: an integer or `NaN`. */
  datatype Num = Finite(n: int) | NaN

  /**
   * The recursion bound left one call further down, where the model bounds a recursion the
   * source leaves to JavaScript's stack.
   */
  function Below(fuel: nat): (r: nat)
    requires fuel > 0
    ensures r < fuel
  {
    fuel - 1
  }
}
