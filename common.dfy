/**
 * Value types shared by the modules of the model: optional values, results
 * carrying the exception a Python operation raises, and the length and
 * coordinate representations used by the tools, the rack and the inventory.
 */
module Common {

  /** Python's `None`-or-value. */
  datatype Option<+T> = None | Some(value: T)

  /** A value, or the exception that the modelled Python code raises instead. */
  datatype Result<+T, +E> = Success(value: T) | Failure(error: E)

  /** The Python exceptions the modelled operations can raise. */
  datatype PyError = ValueError | IndexError | AttributeError | TypeError

  /** A length, counted in nanometres (the `.base` of a Length quantity). */
  type Length = int

  /** A board position; each axis is a length in nanometres, possibly fractional. */
  datatype Coordinate = Coordinate(x: real, y: real)

  function Min(a: int, b: int): int { if a <= b then a else b }

  function Max(a: int, b: int): int { if a <= b then b else a }
}
