/** The result shapes and small helpers the modules below share. */
module Wrappers {

  datatype Option<+T> = None | Some(value: T)

  datatype Result<+T, +E> = Success(value: T) | Failure(error: E)

  function Max(a: int, b: int): int {
    if a < b then b else a
  }

  function Min(a: int, b: int): int {
    if a < b then a else b
  }

  type Byte = x: int | 0 <= x < 256

  /** One step in front of a run. */
  function Then<A>(a: A, rest: seq<A>): seq<A> {
    [a] + rest
  }
}
