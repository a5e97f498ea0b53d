/** The option type that stands for the repository's nullable columns and nil pointers, and the larger of two numbers. */
module Wrappers {
  datatype Option<+T> = None | Some(value: T)

  function Max(a: int, b: int): int { if a < b then b else a }
}
