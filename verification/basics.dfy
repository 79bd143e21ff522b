/** Vocabulary shared by the wiki model: optional values and bytes. */
module Basics {

  /** An absent or present value; stands in for a Go result that may be nil. */
  datatype Option<+T> = None | Some(value: T)

  /** One byte of a page body, Go's `byte`. */
  newtype byte = x: int | 0 <= x < 256

  function Min(a: int, b: int): int {
    if a <= b then a else b
  }
}
