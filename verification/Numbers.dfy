/** Numbers that several modules count with. */
module Numbers {
  newtype Byte = x: int | 0 <= x < 256

  function Max(a: int, b: int): int {
    if a >= b then a else b
  }

  function Min(a: int, b: int): int {
    if a <= b then a else b
  }
}
