/** Integer arithmetic as C++ has it. */
module Integers {

  /** Division truncates toward zero. */
  function Quot(a: int, b: int): int
    requires b > 0
  {
    if a >= 0 then a / b else 0 - ((0 - a) / b)
  }

  /** The remainder has the sign of the dividend. */
  function Rem(a: int, b: int): int
    requires b > 0
  {
    a - b * Quot(a, b)
  }

  /** A conversion to a signed type with `size` values. */
  function Cut(x: int, size: int): int
    requires size > 0
  {
    var low := x % size;
    if low >= size / 2 then low - size else low
  }

  function Int8(x: int): int { Cut(x, 0x100) }

  function Int16(x: int): int { Cut(x, 0x1_0000) }

  function Int32(x: int): int { Cut(x, 0x1_0000_0000) }
}
