/**
  Fixed-width integers of the drivers and the driver client: unsigned
  arithmetic wraps, casts truncate.
 */
module Words {
  const TWO16: int := 0x1_0000
  const TWO32: int := 0x1_0000_0000
  const TWO64: int := 0x1_0000_0000_0000_0000
  const MAX32: int := 0xFFFF_FFFF

  type u16 = x: int | 0 <= x < 0x1_0000
  type u32 = x: int | 0 <= x < 0x1_0000_0000
  type u64 = x: int | 0 <= x < 0x1_0000_0000_0000_0000
  type i64 = x: int | -0x8000_0000_0000_0000 <= x < 0x8000_0000_0000_0000

  function Trunc16(x: int): u16 { x % 0x1_0000 }

  function Trunc32(x: int): u32 { x % 0x1_0000_0000 }

  function Trunc64(x: int): u64 { x % 0x1_0000_0000_0000_0000 }

  function Min(a: int, b: int): int { if a <= b then a else b }

  function Max(a: int, b: int): int { if a >= b then a else b }

  datatype Option<+T> = None | Some(value: T)

  lemma MulLe(a: int, b: int, c: int)
    requires a <= b && 0 <= c
    ensures a * c <= b * c
  {}

  /** A quotient is pinned down by its two multiplicative bounds. */
  lemma DivBounds(n: int, d: int)
    requires 0 < d
    ensures (n / d) * d <= n < (n / d + 1) * d
  {}

  lemma DivAtMost(n: int, d: int, q: int)
    requires 0 < d && n <= q * d
    ensures n / d <= q
  {
    DivBounds(n, d);
    if n / d > q { MulLe(q + 1, n / d, d); }
  }
}
