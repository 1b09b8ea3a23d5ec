/**
 * Go's fixed-width integers and the two integer operations of the conversion
 * engine whose Go meaning differs from Dafny's: int64 addition wraps around,
 * and int64 division truncates toward zero.
 */
module GoInts {

  const TwoTo63: int := 0x8000_0000_0000_0000

  type uint8 = x: int | 0 <= x < 256
  type int64 = x: int | -TwoTo63 <= x < TwoTo63

  /** The int64 that Go's two's-complement addition leaves for a mathematical sum. */
  function Wrap64(x: int): (r: int64)
    ensures -TwoTo63 <= x < TwoTo63 ==> r == x
    ensures (r - x) % (2 * TwoTo63) == 0
  {
    (x + TwoTo63) % (2 * TwoTo63) - TwoTo63
  }

  /** Go's `a / b` on integers: the quotient truncated toward zero. */
  function Quo(a: int, b: int): (q: int)
    requires b > 0
    ensures 0 <= a ==> q == a / b
    ensures a < 0 ==> q == -((-a) / b)
    ensures 0 <= a ==> 0 <= a - q * b < b
    ensures a < 0 ==> -b < a - q * b <= 0
  {
    if a >= 0 then a / b else -((-a) / b)
  }

  /** Go's `(x + y) / 2` on two int64 operands. */
  function Midpoint(x: int64, y: int64): (m: int64)
  {
    Quo(Wrap64(x + y), 2)
  }

  /** Without overflow, the midpoint lies between the two bounds and rounds toward zero. */
  lemma MidpointBetween(x: int64, y: int64)
    requires x <= y
    requires -TwoTo63 <= x + y < TwoTo63
    ensures x <= Midpoint(x, y) <= y
    ensures x + y >= 0 ==> Midpoint(x, y) == (x + y) / 2
    ensures x + y < 0 ==> Midpoint(x, y) == -((-(x + y)) / 2)
  {
  }
}
