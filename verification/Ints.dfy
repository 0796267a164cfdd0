/** Signed 64-bit integers as the source's arithmetic has them: wrapping around, and dividing towards zero. */
module Ints {
  const TWO64: int := 0x1_0000_0000_0000_0000
  const MAX_INT64: int := 0x7fff_ffff_ffff_ffff

  predicate IsInt64(v: int) { -MAX_INT64 - 1 <= v <= MAX_INT64 }

  function Wrap(v: int): (r: int)
    ensures IsInt64(r)
    ensures IsInt64(v) ==> r == v
  {
    (v + MAX_INT64 + 1) % TWO64 - MAX_INT64 - 1
  }

  function DivTrunc(a: int, b: int): int
    requires b > 0
  {
    if a >= 0 then a / b else -((-a) / b)
  }

  function Pow2(k: nat): (r: nat)
    ensures r > 0
  {
    if k == 0 then 1 else 2 * Pow2(k - 1)
  }
}
