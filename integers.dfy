/** The C# integral ranges the model needs, written out exactly. */
module Integers {

  const IntMinValue: int := -0x8000_0000
  const IntMaxValue: int := 0x7FFF_FFFF
  const LongMinValue: int := -0x8000_0000_0000_0000
  const LongMaxValue: int := 0x7FFF_FFFF_FFFF_FFFF

  /** C#'s `int`. */
  type Int32 = x: int | IntMinValue <= x <= IntMaxValue

  /** C#'s `long`. */
  type Int64 = x: int | LongMinValue <= x <= LongMaxValue

  function Pow2(n: nat): (r: nat)
    ensures r >= 1
  {
    if n == 0 then 1 else 2 * Pow2(n - 1)
  }
}
