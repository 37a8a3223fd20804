/** Dynamically typed values, standing for Go's `interface{}`, and Go's `int`. */
module Values {

  const MinInt64: int := -0x8000_0000_0000_0000
  const MaxInt64: int := 0x7FFF_FFFF_FFFF_FFFF
  const TwoTo64: int := 0x1_0000_0000_0000_0000

  /** Go's `int` on a 64-bit platform. */
  newtype int64 = x: int | -0x8000_0000_0000_0000 <= x < 0x8000_0000_0000_0000

  /** Two's-complement wrap-around, the way Go's signed arithmetic overflows. */
  function Wrap(x: int): (r: int64)
    ensures MinInt64 <= x <= MaxInt64 ==> r as int == x
    ensures x == MaxInt64 + 1 ==> r as int == MinInt64
    ensures (x - r as int) % TwoTo64 == 0
  {
    ((x - MinInt64) % TwoTo64 + MinInt64) as int64
  }

  /**
    * The values an argument or a query result can hold. Floats, slices,
    * functions and every other dynamic type collapse into `OtherV`;
    * `NilV` is the nil interface.
    */
  datatype Value = NilV | IntV(i: int64) | StrV(s: string) | OtherV
}
