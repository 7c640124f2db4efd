/** Machine words. */
module Words {

  const TWO_30 := 0x4000_0000
  const TWO_31 := 0x8000_0000
  const TWO_32 := 0x1_0000_0000
  const TWO_64 := 0x1_0000_0000_0000_0000

  /** An unsigned 64-bit integer; every mask of the source is a run of bits, so
      masking and shifting are remainders and quotients of powers of two. */
  type U64 = x: int | 0 <= x < TWO_64
}
