/** The ranges of the machine integers the code uses, and the smaller and larger of two numbers. */
module Numbers {

  const I64_MAX := 0x7fff_ffff_ffff_ffff
  const U64_MAX := 0xffff_ffff_ffff_ffff
  const I128_MAX := 0x7fff_ffff_ffff_ffff_ffff_ffff_ffff_ffff
  const U128_MAX := 0xffff_ffff_ffff_ffff_ffff_ffff_ffff_ffff

  predicate InI128(x: int) {
    -I128_MAX - 1 <= x <= I128_MAX
  }

  predicate InU128(x: int) {
    0 <= x <= U128_MAX
  }

  function Minimum(a: int, b: int): int {
    if a <= b then a else b
  }

  function Maximum(a: int, b: int): int {
    if a >= b then a else b
  }
}
