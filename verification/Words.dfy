/** Unsigned 64-bit arithmetic with Go's wrap-around. */
module Words {
  const U64_RANGE := 0x1_0000_0000_0000_0000
  const UINT48_MAX := 0xffff_ffff_ffff

  type u64 = x: int | 0 <= x < 0x1_0000_0000_0000_0000

  function WrapAdd(a: u64, b: u64): u64 {
    (a + b) % U64_RANGE
  }

  function WrapSub(a: u64, b: u64): u64 {
    (a - b) % U64_RANGE
  }

  lemma WrapAddExact(a: u64, b: u64)
    ensures a + b < U64_RANGE ==> WrapAdd(a, b) == a + b
    ensures a + b >= U64_RANGE ==> WrapAdd(a, b) == a + b - U64_RANGE
  {
  }

  lemma WrapSubExact(a: u64, b: u64)
    ensures b <= a ==> WrapSub(a, b) == a - b
    ensures a < b ==> WrapSub(a, b) == a + U64_RANGE - b
  {
  }
}
