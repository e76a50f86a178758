/** Fixed-width unsigned arithmetic, wrapping and saturating, and decimal digits. */
module Words {
  const TWO_32 := 0x1_0000_0000
  const TWO_64 := 0x1_0000_0000_0000_0000

  type u32 = x: int | 0 <= x < TWO_32
  type u64 = x: int | 0 <= x < TWO_64

  const USIZE_MAX: u64 := TWO_64 - 1

  function Min(a: nat, b: nat): nat {
    if a <= b then a else b
  }

  function Max64(a: u64, b: u64): u64 {
    if a >= b then a else b
  }

  /** Decimal digits. */
  function Digits(n: nat): string {
    (if n < 10 then "" else Digits(n / 10)) + [('0' as int + n % 10) as char]
  }

  /** `+=` without overflow checks. */
  function WrapAdd32(a: u32, b: u32): u32 {
    (a + b) % TWO_32
  }

  function WrapAdd64(a: u64, b: u64): u64 {
    (a + b) % TWO_64
  }

  function SaturatingAdd64(a: u64, b: u64): u64 {
    Min(a + b, TWO_64 - 1)
  }

  function Wrap32(n: nat): u32 {
    n % TWO_32
  }

  function Wrap64(n: nat): u64 {
    n % TWO_64
  }

  /** A wrapped running sum is the wrapped true sum. */
  lemma WrapsTrueSum64(sum: nat, b: u64)
    ensures WrapAdd64(Wrap64(sum), b) == Wrap64(sum + b)
  {
  }

  lemma WrapsTrueSum32(sum: nat, b: u32)
    ensures WrapAdd32(Wrap32(sum), b) == Wrap32(sum + b)
  {
  }

  lemma SmallUnwrapped(n: nat)
    requires n < TWO_64
    ensures Wrap64(n) == n
  {
  }
}
