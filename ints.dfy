/**
 * Rust's u32 `wrapping_add`/`wrapping_sub` and the `as i32` reinterpretation, the three
 * pieces every sequence-number comparison in the protocol is built from.
 */
module Ints {
  import opened Bytes

  const U32_MOD: int := 0x1_0000_0000
  const I32_MIN: int := -0x8000_0000

  type i32 = x: int | -0x8000_0000 <= x < 0x8000_0000

  function WrappingAdd(a: u32, b: u32): (r: u32)
    ensures r == (a + b) % U32_MOD
  {
    if a + b < U32_MOD then a + b else a + b - U32_MOD
  }

  function WrappingSub(a: u32, b: u32): (r: u32)
    ensures r == (a - b) % U32_MOD
  {
    if a >= b then a - b else a - b + U32_MOD
  }

  /** `n as u8`: keeps the low eight bits. */
  function AsU8(n: nat): (r: byte)
    ensures n < 0x100 ==> r == n
    ensures (n - r) % 0x100 == 0
  {
    n % 0x100
  }

  /** `n as u16`: keeps the low sixteen bits. */
  function AsU16(n: nat): (r: u16)
    ensures n < 0x1_0000 ==> r == n
    ensures (n - r) % 0x1_0000 == 0
  {
    n % 0x1_0000
  }

  /** `n as u32`: keeps the low thirty-two bits. */
  function AsU32(n: nat): (r: u32)
    ensures n < U32_MOD ==> r == n
    ensures (n - r) % U32_MOD == 0
  {
    n % U32_MOD
  }

  /** `n as u64`: keeps the low 64 bits. */
  function AsU64(n: nat): (r: u64)
    ensures n < 0x1_0000_0000_0000_0000 ==> r == n
    ensures (n - r) % 0x1_0000_0000_0000_0000 == 0
  {
    n % 0x1_0000_0000_0000_0000
  }

  /** `x as i32`: the two's-complement reading of a 32-bit pattern. */
  function AsI32(x: u32): (r: i32)
    ensures (r - x) % U32_MOD == 0
  {
    if x < 0x8000_0000 then x else x - U32_MOD
  }

  /** `a.wrapping_sub(b) as i32`: how far `a` is ahead of `b` on the 32-bit circle. */
  function SequenceDiff(a: u32, b: u32): i32
  {
    AsI32(WrappingSub(a, b))
  }

  /** Walking the signed difference from `b` lands on `a`: the difference is the circular distance. */
  lemma SequenceDiffMeaning(a: u32, b: u32)
    ensures (b + SequenceDiff(a, b)) % U32_MOD == a
  {
  }

  /** A sequence number k steps ahead of b (k below 2^31) is seen as exactly k ahead. */
  lemma SequenceDiffAhead(b: u32, k: nat)
    requires k < 0x8000_0000
    ensures SequenceDiff(WrappingAdd(b, k), b) == k
    ensures k > 0 ==> SequenceDiff(b, WrappingAdd(b, k)) == -(k as int)
  {
    if k > 0 {
      var a := WrappingAdd(b, k);
      assert WrappingSub(b, a) == U32_MOD - k;
    }
  }

  lemma SequenceDiffZero(a: u32, b: u32)
    ensures SequenceDiff(a, b) == 0 <==> a == b
  {
  }

  /** Swapping the arguments negates the difference, except at the one ambiguous distance 2^31. */
  lemma SequenceDiffAntisymmetric(a: u32, b: u32)
    requires SequenceDiff(a, b) != I32_MIN
    ensures SequenceDiff(b, a) == -SequenceDiff(a, b)
  {
  }

  /** `u32::MAX` followed by `0` is one step forward. */
  lemma SequenceDiffAcrossWrap()
    ensures SequenceDiff(0, 0xFFFF_FFFF) == 1
    ensures WrappingAdd(0xFFFF_FFFF, 1) == 0
  {
  }

  /**
   * Inside a half-circle window starting at `base`, the signed difference is the ordinary
   * difference of the offsets from `base`: wrap-aware comparison agrees with arrival order.
   */
  lemma WindowOrder(x: u32, y: u32, base: u32)
    requires WrappingSub(x, base) < 0x8000_0000 && WrappingSub(y, base) < 0x8000_0000
    ensures SequenceDiff(x, y) == WrappingSub(x, base) - WrappingSub(y, base)
  {
  }

  /** Forward distances add up while the total stays below half the circle. */
  lemma SequenceDiffAdd(a: u32, b: u32, c: u32)
    requires 0 <= SequenceDiff(a, b) && 0 <= SequenceDiff(b, c)
    requires SequenceDiff(a, b) + SequenceDiff(b, c) < 0x8000_0000
    ensures SequenceDiff(a, c) == SequenceDiff(a, b) + SequenceDiff(b, c)
  {
    WindowOrder(a, b, c);
  }

  /** A positive multiple of a positive number is at least that number. */
  lemma MulAtLeast(k: int, d: int)
    requires k >= 1 && d > 0
    ensures k * d >= d
  {
    assert k * d == (k - 1) * d + d;
    assert (k - 1) * d >= 0;
  }

  /** Quotient and remainder are unique. */
  lemma DivUnique(n: int, d: int, q: int, r: int)
    requires d > 0 && 0 <= r < d && n == q * d + r
    ensures n / d == q && n % d == r
  {
    var q', r' := n / d, n % d;
    assert n == q' * d + r' && 0 <= r' < d;
    assert (q - q') * d == r' - r by {
      assert q * d - q' * d == (q - q') * d;
    }
    if q > q' {
      MulAtLeast(q - q', d);
    } else if q < q' {
      MulAtLeast(q' - q, d);
    }
  }

  /** The product of two non-negative reals is non-negative. */
  lemma MulNonneg(a: real, b: real)
    requires a >= 0.0 && b >= 0.0
    ensures a * b >= 0.0
  {
  }
}
