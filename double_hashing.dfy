/** Wrapping 64-bit unsigned arithmetic and the double-hashing probe index of
    the standard Bloom filter (`get_index` in src/lib.rs, whose doc comment
    calls the scheme enhanced double hashing). */
module DoubleHashing {

  const TWO32: int := 0x1_0000_0000
  const TWO64: int := 0x1_0000_0000_0000_0000

  /** Rust's `u32` and `u64` (and `usize`, taken to be 64 bits wide). */
  type u32 = x: int | 0 <= x < TWO32
  type u64 = x: int | 0 <= x < TWO64

  /** `u64::wrapping_add`: the exact sum while it fits in 64 bits; past that
      the carry out of bit 63 is dropped instead of trapping. */
  function WrappingAdd(a: u64, b: u64): (r: u64)
    ensures a + b < TWO64 ==> r == a + b
    ensures a + b >= TWO64 ==> r == a + b - TWO64
  {
    (a + b) % TWO64
  }

  /** `u64::wrapping_mul`: the exact product while it fits in 64 bits, and in
      every case the one 64-bit value congruent to the product modulo 2^64. */
  function WrappingMul(a: u64, b: u64): (r: u64)
    ensures a * b < TWO64 ==> r == a * b
    ensures (a * b - r) % TWO64 == 0
  {
    (a * b) % TWO64
  }

  /** `get_index`: the bit probed in round `ki` for base hashes `h1`, `h2`,
      namely `h1 + ki * h2` computed with wrapping 64-bit operations and then
      reduced modulo the bitmap length. The result is always a valid bit
      position; the wrap only matters once the combined hash overflows. */
  function GetIndex(h1: u64, h2: u64, ki: u64, len: u64): (r: nat)
    requires len > 0
    ensures r < len
    ensures r == (h1 + ki * h2) % TWO64 % len
    ensures h1 + ki * h2 < TWO64 ==> r == (h1 + ki * h2) % len
  {
    WrapAddMod(h1, ki * h2);
    WrappingAdd(h1, WrappingMul(ki, h2)) % len
  }

  /** Reducing the product modulo 2^64 before the wrapping add gives the
      exact sum reduced modulo 2^64. */
  lemma WrapAddMod(a: nat, p: nat)
    ensures (a + p % TWO64) % TWO64 == (a + p) % TWO64
  {
  }

  /** The probe positions of rounds 0 .. k-1, in the order `insert` and
      `contains` visit them. */
  function Probes(h1: u64, h2: u64, k: u32, len: u64): (ps: seq<nat>)
    requires len > 0
    ensures |ps| == k
    ensures forall i :: 0 <= i < |ps| ==> ps[i] < len
  {
    seq(k, i requires 0 <= i < k => GetIndex(h1, h2, i, len))
  }
}
