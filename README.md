# Standard Bloom filter in Dafny

This project models `StandardBloomFilter` from the `tempora-bloom` Rust crate.
It is an insert-only Bloom filter. Its state is a bitmap of fixed length `m`, a
fixed number of probe rounds `k` (`optimal_k`) and two seeded hashers. Together
the hashers give each item two 64-bit base hashes `h1` and `h2`. Round `i` probes
bit `(h1 + i*h2) mod 2^64 mod m`, with the addition and the multiplication
wrapping at 2^64. `insert` sets the probed bits and `contains` tests them,
stopping at the first bit that is off. `clear` turns every bit off.

The model has three modules:

- `DoubleHashing` (`double_hashing.dfy`) holds the pure index arithmetic. Rust's
  `u32` and `u64` are integer ranges. `wrapping_add` and `wrapping_mul` are
  written out modulo 2^64. `GetIndex` is `get_index`, and `Probes` lists the
  positions probed in rounds `0..k`.
- `BitVector` (`bit_vector.dfy`) describes the bitmap as a value.
  `WithBitsSet(bits, ps)` is the reference meaning of setting a list of probes.
  `AllSet` says every probe is set, `AllClear` is the all-off bitmap and
  `Popcount` counts the bits that are on. The lemmas here carry the
  filter's guarantees: bits only turn on, untouched bits keep their value,
  repeating an insert changes nothing, and the count of set bits changes in
  bounded steps.
- `StandardBloom` (`standard_bloom.dfy`) holds the filter itself. It is a class
  with an `array<bool>` bitmap, an immutable `optimalK` and an immutable
  `hashers: T -> (u64, u64)`. `Insert` and `Contains` are methods with the
  source's `for k_i in 0..optimal_k` loops. `Clear` resets the array in place.
  `New` performs the argument checks of `new`. A ghost set `Inserted` records
  the items inserted since the last clear. `Valid()` states the no-false-negative
  invariant: every such item has all its probe bits set. `Insert` and `Clear`
  preserve it, and `Contains` uses it to return `true` for every item in
  `Inserted`.

The source panics in `new` on bad arguments. The model returns that as
`Err(ZeroItemsCount)` or `Err(FpRateOutOfRange)` in a `Result`, and checks the
item count first, as the source does. `clear` comes from the `bit_vec` crate's
`BitVec::clear`, which turns all bits off and keeps the length. The model's
bitmap keeps its length because it is a `const` array.

The source's doc comment calls the index scheme "enhanced double hashing".
The code, like the model, computes plain double hashing `h1 + i*h2`, with no
cubic correction term.

## Model

| member | source | states |
|---|---|---|
| `DoubleHashing.WrappingAdd` | src/lib.rs:146 | the 64-bit sum equals the exact sum when it fits and the sum minus 2^64 otherwise: it wraps instead of overflowing |
| `DoubleHashing.WrappingMul` | src/lib.rs:146 | the 64-bit product equals the exact product when it fits, and is always congruent to it modulo 2^64 |
| `DoubleHashing.WrapAddMod` | src/lib.rs:146 | wrapping the product before the wrapping add gives the same 64-bit value as wrapping the exact sum once |
| `DoubleHashing.GetIndex` | src/lib.rs:143-148 | the probe index is always below the bitmap length and equals `(h1 + ki*h2) mod 2^64 mod len` for all inputs; without overflow it is `(h1 + ki*h2) mod len` |
| `DoubleHashing.Probes` | src/lib.rs:82-83 | one probe per round, `k` in all, each inside the bitmap |
| `BitVector.WithBitsSetMonotone` | src/lib.rs:78-86 | setting probes keeps the bitmap length and never turns a bit off |
| `BitVector.WithBitsSetFrame` | src/lib.rs:82-85 | a bit at a position that no round probes keeps its value |
| `BitVector.WithBitsSetCovers` | src/lib.rs:82-85 | after setting the probes of a list, every one of them is set |
| `BitVector.AllSetPreserved` | src/lib.rs:78-86 | probes that are all set stay all set after further inserts, so later inserts cannot cause a false negative |
| `BitVector.WithBitsSetNoop` | src/lib.rs:78-86 | setting probes that are already all set leaves the bitmap unchanged |
| `BitVector.WithBitsSetIdempotent` | src/lib.rs:78-86 | setting the same probes twice gives the same bitmap as setting them once |
| `BitVector.WithBitsSetCommute` | src/lib.rs:78-86 | the final bitmap does not depend on the order of two inserts |
| `BitVector.WithBitsSetSnoc` | src/lib.rs:82-85 | one more round of the insert loop is one single-bit `set(index, true)` on the bitmap so far |
| `BitVector.AllClearSetsNothing` | src/lib.rs:96-108 | an all-off bitmap reports no item with at least one probe round as present |
| `BitVector.PopcountZero` | src/lib.rs:121-123 | the set-bit count is zero exactly when no bit is on, in both directions |
| `BitVector.AllClearPopcount` | src/lib.rs:56 | the all-false bitmap built by `from_elem(m, false)` has no bit on |
| `BitVector.PopcountMonotone` | src/lib.rs:78-86 | turning bits on never lowers the number of set bits |
| `BitVector.PopcountSetOne` | src/lib.rs:84 | one `set(index, true)` raises the count by exactly one if the bit was off, and by zero otherwise |
| `BitVector.PopcountWithBitsSet` | src/lib.rs:78-86 | an insert of `k` probes raises the set-bit count by at least 0 and at most `k` |
| `StandardBloom.CheckParameters` | src/lib.rs:42-46 | construction passes exactly when `items_count > 0` and `0 < fp_rate < 1`; a zero count is reported as the zero-count error whatever the rate |
| `StandardBloom.ParameterExamples` | src/lib.rs:203-213 | the two panic tests: `(0, 0.01)` is rejected for the count and `(100, 1.5)` for the rate; beside them the boundary rates `0.0`, `1.0` and `-0.5` are rejected, and the test inputs `(100, 0.01)` and `(1000, 0.01)` pass |
| `StandardBloom.StandardBloomFilter.ProbesOf` | src/lib.rs:79-83 | an item has exactly `optimal_k` probes, all inside the bitmap |
| `StandardBloom.StandardBloomFilter.constructor` | src/lib.rs:55-60 | a new filter has `m` bits, all false, `k` rounds and the given hashers, nothing inserted, and satisfies the invariant |
| `StandardBloom.StandardBloomFilter.Insert` | src/lib.rs:78-86 | the new bitmap is the old one with the item's probes set; no bit turns off; unprobed bits keep their value; re-inserting an item already inserted changes nothing; the set-bit count grows by at most `k`; the no-false-negative invariant now covers the item too |
| `StandardBloom.StandardBloomFilter.Contains` | src/lib.rs:96-108 | reads without modifying; returns false exactly when some round's `GetIndex` bit is off, and true when all `k` probed bits are set; true for every item inserted since the last clear; false on an empty bitmap |
| `StandardBloom.StandardBloomFilter.Clear` | src/lib.rs:111-113 | every bit is off, the filter is empty and nothing counts as inserted; length and rounds are immutable |
| `StandardBloom.StandardBloomFilter.Len` | src/lib.rs:116-118 | the bitmap length is positive and fits in 64 bits |
| `StandardBloom.StandardBloomFilter.IsEmpty` | src/lib.rs:121-123 | true exactly when the number of set bits is zero |
| `StandardBloom.StandardBloomFilter.HashCount` | src/lib.rs:126-128 | the number of probe rounds is at least one |
| `StandardBloom.New` | src/lib.rs:41-61 | fails with the error of the argument check exactly when the check fails; otherwise returns a fresh, valid, empty filter with `len() == m`, `hash_count() == k` and the given hashers |
| `StandardBloom.Lifecycle` | src/lib.rs:155-178 | a new filter reports an item absent; after inserting an item, it is found; after `clear`, the filter is empty, the item is absent again and `len`/`hash_count` keep their construction values |
| `StandardBloom.InsertAllFindAll` | src/lib.rs:180-201 | after inserting every item of any list into a new filter, each of them is reported present |

## Left out

- HashKernel: models `hash_kernel` (src/lib.rs:131-141) as the filter's uninterpreted, immutable `hashers` applied to the item. It has no contract beyond that definition; that the same item gets the same base hashes in every `insert` and `contains` follows from `hashers` being a `const` field.
- `bitmap_size` and `optimal_k` (src/lib.rs:64-72) compute with `f64` logarithms, powers and `ceil`. Floating point is not modelled, so `New` takes the resulting `m` and `k` as parameters. It requires `0 < m < 2^64` and `k >= 1` only when the argument check passes. The formulas guarantee both for valid arguments.
- The internals of `hash_kernel` and the random seeding through `RandomState` and `DefaultHasher` are library calls and randomness. They are the parameter `hashers: T -> (u64, u64)`, one fixed deterministic function per filter.
- `fp_rate` is a Dafny `real`. A NaN rate fails both comparisons in the source and panics, but a real cannot be NaN, so that input is not modelled.
- The panic is modelled as an `Err` result. The source also rejects bad arguments before any allocation; the model's error path allocates nothing, but no contract states that.
- `usize` is taken to be 64 bits wide, so `len as u64` and the cast of the index back to `usize` are exact. Running out of memory while allocating a huge bitmap is not modelled.
- `BitVec` is modelled as an `array<bool>`. Its word-level storage is not modelled, nor is the fact that `get` returns `None` past the end. `Contains` keeps the source's `unwrap_or(false)` fallback, which `GetIndex` makes unreachable.
- `PhantomData` and the `T: ?Sized + Hash` bounds are type-level details with no behaviour.
- The statistical false-positive rate is a probabilistic claim, so it is not a contract of any call.
- Thread safety is not modelled: the filter has no concurrency, and sharing it across threads is outside its contract.
