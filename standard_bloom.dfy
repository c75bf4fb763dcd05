/** `StandardBloomFilter` of src/lib.rs: an insert-only Bloom filter over a
    fixed-length bitmap with `optimal_k` probe rounds per item, each probe
    derived from two base hashes by double hashing (the Rust doc comment
    calls it enhanced). */
module StandardBloom {
  import opened DoubleHashing
  import opened BitVector

  /** The two conditions under which `new` panics. */
  datatype ParamError = ZeroItemsCount | FpRateOutOfRange

  datatype Outcome = Pass | Fail(error: ParamError)

  datatype Result<R> = Ok(value: R) | Err(error: ParamError)

  /** The argument checks at the start of `new`, in their order: the item
      count first, then the false-positive rate. */
  function CheckParameters(itemsCount: nat, fpRate: real): (r: Outcome)
    ensures r == Pass <==> itemsCount > 0 && 0.0 < fpRate < 1.0
    ensures r == Fail(ZeroItemsCount) <==> itemsCount == 0
  {
    if itemsCount == 0 then Fail(ZeroItemsCount)
    else if !(0.0 < fpRate && fpRate < 1.0) then Fail(FpRateOutOfRange)
    else Pass
  }

  /** The inputs the tests of src/lib.rs pass to `new`, plus the boundary
      rates of the check. */
  lemma ParameterExamples()
    ensures CheckParameters(0, 0.01) == Fail(ZeroItemsCount)
    ensures CheckParameters(100, 1.5) == Fail(FpRateOutOfRange)
    ensures CheckParameters(100, 0.0) == Fail(FpRateOutOfRange)
    ensures CheckParameters(100, 1.0) == Fail(FpRateOutOfRange)
    ensures CheckParameters(100, -0.5) == Fail(FpRateOutOfRange)
    ensures CheckParameters(100, 0.01) == Pass && CheckParameters(1000, 0.01) == Pass
  {
  }

  class StandardBloomFilter<T> {
    /** The bit vector; its length never changes. */
    const bitmap: array<bool>
    /** The number of probe rounds per item. */
    const optimalK: u32
    /** The two seeded hashers, fixed for the filter's lifetime: the base
        hashes `(h1, h2)` each item gets. */
    const hashers: T -> (u64, u64)
    /** The items inserted since construction or the last `clear`. */
    ghost var Inserted: set<T>

    /** The sizes every constructed filter has. */
    ghost predicate Shape()
    {
      0 < bitmap.Length < TWO64 && optimalK >= 1
    }

    /** The filter's invariant: every item inserted since the last clear has
        all of its probe bits set. */
    ghost predicate Valid()
      reads this, bitmap
    {
      Shape() && forall x :: x in Inserted ==> AllSet(bitmap[..], ProbesOf(x))
    }

    /** `hash_kernel`: the item's two base hashes, taken from the filter's
        fixed hashers, so every call on one filter gives the same pair. */
    function HashKernel(item: T): (u64, u64)
    {
      hashers(item)
    }

    /** The probe positions of `item`, one per round. */
    function ProbesOf(item: T): (ps: seq<nat>)
      requires Shape()
      ensures |ps| == optimalK
      ensures forall i :: 0 <= i < |ps| ==> ps[i] < bitmap.Length
    {
      Probes(HashKernel(item).0, HashKernel(item).1, optimalK, bitmap.Length)
    }

    /** The filter `new` builds once it has sized the bitmap to `m` bits and
        chosen `k` rounds: all bits off, nothing inserted. */
    constructor (m: nat, k: u32, hashers: T -> (u64, u64))
      requires 0 < m < TWO64 && k >= 1
      ensures Valid() && fresh(bitmap)
      ensures bitmap.Length == m && optimalK == k && this.hashers == hashers
      ensures bitmap[..] == AllClear(m) && Inserted == {}
    {
      bitmap := new bool[m](_ => false);
      optimalK := k;
      this.hashers := hashers;
      Inserted := {};
    }

    /** `insert`: sets the bit of each of the item's probe rounds. */
    method Insert(item: T)
      requires Valid()
      modifies this, bitmap
      ensures Valid() && Inserted == old(Inserted) + {item}
      ensures bitmap[..] == WithBitsSet(old(bitmap[..]), ProbesOf(item))
      ensures forall j :: 0 <= j < bitmap.Length && old(bitmap[j]) ==> bitmap[j]
      ensures forall j :: 0 <= j < bitmap.Length && j !in ProbesOf(item) ==> bitmap[j] == old(bitmap[j])
      ensures old(item in Inserted) ==> bitmap[..] == old(bitmap[..])
      ensures Popcount(old(bitmap[..])) <= Popcount(bitmap[..]) <= Popcount(old(bitmap[..])) + optimalK
    {
      var (h1, h2) := HashKernel(item);
      var len := bitmap.Length;
      ghost var ps := ProbesOf(item);
      for ki := 0 to optimalK
        modifies bitmap
        invariant bitmap[..] == WithBitsSet(old(bitmap[..]), ps[..ki])
      {
        var index := GetIndex(h1, h2, ki, len);
        WithBitsSetSnoc(old(bitmap[..]), ps[..ki], index);
        assert ps[..ki + 1] == ps[..ki] + [index];
        bitmap[index] := true;
      }
      assert ps[..optimalK] == ps;
      WithBitsSetCovers(old(bitmap[..]), ps);
      PopcountWithBitsSet(old(bitmap[..]), ps);
      if item in Inserted {
        WithBitsSetNoop(old(bitmap[..]), ps);
      }
      forall x | x in Inserted
        ensures AllSet(bitmap[..], ProbesOf(x))
      {
        AllSetPreserved(old(bitmap[..]), ps, ProbesOf(x));
      }
      Inserted := Inserted + {item};
    }

    /** `contains`: false at the first probe round whose bit is off, true
        when every round's bit is on. Never false for an inserted item. */
    method Contains(item: T) returns (r: bool)
      requires Valid()
      ensures r == AllSet(bitmap[..], ProbesOf(item))
      ensures !r <==> exists i :: 0 <= i < optimalK &&
                        !bitmap[GetIndex(HashKernel(item).0, HashKernel(item).1, i, bitmap.Length)]
      ensures item in Inserted ==> r
      ensures Popcount(bitmap[..]) == 0 ==> !r
    {
      var (h1, h2) := HashKernel(item);
      var len := bitmap.Length;
      ghost var ps := ProbesOf(item);
      if Popcount(bitmap[..]) == 0 {
        PopcountZero(bitmap[..]);
        assert bitmap[..] == AllClear(len);
        AllClearSetsNothing(len, ps);
      }
      for ki := 0 to optimalK
        invariant forall i :: 0 <= i < ki ==> bitmap[GetIndex(h1, h2, i, len)]
      {
        var index := GetIndex(h1, h2, ki, len);
        // `get(index).unwrap_or(false)`; the index is always in range
        var bit := if index < len then bitmap[index] else false;
        if !bit {
          assert ps[ki] == index;
          return false;
        }
      }
      return true;
    }

    /** `clear`: turns every bit off, keeping the length and the rounds. */
    method Clear()
      requires Valid()
      modifies this, bitmap
      ensures Valid() && Inserted == {}
      ensures bitmap[..] == AllClear(bitmap.Length)
      ensures IsEmpty()
    {
      forall j | 0 <= j < bitmap.Length {
        bitmap[j] := false;
      }
      AllClearPopcount(bitmap.Length);
      Inserted := {};
    }

    /** `len`: the bitmap length, positive for every constructed filter. */
    function Len(): (r: nat)
      requires Shape()
      ensures 0 < r < TWO64
    {
      bitmap.Length
    }

    /** `is_empty`: no bit is on. */
    function IsEmpty(): (r: bool)
      reads bitmap
      ensures r <==> Popcount(bitmap[..]) == 0
    {
      PopcountZero(bitmap[..]);
      forall j :: 0 <= j < bitmap.Length ==> !bitmap[j]
    }

    /** `hash_count`: the number of probe rounds, at least one. */
    function HashCount(): (r: u32)
      requires Shape()
      ensures r >= 1
    {
      optimalK
    }
  }

  /** `new`: rejects a zero item count and a false-positive rate outside
      (0, 1); otherwise builds an empty filter of `m` bits and `k` rounds,
      the sizes `bitmap_size` and `optimal_k` in src/lib.rs derive from the
      two arguments. */
  method New<T>(itemsCount: nat, fpRate: real, m: nat, k: u32, hashers: T -> (u64, u64))
    returns (r: Result<StandardBloomFilter<T>>)
    requires CheckParameters(itemsCount, fpRate) == Pass ==> 0 < m < TWO64 && k >= 1
    ensures r.Err? <==> CheckParameters(itemsCount, fpRate).Fail?
    ensures r.Err? ==> r.error == CheckParameters(itemsCount, fpRate).error
    ensures r.Ok? ==> fresh(r.value) && fresh(r.value.bitmap) && r.value.Valid()
    ensures r.Ok? ==> r.value.Len() == m && r.value.HashCount() == k && r.value.IsEmpty()
    ensures r.Ok? ==> r.value.hashers == hashers && r.value.Inserted == {}
  {
    var check := CheckParameters(itemsCount, fpRate);
    if check.Fail? {
      return Err(check.error);
    }
    var filter := new StandardBloomFilter(m, k, hashers);
    AllClearPopcount(m);
    return Ok(filter);
  }

  /** The lifecycle tests of src/lib.rs: a fresh filter holds nothing, an inserted
      item is found, and after `clear` the filter is empty again with its
      sizes unchanged. */
  method Lifecycle<T>(item: T, other: T, m: nat, k: u32, hashers: T -> (u64, u64))
    returns (freshHas: bool, insertedHas: bool, clearedEmpty: bool, clearedHas: bool, sizesKept: bool)
    requires 0 < m < TWO64 && k >= 1
    ensures !freshHas && insertedHas && clearedEmpty && !clearedHas && sizesKept
  {
    var filter := new StandardBloomFilter(m, k, hashers);
    AllClearPopcount(m);
    freshHas := filter.Contains(other);
    filter.Insert(item);
    insertedHas := filter.Contains(item);
    filter.Clear();
    clearedEmpty := filter.IsEmpty();
    clearedHas := filter.Contains(item);
    sizesKept := filter.Len() == m && filter.HashCount() == k;
  }

  /** The multi-item test of src/lib.rs: after inserting every item of `items`,
      each of them is reported present. */
  method InsertAllFindAll<T>(items: seq<T>, m: nat, k: u32, hashers: T -> (u64, u64))
    returns (allFound: bool)
    requires 0 < m < TWO64 && k >= 1
    ensures allFound
  {
    var filter := new StandardBloomFilter(m, k, hashers);
    for i := 0 to |items|
      invariant filter.Valid() && fresh(filter.bitmap)
      invariant forall j :: 0 <= j < i ==> items[j] in filter.Inserted
    {
      filter.Insert(items[i]);
    }
    allFound := true;
    for i := 0 to |items|
      invariant filter.Valid()
      invariant forall j :: 0 <= j < |items| ==> items[j] in filter.Inserted
      invariant allFound
    {
      var found := filter.Contains(items[i]);
      allFound := allFound && found;
    }
  }
}
