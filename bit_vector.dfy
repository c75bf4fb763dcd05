/** The filter's bitmap as a value: what inserting a list of probe positions
    does to it, when a list of probes is fully set, and how many bits are on. */
module BitVector {

  /** The bitmap after `set(p, true)` for every probe position `p` in `ps`;
      positions outside the bitmap are ignored. */
  function WithBitsSet(bits: seq<bool>, ps: seq<nat>): (r: seq<bool>)
  {
    seq(|bits|, j requires 0 <= j < |bits| => bits[j] || j in ps)
  }

  /** Every probe position lies inside the bitmap and its bit is on. */
  predicate AllSet(bits: seq<bool>, ps: seq<nat>)
  {
    forall i :: 0 <= i < |ps| ==> ps[i] < |bits| && bits[ps[i]]
  }

  /** A bitmap of `m` bits, all off. */
  function AllClear(m: nat): (r: seq<bool>)
  {
    seq(m, _ => false)
  }

  /** The number of bits that are on. */
  function Popcount(bits: seq<bool>): (n: nat)
  {
    if bits == [] then 0 else (if bits[0] then 1 else 0) + Popcount(bits[1..])
  }

  /** Setting bits keeps the length and only ever turns bits on. */
  lemma WithBitsSetMonotone(bits: seq<bool>, ps: seq<nat>)
    ensures |WithBitsSet(bits, ps)| == |bits|
    ensures forall j :: 0 <= j < |bits| && bits[j] ==> WithBitsSet(bits, ps)[j]
  {
  }

  /** Bits at positions that are not probed keep their value. */
  lemma WithBitsSetFrame(bits: seq<bool>, ps: seq<nat>, j: nat)
    requires j < |bits| && j !in ps
    ensures WithBitsSet(bits, ps)[j] == bits[j]
  {
  }

  /** After setting the probes of `ps`, all of them are set. */
  lemma WithBitsSetCovers(bits: seq<bool>, ps: seq<nat>)
    requires forall i :: 0 <= i < |ps| ==> ps[i] < |bits|
    ensures AllSet(WithBitsSet(bits, ps), ps)
  {
  }

  /** A fully set probe list stays fully set whatever else is set. */
  lemma AllSetPreserved(bits: seq<bool>, ps: seq<nat>, qs: seq<nat>)
    requires AllSet(bits, qs)
    ensures AllSet(WithBitsSet(bits, ps), qs)
  {
  }

  /** Setting the probes of a list that is already fully set changes nothing. */
  lemma WithBitsSetNoop(bits: seq<bool>, ps: seq<nat>)
    requires AllSet(bits, ps)
    ensures WithBitsSet(bits, ps) == bits
  {
  }

  /** Setting the same probes twice gives the bitmap of setting them once. */
  lemma WithBitsSetIdempotent(bits: seq<bool>, ps: seq<nat>)
    ensures WithBitsSet(WithBitsSet(bits, ps), ps) == WithBitsSet(bits, ps)
  {
  }

  /** The order in which two probe lists are set does not matter. */
  lemma WithBitsSetCommute(bits: seq<bool>, ps: seq<nat>, qs: seq<nat>)
    ensures WithBitsSet(WithBitsSet(bits, ps), qs) == WithBitsSet(WithBitsSet(bits, qs), ps)
  {
  }

  /** Setting one more probe is one more single-bit `set`: this is the step
      the insert loop takes in each round. */
  lemma WithBitsSetSnoc(bits: seq<bool>, ps: seq<nat>, p: nat)
    requires p < |bits|
    ensures WithBitsSet(bits, ps + [p]) == WithBitsSet(bits, ps)[p := true]
  {
  }

  /** An all-off bitmap sets no probe, so an item with at least one probe
      is never reported present by it. */
  lemma AllClearSetsNothing(m: nat, ps: seq<nat>)
    requires |ps| > 0
    ensures !AllSet(AllClear(m), ps)
  {
    if ps[0] < m {
      assert !AllClear(m)[ps[0]];
    }
  }

  /** No bit is on exactly when the count of bits that are on is zero. */
  lemma {:induction false} PopcountZero(bits: seq<bool>)
    ensures Popcount(bits) == 0 <==> forall j :: 0 <= j < |bits| ==> !bits[j]
  {
    if bits != [] {
      PopcountZero(bits[1..]);
      assert forall j :: 1 <= j < |bits| ==> bits[j] == bits[1..][j - 1];
    }
  }

  /** The all-off bitmap has no bit on. */
  lemma AllClearPopcount(m: nat)
    ensures Popcount(AllClear(m)) == 0
  {
    PopcountZero(AllClear(m));
  }

  /** Turning bits on never lowers the count. */
  lemma {:induction false} PopcountMonotone(a: seq<bool>, b: seq<bool>)
    requires |a| == |b|
    requires forall j :: 0 <= j < |a| && a[j] ==> b[j]
    ensures Popcount(a) <= Popcount(b)
  {
    if a != [] {
      assert forall j :: 0 <= j < |a| - 1 && a[1..][j] ==> b[1..][j] by {
        forall j | 0 <= j < |a| - 1 && a[1..][j]
          ensures b[1..][j]
        {
          assert a[1..][j] == a[j + 1];
        }
      }
      PopcountMonotone(a[1..], b[1..]);
    }
  }

  /** Setting one bit raises the count by one if it was off, else not at all. */
  lemma {:induction false} PopcountSetOne(bits: seq<bool>, p: nat)
    requires p < |bits|
    ensures Popcount(bits[p := true]) == Popcount(bits) + (if bits[p] then 0 else 1)
  {
    if p == 0 {
      assert bits[p := true][1..] == bits[1..];
    } else {
      assert bits[p := true][1..] == bits[1..][p - 1 := true];
      PopcountSetOne(bits[1..], p - 1);
    }
  }

  /** Setting the probes of `ps` turns on at most `|ps|` new bits and never
      turns any off. */
  lemma {:induction false} PopcountWithBitsSet(bits: seq<bool>, ps: seq<nat>)
    requires forall i :: 0 <= i < |ps| ==> ps[i] < |bits|
    ensures Popcount(bits) <= Popcount(WithBitsSet(bits, ps)) <= Popcount(bits) + |ps|
  {
    PopcountMonotone(bits, WithBitsSet(bits, ps));
    if ps == [] {
      assert WithBitsSet(bits, ps) == bits;
    } else {
      var init, last := ps[..|ps| - 1], ps[|ps| - 1];
      assert ps == init + [last];
      PopcountWithBitsSet(bits, init);
      WithBitsSetSnoc(bits, init, last);
      PopcountSetOne(WithBitsSet(bits, init), last);
    }
  }
}
