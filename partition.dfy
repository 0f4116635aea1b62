/** The work partitioner of the threaded Leibniz pi program: the index range
    [0, n) of series terms is split into t contiguous half-open bands, one per
    worker thread. Every band gets n / t indices and the first n % t bands get
    one more. Everything here is over mathematical integers; the bounded
    arithmetic of the program itself is in module PiWorkload. */
module BandPartition {

  /** The half-open index range [start, end) that one worker sums over
      (the start and end fields of the program's ThreadData record). */
  datatype Band = Band(start: int, end: int) {

    /** Number of series terms in the band. */
    function Size(): int {
      end - start
    }

    /** True when term k is one this band's worker sums. */
    predicate Contains(k: int) {
      start <= k < end
    }
  }

  function Min(a: int, b: int): int {
    if a <= b then a else b
  }

  /** Indices every band receives (the program's base_size). */
  function BaseSize(n: nat, t: nat): nat
    requires t > 0
  {
    n / t
  }

  /** Number of leading bands that receive one extra index (the program's remainder). */
  function Remainder(n: nat, t: nat): nat
    requires t > 0
  {
    n % t
  }

  /** Size of band i: base_size, plus one when i < remainder. */
  function BandSize(n: nat, t: nat, i: nat): nat
    requires t > 0
  {
    BaseSize(n, t) + (if i < Remainder(n, t) then 1 else 0)
  }

  /** Value of the running variable `start` after k passes of the
      partition loop: the start of band k, or the end of band k - 1. */
  function Boundary(n: nat, t: nat, k: nat): nat
    requires t > 0
  {
    if k == 0 then 0 else Boundary(n, t, k - 1) + BandSize(n, t, k - 1)
  }

  /** The t bands the partition loop writes, in thread order. */
  function Partition(n: nat, t: nat): seq<Band>
    requires t > 0
  {
    seq(t, i requires 0 <= i < t => Band(Boundary(n, t, i), Boundary(n, t, i + 1)))
  }

  /** Closed form of the running start: i * base_size + min(i, remainder). */
  lemma {:induction false} BoundaryClosedForm(n: nat, t: nat, k: nat)
    requires t > 0
    ensures Boundary(n, t, k) == k * BaseSize(n, t) + Min(k, Remainder(n, t))
  {
    if k > 0 {
      BoundaryClosedForm(n, t, k - 1);
      assert k * BaseSize(n, t) == (k - 1) * BaseSize(n, t) + BaseSize(n, t);
    }
  }

  /** After all t passes the running start has reached n. */
  lemma LastBoundary(n: nat, t: nat)
    requires t > 0
    ensures Boundary(n, t, t) == n
  {
    BoundaryClosedForm(n, t, t);
  }

  /** Boundaries never decrease. */
  lemma {:induction false} BoundaryMonotone(n: nat, t: nat, i: nat, j: nat)
    requires t > 0 && i <= j
    ensures Boundary(n, t, i) <= Boundary(n, t, j)
  {
    if i < j {
      BoundaryMonotone(n, t, i, j - 1);
    }
  }

  /** Every boundary up to the t-th lies in [0, n]. */
  lemma BoundaryWithinRange(n: nat, t: nat, k: nat)
    requires t > 0 && k <= t
    ensures 0 <= Boundary(n, t, k) <= n
  {
    BoundaryMonotone(n, t, k, t);
    LastBoundary(n, t);
  }

  /** Shape of the partition: t bands, the first starting at 0, each starting
      where the previous one ended, band i of size base_size plus one exactly
      when i < remainder, each start in closed form, and the last ending at n. */
  lemma PartitionShape(n: nat, t: nat)
    requires t > 0
    ensures |Partition(n, t)| == t
    ensures Partition(n, t)[0].start == 0
    ensures forall i :: 1 <= i < t ==> Partition(n, t)[i].start == Partition(n, t)[i - 1].end
    ensures forall i :: 0 <= i < t ==>
              Partition(n, t)[i].Size() == if i < n % t then n / t + 1 else n / t
    ensures forall i :: 0 <= i < t ==>
              Partition(n, t)[i].start == i * (n / t) + Min(i, n % t)
    ensures Partition(n, t)[t - 1].end == n
  {
    forall i | 0 <= i < t
      ensures Partition(n, t)[i].start == i * (n / t) + Min(i, n % t)
    {
      BoundaryClosedForm(n, t, i);
    }
    LastBoundary(n, t);
  }

  /** Sizes are balanced to within one and never increase from one band to a later one. */
  lemma SizesBalanced(n: nat, t: nat, i: nat, j: nat)
    requires t > 0 && i <= j < t
    ensures Partition(n, t)[j].Size() <= Partition(n, t)[i].Size() <= Partition(n, t)[j].Size() + 1
  {
  }

  /** Bands are ordered and disjoint: an earlier band ends no later than a later one starts. */
  lemma BandsOrdered(n: nat, t: nat, i: nat, j: nat)
    requires t > 0 && i < j < t
    ensures Partition(n, t)[i].end <= Partition(n, t)[j].start
  {
    BoundaryMonotone(n, t, i + 1, j);
  }

  /** The band whose worker sums term k, found by scanning bands from `from` on. */
  function OwnerFrom(n: nat, t: nat, k: int, from: nat): (i: nat)
    requires t > 0 && from < t
    requires Boundary(n, t, from) <= k < n
    ensures from <= i < t && Partition(n, t)[i].Contains(k)
    decreases t - from
  {
    LastBoundary(n, t);
    if from + 1 == t || k < Boundary(n, t, from + 1) then from
    else OwnerFrom(n, t, k, from + 1)
  }

  /** The band whose worker sums term k of the series. */
  function Owner(n: nat, t: nat, k: int): (i: nat)
    requires t > 0 && 0 <= k < n
    ensures i < t && Partition(n, t)[i].Contains(k)
  {
    OwnerFrom(n, t, k, 0)
  }

  /** Every index in [0, n) lies in exactly one band, and no band holds an index outside [0, n). */
  lemma CoveredExactlyOnce(n: nat, t: nat, k: int)
    requires t > 0
    ensures (exists i :: 0 <= i < t && Partition(n, t)[i].Contains(k)) <==> 0 <= k < n
    ensures forall i, j ::
              (0 <= i < t && 0 <= j < t && Partition(n, t)[i].Contains(k) && Partition(n, t)[j].Contains(k))
              ==> i == j
  {
    if 0 <= k < n {
      var i := Owner(n, t, k);
    }
    forall i | 0 <= i < t && Partition(n, t)[i].Contains(k)
      ensures 0 <= k < n
    {
      BoundaryWithinRange(n, t, i);
      BoundaryWithinRange(n, t, i + 1);
    }
    forall i, j | 0 <= i < t && 0 <= j < t &&
                  Partition(n, t)[i].Contains(k) && Partition(n, t)[j].Contains(k)
      ensures i == j
    {
      if i < j {
        BandsOrdered(n, t, i, j);
      } else if j < i {
        BandsOrdered(n, t, j, i);
      }
    }
  }

  /** With more threads than terms nothing is clamped: base_size is 0, the first
      n bands hold one term each and the remaining bands are empty at n. */
  lemma MoreThreadsThanTerms(n: nat, t: nat)
    requires 0 < n < t
    ensures BaseSize(n, t) == 0
    ensures forall i :: 0 <= i < n ==> Partition(n, t)[i] == Band(i, i + 1)
    ensures forall i :: n <= i < t ==> Partition(n, t)[i] == Band(n, n)
  {
    forall i | 0 <= i <= t
      ensures Boundary(n, t, i) == Min(i, n)
    {
      BoundaryClosedForm(n, t, i);
    }
  }
}
