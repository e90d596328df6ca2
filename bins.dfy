/** The interval-overlap search of the quantification step: a genomic block is
    resolved against the sorted, non-overlapping bins of one axis (sense
    mintrons, antisense mintrons or intergenic regions) given as two parallel
    sequences `starts` and `ends` in 1-based inclusive coordinates. */
module Bins {

  /** Non-decreasing order, the precondition of `numpy.searchsorted`. */
  ghost predicate Sorted(a: seq<int>) {
    forall i, j :: 0 <= i < j < |a| ==> a[i] <= a[j]
  }

  /** The shape the annotation index gives every axis: as many ends as starts,
      every bin non-empty, and every bin ending before the next one starts. */
  ghost predicate WellFormedBins(starts: seq<int>, ends: seq<int>) {
    && |starts| == |ends|
    && (forall i :: 0 <= i < |starts| ==> starts[i] <= ends[i])
    && (forall i :: 0 <= i < |starts| - 1 ==> ends[i] < starts[i + 1])
  }

  /** The weaker shape the search itself needs to be defined. */
  ghost predicate SearchableBins(starts: seq<int>, ends: seq<int>) {
    Sorted(starts) && |starts| == |ends|
  }

  /** Binary search for the number of elements `<= v`, keeping the invariant
      that everything before `lo` is `<= v` and everything from `hi` is `> v`. */
  function Bisect(a: seq<int>, v: int, lo: nat, hi: nat): (k: nat)
    requires Sorted(a) && lo <= hi <= |a|
    requires forall i :: 0 <= i < lo ==> a[i] <= v
    requires forall i :: hi <= i < |a| ==> v < a[i]
    ensures lo <= k <= hi
    ensures forall i :: 0 <= i < k ==> a[i] <= v
    ensures forall i :: k <= i < |a| ==> v < a[i]
    decreases hi - lo
  {
    if lo == hi then lo
    else
      var mid := (lo + hi) / 2;
      if a[mid] <= v then Bisect(a, v, mid + 1, hi) else Bisect(a, v, lo, mid)
  }

  /** `numpy.searchsorted(a, v, side="right")`: the insertion point after every
      element equal to `v`. */
  function SearchSortedRight(a: seq<int>, v: int): (k: nat)
    requires Sorted(a)
    ensures k <= |a|
    ensures forall i :: 0 <= i < k ==> a[i] <= v
    ensures forall i :: k <= i < |a| ==> v < a[i]
  {
    Bisect(a, v, 0, |a|)
  }

  /** The half-open index range `[lo, hi)` the code adds for the block
      `[start, end]`: `last` is the last bin starting at or before `start` (or
      -1), `hi` the first bin starting after `end`; bin `last` itself is kept
      only when it reaches `start`. */
  function TouchedRange(starts: seq<int>, ends: seq<int>, start: int, end: int): (r: (nat, nat))
    requires SearchableBins(starts, ends)
    ensures r.1 <= |starts|
  {
    var last := SearchSortedRight(starts, start) - 1;
    var first := SearchSortedRight(starts, end);
    if last == -1 then (0, first)
    else if ends[last] >= start then (last, first)
    else (last + 1, first)
  }

  /** The set `range(lo, hi)` that the code adds to the touched set. */
  function TouchedBins(starts: seq<int>, ends: seq<int>, start: int, end: int): (s: set<nat>)
    requires SearchableBins(starts, ends)
    ensures forall i :: i in s ==> i < |starts|
  {
    var r := TouchedRange(starts, ends, start, end);
    Range(r.0, r.1)
  }

  /** Python's `range(lo, hi)` as a set. */
  function Range(lo: nat, hi: nat): (s: set<nat>)
    ensures forall i: int :: i in s <==> lo <= i < hi
    decreases hi - lo
  {
    if lo >= hi then {} else {lo} + Range(lo + 1, hi)
  }

  /** Bin `i` and the block `[start, end]` share at least one base. */
  predicate Overlaps(starts: seq<int>, ends: seq<int>, i: int, start: int, end: int)
    requires |starts| == |ends|
  {
    0 <= i < |starts| && starts[i] <= end && ends[i] >= start
  }

  lemma WellFormedIsSearchable(starts: seq<int>, ends: seq<int>)
    requires WellFormedBins(starts, ends)
    ensures SearchableBins(starts, ends)
    ensures forall i, j :: 0 <= i < j < |starts| ==> ends[i] < starts[j]
  {
    forall i, j | 0 <= i < j < |starts| ensures ends[i] < starts[j] && starts[i] < starts[j] {
      BinsOrdered(starts, ends, i, j);
    }
  }

  /** A bin ends before every later bin starts. */
  lemma {:induction false} BinsOrdered(starts: seq<int>, ends: seq<int>, i: int, j: int)
    requires WellFormedBins(starts, ends)
    requires 0 <= i < j < |starts|
    ensures ends[i] < starts[j] && starts[i] < starts[j]
    decreases j - i
  {
    if j > i + 1 {
      BinsOrdered(starts, ends, i, j - 1);
    }
  }

  /** The three branches of the search touch exactly the bins that overlap
      the block, for any block with `start <= end`. */
  lemma TouchedBinsExact(starts: seq<int>, ends: seq<int>, start: int, end: int)
    requires WellFormedBins(starts, ends)
    requires start <= end
    ensures SearchableBins(starts, ends)
    ensures forall i: int :: i in TouchedBins(starts, ends, start, end) <==> Overlaps(starts, ends, i, start, end)
  {
    WellFormedIsSearchable(starts, ends);
    var last := SearchSortedRight(starts, start) - 1;
    var first := SearchSortedRight(starts, end);
    var s := TouchedBins(starts, ends, start, end);
    forall i: int | 0 <= i < |starts|
      ensures i in s <==> Overlaps(starts, ends, i, start, end)
    {
      if i < last {
        assert ends[i] < starts[last] <= start;
      } else if i == last {
        assert starts[i] <= start <= end;
      } else {
        assert start < starts[i] <= ends[i];
      }
    }
  }

  /** A block that ends before the first bin starts touches nothing. */
  lemma BlockBeforeFirstBin(starts: seq<int>, ends: seq<int>, start: int, end: int)
    requires SearchableBins(starts, ends)
    requires |starts| > 0 && end < starts[0]
    ensures TouchedBins(starts, ends, start, end) == {}
  {
    assert SearchSortedRight(starts, end) == 0;
  }

  /** An axis without bins touches nothing. */
  lemma EmptyAxisTouchesNothing(start: int, end: int)
    ensures SearchableBins([], [])
    ensures TouchedBins([], [], start, end) == {}
  {
  }

  /** A block spanning exactly one bin touches that bin and no other. */
  lemma ExactBinBlock(starts: seq<int>, ends: seq<int>, i: nat)
    requires WellFormedBins(starts, ends)
    requires i < |starts|
    ensures SearchableBins(starts, ends)
    ensures TouchedBins(starts, ends, starts[i], ends[i]) == {i}
  {
    TouchedBinsExact(starts, ends, starts[i], ends[i]);
    WellFormedIsSearchable(starts, ends);
    var s := TouchedBins(starts, ends, starts[i], ends[i]);
    forall j: nat | j in s ensures j == i {
      assert Overlaps(starts, ends, j, starts[i], ends[i]);
    }
    assert Overlaps(starts, ends, i, starts[i], ends[i]);
  }

  /** A block that covers the tail of bin `i` and the head of bin `i + 1`
      touches both. */
  lemma StraddlingBlock(starts: seq<int>, ends: seq<int>, i: nat, start: int, end: int)
    requires WellFormedBins(starts, ends)
    requires i + 1 < |starts|
    requires starts[i] <= start <= ends[i] && starts[i + 1] <= end <= ends[i + 1]
    ensures SearchableBins(starts, ends)
    ensures TouchedBins(starts, ends, start, end) == {i, i + 1}
  {
    TouchedBinsExact(starts, ends, start, end);
    WellFormedIsSearchable(starts, ends);
    var s := TouchedBins(starts, ends, start, end);
    forall j: nat | j in s ensures j == i || j == i + 1 {
      assert Overlaps(starts, ends, j, start, end);
    }
    assert Overlaps(starts, ends, i, start, end);
    assert Overlaps(starts, ends, i + 1, start, end);
  }
}
