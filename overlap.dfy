/** Which bins of an axis a fragment touches: the union, over its aligned
    blocks, of the bins each block touches, and the proof that this is exactly
    the set of bins some block overlaps. */
module Overlap {
  import opened Common
  import opened Bins
  import opened Alignments
  import opened Annotation

  /** `d.get(k, [None, None])`: the axis of a key, or nothing. */
  function Lookup<K, V>(m: map<K, V>, k: K): Option<V> {
    if k in m then Some(m[k]) else None
  }

  ghost predicate SearchableAxis(axis: Option<Extents>) {
    axis.Some? ==> SearchableBins(axis.value.starts, axis.value.ends)
  }

  /** The union, over the blocks, of the bins each block touches; an absent
      axis touches nothing. */
  function AxisTouched(axis: Option<Extents>, blocks: seq<Block>): (s: set<nat>)
    requires SearchableAxis(axis)
    ensures axis.None? ==> s == {}
    ensures axis.Some? ==> forall i :: i in s ==> i < |axis.value.starts|
    decreases |blocks|
  {
    if axis.None? || blocks == [] then {}
    else
      var b := blocks[|blocks| - 1];
      AxisTouched(axis, blocks[..|blocks| - 1]) + TouchedBins(axis.value.starts, axis.value.ends, b.OneBasedStart(), b.end)
  }

  /** Some block of the fragment shares a base with bin `i`. */
  ghost predicate OverlappedBy(e: Extents, blocks: seq<Block>, i: nat)
    requires |e.starts| == |e.ends|
  {
    exists k :: 0 <= k < |blocks| && Overlaps(e.starts, e.ends, i, blocks[k].OneBasedStart(), blocks[k].end)
  }

  /** One more block adds the bins it touches. */
  lemma AxisTouchedStep(axis: Option<Extents>, blocks: seq<Block>, k: nat)
    requires SearchableAxis(axis) && k < |blocks|
    ensures axis.None? ==> AxisTouched(axis, blocks[..k + 1]) == {}
    ensures axis.Some? ==>
              AxisTouched(axis, blocks[..k + 1]) ==
              AxisTouched(axis, blocks[..k]) + TouchedBins(axis.value.starts, axis.value.ends, blocks[k].start + 1, blocks[k].end)
  {
    assert blocks[..k + 1][..k] == blocks[..k];
  }

  /** The reference definition: the bins that some block overlaps. */
  ghost function OverlappingBins(e: Extents, blocks: seq<Block>): set<nat>
    requires |e.starts| == |e.ends|
  {
    set i: nat | i < |e.starts| && OverlappedBy(e, blocks, i)
  }

  /** Blocks as pysam reports them: at least one aligned base each. */
  ghost predicate NonEmptyBlocks(blocks: seq<Block>) {
    forall k :: 0 <= k < |blocks| ==> blocks[k].start < blocks[k].end
  }

  lemma OverlappedByLast(e: Extents, blocks: seq<Block>, i: nat)
    requires |e.starts| == |e.ends| && blocks != []
    ensures OverlappedBy(e, blocks, i) <==>
              OverlappedBy(e, blocks[..|blocks| - 1], i) ||
              Overlaps(e.starts, e.ends, i, blocks[|blocks| - 1].OneBasedStart(), blocks[|blocks| - 1].end)
  {
    var init := blocks[..|blocks| - 1];
    if OverlappedBy(e, blocks, i) {
      var k :| 0 <= k < |blocks| && Overlaps(e.starts, e.ends, i, blocks[k].OneBasedStart(), blocks[k].end);
      if k < |init| {
        assert init[k] == blocks[k];
      }
    }
    if OverlappedBy(e, init, i) {
      var k :| 0 <= k < |init| && Overlaps(e.starts, e.ends, i, init[k].OneBasedStart(), init[k].end);
      assert init[k] == blocks[k];
    }
  }

  /** On a well-formed axis, the touched set of a fragment is exactly the set of
      bins that one of its blocks overlaps, however many blocks overlap each. */
  lemma {:induction false} AxisTouchedExact(e: Extents, blocks: seq<Block>)
    requires WellFormedBins(e.starts, e.ends)
    requires NonEmptyBlocks(blocks)
    ensures SearchableAxis(Some(e))
    ensures AxisTouched(Some(e), blocks) == OverlappingBins(e, blocks)
    decreases |blocks|
  {
    WellFormedIsSearchable(e.starts, e.ends);
    if blocks != [] {
      var init := blocks[..|blocks| - 1];
      var b := blocks[|blocks| - 1];
      assert NonEmptyBlocks(init) by {
        forall k | 0 <= k < |init| ensures init[k].start < init[k].end {
          assert init[k] == blocks[k];
        }
      }
      AxisTouchedExact(e, init);
      TouchedBinsExact(e.starts, e.ends, b.OneBasedStart(), b.end);
      forall i: nat ensures i in AxisTouched(Some(e), blocks) <==> i in OverlappingBins(e, blocks) {
        OverlappedByLast(e, blocks, i);
      }
    }
  }
}
