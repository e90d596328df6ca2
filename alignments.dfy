/** Alignment records as the quantification step sees them: the SAM FLAG bits
    it tests (section 1.4 of the SAMv1 specification), the NH tag, and the
    aligned blocks that pysam reports. */
module Alignments {

  /** FLAG bit 0x2: each segment properly aligned according to the aligner. */
  const ProperPairBit: bv16 := 0x2
  /** FLAG bit 0x4: segment unmapped. */
  const UnmappedBit: bv16 := 0x4
  /** FLAG bit 0x10: SEQ being reverse complemented. */
  const ReverseBit: bv16 := 0x10
  /** FLAG bit 0x40: the first segment in the template. */
  const Read1Bit: bv16 := 0x40
  /** FLAG bit 0x80: the last segment in the template. */
  const Read2Bit: bv16 := 0x80

  /** One aligned block as `get_blocks()` returns it: 0-based, half-open. */
  datatype Block = Block(start: int, end: int) {
    /** The block in the 1-based inclusive coordinates of the annotation. */
    function OneBasedStart(): int { start + 1 }
  }

  datatype Read = Read(queryName: string, referenceName: string, flag: bv16, nh: int, blocks: seq<Block>) {
    predicate IsUnmapped() { flag & UnmappedBit != 0 }
    predicate IsProperPair() { flag & ProperPairBit != 0 }
    predicate IsReverse() { flag & ReverseBit != 0 }
    predicate IsRead1() { flag & Read1Bit != 0 }
    predicate IsRead2() { flag & Read2Bit != 0 }
  }

  /** Only mapped, properly paired, uniquely mapped (NH == 1) reads are used. */
  predicate Passes(r: Read) {
    !(r.IsUnmapped() || !r.IsProperPair() || r.nh != 1)
  }

  datatype Strand = Plus | Minus {
    /** The annotation's spelling of a strand. */
    function Symbol(): (s: string)
      ensures s == "+" || s == "-"
    {
      if Plus? then "+" else "-"
    }

    /** The opposite strand: `"-" if strand == "+" else "+"`. */
    function Opposite(): (o: Strand)
      ensures o != this && o.Symbol() != Symbol()
    {
      if Plus? then Minus else Plus
    }
  }

  /** The strand and the antisense strand are the two symbols "+" and "-". */
  lemma StrandPair(s: Strand)
    ensures {s.Symbol(), s.Opposite().Symbol()} == {"+", "-"}
    ensures s.Opposite().Opposite() == s
  {
  }

  /** Whether the mate sequenced as read 1 aligned to the reverse strand, judged
      from one mate's flags only. */
  predicate Read1ReverseAligned(r: Read) {
    (r.IsReverse() && r.IsRead1()) || (!r.IsReverse() && r.IsRead2())
  }

  /** The fragment's strand of origin under the configured read convention. */
  function FragmentStrand(r: Read, forwardReadIsSense: bool): (s: Strand)
    ensures forwardReadIsSense ==> (s == Minus <==> Read1ReverseAligned(r))
    ensures !forwardReadIsSense ==> (s == Plus <==> Read1ReverseAligned(r))
  {
    if forwardReadIsSense then
      (if Read1ReverseAligned(r) then Minus else Plus)
    else
      (if Read1ReverseAligned(r) then Plus else Minus)
  }

  /** Flipping the read convention flips the fragment's strand. */
  lemma ToggleConventionSwapsStrand(r: Read, forwardReadIsSense: bool)
    ensures FragmentStrand(r, !forwardReadIsSense) == FragmentStrand(r, forwardReadIsSense).Opposite()
  {
  }

  /** For a proper pair (one mate is read 1, the other read 2, with opposite
      orientations) the strand does not depend on which mate arrives second. */
  lemma StrandIndependentOfMateOrder(read: Read, mate: Read, forwardReadIsSense: bool)
    requires read.IsReverse() != mate.IsReverse()
    requires read.IsRead1() != read.IsRead2()
    requires mate.IsRead1() == read.IsRead2() && mate.IsRead2() == read.IsRead1()
    ensures FragmentStrand(read, forwardReadIsSense) == FragmentStrand(mate, forwardReadIsSense)
  {
  }
}
