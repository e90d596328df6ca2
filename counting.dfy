/** The raw counting stage of the quantification step as functions over
    values: what one fragment adds to the sense, antisense and intergenic
    counters, how the read stream is filtered and paired through the mate
    cache, and what holds of the counters throughout the stream. */
module Counting {
  import opened Common
  import opened Bins
  import opened Alignments
  import opened Annotation
  import opened Overlap

  /** The touched mintrons of which `intron` is a primary intron. */
  function HitSet(touched: set<nat>, mintrons: seq<Mintron>, antisense: bool, intron: Intron): set<nat>
    requires forall m :: m in touched ==> m < |mintrons|
  {
    set m | m in touched && intron in mintrons[m].Primary(antisense)
  }

  /** Every intron that is primary for some touched mintron. */
  function Credited(touched: set<nat>, mintrons: seq<Mintron>, antisense: bool): set<Intron>
    requires forall m :: m in touched ==> m < |mintrons|
  {
    set m, intron | m in touched && intron in mintrons[m].Primary(antisense) :: intron
  }

  /** `for m in touched: for intron in mintrons[m].primary: counts[intron] += 1`. */
  function Credit(counts: map<Intron, nat>, touched: set<nat>, mintrons: seq<Mintron>, antisense: bool): map<Intron, nat>
    requires forall m :: m in touched ==> m < |mintrons|
  {
    map intron | intron in counts.Keys + Credited(touched, mintrons, antisense) ::
      Count(counts, intron) + |HitSet(touched, mintrons, antisense, intron)|
  }

  /** An intron is credited exactly when some touched mintron lists it. */
  lemma CreditedIffHit(touched: set<nat>, mintrons: seq<Mintron>, antisense: bool, intron: Intron)
    requires forall m :: m in touched ==> m < |mintrons|
    ensures intron in Credited(touched, mintrons, antisense) <==> HitSet(touched, mintrons, antisense, intron) != {}
  {
    if intron in Credited(touched, mintrons, antisense) {
      var m :| m in touched && intron in mintrons[m].Primary(antisense);
      assert m in HitSet(touched, mintrons, antisense, intron);
    }
    if HitSet(touched, mintrons, antisense, intron) != {} {
      var m :| m in HitSet(touched, mintrons, antisense, intron);
      assert intron in mintrons[m].Primary(antisense);
    }
  }

  /** A fragment adds to each intron one count per touched mintron of which it
      is a primary intron, and no intron gains a key without gaining a count. */
  lemma CreditCounts(counts: map<Intron, nat>, touched: set<nat>, mintrons: seq<Mintron>, antisense: bool)
    requires forall m :: m in touched ==> m < |mintrons|
    ensures forall intron :: Count(Credit(counts, touched, mintrons, antisense), intron)
                             == Count(counts, intron) + |HitSet(touched, mintrons, antisense, intron)|
    ensures PositiveCounter(counts) ==> PositiveCounter(Credit(counts, touched, mintrons, antisense))
  {
    forall intron {
      CreditedIffHit(touched, mintrons, antisense, intron);
    }
  }

  lemma HitSetOneMore(touched: set<nat>, m: nat, mintrons: seq<Mintron>, antisense: bool, intron: Intron)
    requires forall j :: j in touched ==> j < |mintrons|
    requires m < |mintrons| && m !in touched
    ensures |HitSet(touched + {m}, mintrons, antisense, intron)|
            == |HitSet(touched, mintrons, antisense, intron)| + (if intron in mintrons[m].Primary(antisense) then 1 else 0)
  {
    var a := HitSet(touched, mintrons, antisense, intron);
    var b := HitSet(touched + {m}, mintrons, antisense, intron);
    if intron in mintrons[m].Primary(antisense) {
      assert b == a + {m};
    } else {
      assert b == a;
    }
  }

  /** Crediting one more touched mintron is one more `+= 1` for each of its
      primary introns. */
  lemma CreditOneMore(counts: map<Intron, nat>, touched: set<nat>, m: nat, mintrons: seq<Mintron>, antisense: bool)
    requires forall j :: j in touched ==> j < |mintrons|
    requires m < |mintrons| && m !in touched
    ensures Credit(counts, touched + {m}, mintrons, antisense)
            == Bump(Credit(counts, touched, mintrons, antisense), mintrons[m].Primary(antisense))
  {
    var lhs := Credit(counts, touched + {m}, mintrons, antisense);
    var rhs := Bump(Credit(counts, touched, mintrons, antisense), mintrons[m].Primary(antisense));
    forall intron ensures (intron in lhs <==> intron in rhs) && (intron in lhs ==> lhs[intron] == rhs[intron]) {
      CreditOneMoreAt(counts, touched, m, mintrons, antisense, intron);
    }
    assert lhs.Keys == rhs.Keys;
  }

  /** `CreditOneMore` for a single intron. */
  lemma CreditOneMoreAt(counts: map<Intron, nat>, touched: set<nat>, m: nat, mintrons: seq<Mintron>, antisense: bool, intron: Intron)
    requires forall j :: j in touched ==> j < |mintrons|
    requires m < |mintrons| && m !in touched
    ensures var lhs := Credit(counts, touched + {m}, mintrons, antisense);
            var rhs := Bump(Credit(counts, touched, mintrons, antisense), mintrons[m].Primary(antisense));
            (intron in lhs <==> intron in rhs) && (intron in lhs ==> lhs[intron] == rhs[intron])
  {
    CreditedIffHit(touched + {m}, mintrons, antisense, intron);
    CreditedIffHit(touched, mintrons, antisense, intron);
    HitSetOneMore(touched, m, mintrons, antisense, intron);
  }

  /** A fragment that touches nothing leaves a counter as it was. */
  lemma CreditNothing(counts: map<Intron, nat>, mintrons: seq<Mintron>, antisense: bool)
    ensures Credit(counts, {}, mintrons, antisense) == counts
  {
    assert Credited({}, mintrons, antisense) == {};
  }

  /** The pairing cache, the two raw intron counters (locals of the step), the
      intergenic counter (a field of the step, keyed by chromosome and bin
      index) and whether the orientation check has failed. */
  datatype Tally = Tally(
    unpaired: map<string, Read>,
    sense: map<Intron, nat>,
    antisense: map<Intron, nat>,
    intergenic: map<(string, nat), nat>,
    aborted: bool)

  /** The counters before the first read; the intergenic counter persists on the
      step object. */
  function InitialTally(intergenic: map<(string, nat), nat>): Tally {
    Tally(map[], map[], map[], intergenic, false)
  }

  function SenseAxis(info: AnnotationInfo, chrom: string, strand: Strand): Option<Extents> {
    Lookup(info.mintronExtentsByChrom, (chrom, strand))
  }

  function IntergenicAxis(info: AnnotationInfo, chrom: string): Option<Extents> {
    Lookup(info.intergenicExtentsByChrom, chrom)
  }

  /** `mintrons_by_chrom[chrom, strand]`, empty where absent (it is only read
      when the axis touched something, and then it is present). */
  function MintronsAt(info: AnnotationInfo, key: (string, Strand)): seq<Mintron> {
    if key in info.mintronsByChrom then info.mintronsByChrom[key] else []
  }

  lemma ValidAxes(info: AnnotationInfo, chrom: string, strand: Strand, blocks: seq<Block>)
    requires info.Valid()
    ensures SearchableAxis(SenseAxis(info, chrom, strand)) && SearchableAxis(IntergenicAxis(info, chrom))
    ensures forall m :: m in AxisTouched(SenseAxis(info, chrom, strand), blocks) ==> m < |MintronsAt(info, (chrom, strand))|
  {
  }

  /** The bins the fragment `read` + `mate` touches on the three axes. */
  function FragmentTouched(info: AnnotationInfo, chrom: string, strand: Strand, blocks: seq<Block>): (r: (set<nat>, set<nat>, set<nat>))
    requires info.Valid()
    ensures forall m :: m in r.0 ==> m < |MintronsAt(info, (chrom, strand))|
    ensures forall m :: m in r.1 ==> m < |MintronsAt(info, (chrom, strand.Opposite()))|
  {
    ValidAxes(info, chrom, strand, blocks);
    ValidAxes(info, chrom, strand.Opposite(), blocks);
    (AxisTouched(SenseAxis(info, chrom, strand), blocks),
     AxisTouched(SenseAxis(info, chrom, strand.Opposite()), blocks),
     AxisTouched(IntergenicAxis(info, chrom), blocks))
  }

  /** The intergenic keys of the touched bins of one chromosome. */
  function IntergenicKeys(chrom: string, touched: set<nat>): set<(string, nat)> {
    set i | i in touched :: (chrom, i)
  }

  /** What one fragment adds: sense counts to the primary introns of the
      touched sense mintrons, antisense counts to the antisense-primary introns
      of the touched mintrons of the opposite strand, and one count to each
      touched intergenic bin. */
  function AddFragment(info: AnnotationInfo, forwardReadIsSense: bool, t: Tally, read: Read, mate: Read): Tally
    requires info.Valid()
  {
    var chrom := read.referenceName;
    var strand := FragmentStrand(read, forwardReadIsSense);
    var touched := FragmentTouched(info, chrom, strand, read.blocks + mate.blocks);
    t.(sense := Credit(t.sense, touched.0, MintronsAt(info, (chrom, strand)), false),
       antisense := Credit(t.antisense, touched.1, MintronsAt(info, (chrom, strand.Opposite())), true),
       intergenic := Bump(t.intergenic, IntergenicKeys(chrom, touched.2)))
  }

  /** One read of the stream: filter, cache the first mate, or pair with the
      cached mate, skip unannotated chromosomes, check orientation and count. */
  function StepRead(info: AnnotationInfo, forwardReadIsSense: bool, t: Tally, read: Read): Tally
    requires info.Valid()
  {
    if t.aborted || !Passes(read) then t
    else if read.queryName !in t.unpaired then t.(unpaired := t.unpaired[read.queryName := read])
    else
      var mate := t.unpaired[read.queryName];
      var released := t.(unpaired := t.unpaired - {read.queryName});
      if read.referenceName !in info.intergenics then released
      else if read.IsReverse() == mate.IsReverse() then released.(aborted := true)
      else AddFragment(info, forwardReadIsSense, released, read, mate)
  }

  /** The whole read stream, in order. */
  function ScanReads(info: AnnotationInfo, forwardReadIsSense: bool, t: Tally, stream: seq<Read>): Tally
    requires info.Valid()
    decreases |stream|
  {
    if stream == [] then t
    else StepRead(info, forwardReadIsSense, ScanReads(info, forwardReadIsSense, t, stream[..|stream| - 1]), stream[|stream| - 1])
  }

  /** Filtered reads (unmapped, not a proper pair, NH != 1) change nothing and
      never enter the cache. */
  lemma FilteredReadIgnored(info: AnnotationInfo, forwardReadIsSense: bool, t: Tally, read: Read)
    requires info.Valid()
    requires !Passes(read)
    ensures StepRead(info, forwardReadIsSense, t, read) == t
  {
  }

  /** The first mate of a name is cached and counts nothing. */
  lemma FirstMateCached(info: AnnotationInfo, forwardReadIsSense: bool, t: Tally, read: Read)
    requires info.Valid()
    requires !t.aborted && Passes(read) && read.queryName !in t.unpaired
    ensures StepRead(info, forwardReadIsSense, t, read) == t.(unpaired := t.unpaired[read.queryName := read])
  {
  }

  /** The second mate takes its partner out of the cache; every other cached
      read stays. */
  lemma SecondMateReleasesCache(info: AnnotationInfo, forwardReadIsSense: bool, t: Tally, read: Read)
    requires info.Valid()
    requires !t.aborted && Passes(read) && read.queryName in t.unpaired
    ensures StepRead(info, forwardReadIsSense, t, read).unpaired == t.unpaired - {read.queryName}
  {
  }

  /** A fragment on a chromosome with no intergenic annotation changes no count. */
  lemma UnannotatedChromosomeCountsNothing(info: AnnotationInfo, forwardReadIsSense: bool, t: Tally, read: Read)
    requires info.Valid()
    requires !t.aborted && Passes(read) && read.queryName in t.unpaired
    requires read.referenceName !in info.intergenics
    ensures var r := StepRead(info, forwardReadIsSense, t, read);
            r.sense == t.sense && r.antisense == t.antisense && r.intergenic == t.intergenic && !r.aborted
  {
  }

  /** Two mates with the same orientation stop the run. */
  lemma SameOrientationAborts(info: AnnotationInfo, forwardReadIsSense: bool, t: Tally, read: Read)
    requires info.Valid()
    requires !t.aborted && Passes(read) && read.queryName in t.unpaired
    requires read.referenceName in info.intergenics
    requires read.IsReverse() == t.unpaired[read.queryName].IsReverse()
    ensures StepRead(info, forwardReadIsSense, t, read).aborted
  {
  }

  /** Absent axes contribute no counts: without mintrons on either strand and
      without intergenic bins, a fragment leaves every counter unchanged. */
  lemma AbsentAxesCountNothing(info: AnnotationInfo, forwardReadIsSense: bool, t: Tally, read: Read, mate: Read)
    requires info.Valid()
    requires (read.referenceName, Plus) !in info.mintronExtentsByChrom
    requires (read.referenceName, Minus) !in info.mintronExtentsByChrom
    requires read.referenceName !in info.intergenicExtentsByChrom
    ensures AddFragment(info, forwardReadIsSense, t, read, mate) == t
  {
    var strand := FragmentStrand(read, forwardReadIsSense);
    CreditNothing(t.sense, MintronsAt(info, (read.referenceName, strand)), false);
    CreditNothing(t.antisense, MintronsAt(info, (read.referenceName, strand.Opposite())), true);
    assert IntergenicKeys(read.referenceName, {}) == {};
  }

  /** A fragment adds exactly one to each intergenic bin that one of its
      blocks overlaps (however many do), and nothing elsewhere. */
  lemma FragmentIntergenicCounts(info: AnnotationInfo, forwardReadIsSense: bool, t: Tally, read: Read, mate: Read)
    requires info.Valid() && info.WellFormedAxes()
    requires NonEmptyBlocks(read.blocks + mate.blocks)
    requires read.referenceName in info.intergenicExtentsByChrom
    ensures var e := info.intergenicExtentsByChrom[read.referenceName];
            var r := AddFragment(info, forwardReadIsSense, t, read, mate);
            && |e.starts| == |e.ends|
            && (forall i: nat :: Count(r.intergenic, (read.referenceName, i))
                  == Count(t.intergenic, (read.referenceName, i)) + (if i in OverlappingBins(e, read.blocks + mate.blocks) then 1 else 0))
            && (forall c, i :: c != read.referenceName ==> Count(r.intergenic, (c, i)) == Count(t.intergenic, (c, i)))
  {
    var e := info.intergenicExtentsByChrom[read.referenceName];
    AxisTouchedExact(e, read.blocks + mate.blocks);
  }

  /** A fragment adds to each intron one sense count per sense mintron that
      lists it as primary and that one of the blocks overlaps. */
  lemma FragmentSenseCounts(info: AnnotationInfo, forwardReadIsSense: bool, t: Tally, read: Read, mate: Read)
    requires info.Valid() && info.WellFormedAxes()
    requires NonEmptyBlocks(read.blocks + mate.blocks)
    requires (read.referenceName, FragmentStrand(read, forwardReadIsSense)) in info.mintronExtentsByChrom
    ensures var key := (read.referenceName, FragmentStrand(read, forwardReadIsSense));
            var e := info.mintronExtentsByChrom[key];
            var r := AddFragment(info, forwardReadIsSense, t, read, mate);
            && |e.starts| == |e.ends| == |MintronsAt(info, key)|
            && forall intron :: Count(r.sense, intron)
                 == Count(t.sense, intron) + |HitSet(OverlappingBins(e, read.blocks + mate.blocks), MintronsAt(info, key), false, intron)|
  {
    var key := (read.referenceName, FragmentStrand(read, forwardReadIsSense));
    var e := info.mintronExtentsByChrom[key];
    AxisTouchedExact(e, read.blocks + mate.blocks);
    var touched := FragmentTouched(info, key.0, key.1, read.blocks + mate.blocks);
    CreditCounts(t.sense, touched.0, MintronsAt(info, key), false);
  }

  /** Antisense counts come from the mintrons of the opposite strand and go to
      their antisense-primary introns. */
  lemma FragmentAntisenseCounts(info: AnnotationInfo, forwardReadIsSense: bool, t: Tally, read: Read, mate: Read)
    requires info.Valid() && info.WellFormedAxes()
    requires NonEmptyBlocks(read.blocks + mate.blocks)
    requires (read.referenceName, FragmentStrand(read, forwardReadIsSense).Opposite()) in info.mintronExtentsByChrom
    ensures var key := (read.referenceName, FragmentStrand(read, forwardReadIsSense).Opposite());
            var e := info.mintronExtentsByChrom[key];
            var r := AddFragment(info, forwardReadIsSense, t, read, mate);
            && |e.starts| == |e.ends| == |MintronsAt(info, key)|
            && forall intron :: Count(r.antisense, intron)
                 == Count(t.antisense, intron) + |HitSet(OverlappingBins(e, read.blocks + mate.blocks), MintronsAt(info, key), true, intron)|
  {
    var strand := FragmentStrand(read, forwardReadIsSense);
    var key := (read.referenceName, strand.Opposite());
    var e := info.mintronExtentsByChrom[key];
    AxisTouchedExact(e, read.blocks + mate.blocks);
    var touched := FragmentTouched(info, read.referenceName, strand, read.blocks + mate.blocks);
    CreditCounts(t.antisense, touched.1, MintronsAt(info, key), true);
  }

  /** What holds of the tally throughout the stream: cached reads passed the
      filter and are keyed by their own name; raw counters hold only positive
      counts, for introns whose length the normalisation may divide by. */
  ghost predicate TallyInvariant(info: AnnotationInfo, t: Tally) {
    && (forall q :: q in t.unpaired ==> Passes(t.unpaired[q]) && t.unpaired[q].queryName == q)
    && KnownCounter(info, t.sense, false)
    && KnownCounter(info, t.antisense, true)
  }

  /** A raw counter whose every entry is positive and belongs to a known intron
      with a non-zero effective length of the table's kind. */
  ghost predicate KnownCounter(info: AnnotationInfo, counts: map<Intron, nat>, antisense: bool) {
    forall intron :: intron in counts ==>
      counts[intron] > 0 && intron in info.introns && info.introns[intron].Length(antisense) > 0
  }

  /** Crediting the primary introns of indexed mintrons keeps a counter known. */
  lemma CreditKeepsKnown(info: AnnotationInfo, key: (string, Strand), counts: map<Intron, nat>, touched: set<nat>, antisense: bool)
    requires info.Valid() && KnownCounter(info, counts, antisense)
    requires forall m :: m in touched ==> m < |MintronsAt(info, key)|
    ensures KnownCounter(info, Credit(counts, touched, MintronsAt(info, key), antisense), antisense)
  {
    var r := Credit(counts, touched, MintronsAt(info, key), antisense);
    CreditCounts(counts, touched, MintronsAt(info, key), antisense);
    forall intron | intron in r && intron !in counts
      ensures intron in info.introns && info.introns[intron].Length(antisense) > 0
    {
      var m :| m in touched && intron in MintronsAt(info, key)[m].Primary(antisense);
      assert key in info.mintronsByChrom;
      assert intron in info.mintronsByChrom[key][m].Primary(antisense);
    }
    assert PositiveCounter(counts);
  }

  /** Counting a fragment keeps the raw counters known. */
  lemma AddFragmentKeepsInvariant(info: AnnotationInfo, forwardReadIsSense: bool, t: Tally, read: Read, mate: Read)
    requires info.Valid() && TallyInvariant(info, t)
    ensures TallyInvariant(info, AddFragment(info, forwardReadIsSense, t, read, mate))
  {
    var chrom := read.referenceName;
    var strand := FragmentStrand(read, forwardReadIsSense);
    var touched := FragmentTouched(info, chrom, strand, read.blocks + mate.blocks);
    CreditKeepsKnown(info, (chrom, strand), t.sense, touched.0, false);
    CreditKeepsKnown(info, (chrom, strand.Opposite()), t.antisense, touched.1, true);
  }

  lemma StepKeepsInvariant(info: AnnotationInfo, forwardReadIsSense: bool, t: Tally, read: Read)
    requires info.Valid() && TallyInvariant(info, t)
    ensures TallyInvariant(info, StepRead(info, forwardReadIsSense, t, read))
  {
    if !t.aborted && Passes(read) && read.queryName in t.unpaired {
      var mate := t.unpaired[read.queryName];
      var released := t.(unpaired := t.unpaired - {read.queryName});
      assert TallyInvariant(info, released);
      if read.referenceName in info.intergenics && read.IsReverse() != mate.IsReverse() {
        AddFragmentKeepsInvariant(info, forwardReadIsSense, released, read, mate);
      }
    }
  }

  /** The stream keeps the tally invariant, read after read. */
  lemma {:induction false} ScanKeepsInvariant(info: AnnotationInfo, forwardReadIsSense: bool, t: Tally, stream: seq<Read>)
    requires info.Valid() && TallyInvariant(info, t)
    ensures TallyInvariant(info, ScanReads(info, forwardReadIsSense, t, stream))
    decreases |stream|
  {
    if stream != [] {
      ScanKeepsInvariant(info, forwardReadIsSense, t, stream[..|stream| - 1]);
      StepKeepsInvariant(info, forwardReadIsSense, ScanReads(info, forwardReadIsSense, t, stream[..|stream| - 1]), stream[|stream| - 1]);
    }
  }

  /** Once the orientation check has failed, later reads change nothing. */
  lemma {:induction false} AbortIsFinal(info: AnnotationInfo, forwardReadIsSense: bool, t: Tally, stream: seq<Read>, i: nat)
    requires info.Valid()
    requires i <= |stream|
    requires ScanReads(info, forwardReadIsSense, t, stream[..i]).aborted
    ensures ScanReads(info, forwardReadIsSense, t, stream) == ScanReads(info, forwardReadIsSense, t, stream[..i])
    decreases |stream|
  {
    if |stream| > i {
      var init := stream[..|stream| - 1];
      assert init[..i] == stream[..i];
      AbortIsFinal(info, forwardReadIsSense, t, init, i);
    } else {
      assert stream[..i] == stream;
    }
  }

  /** The tally after the whole stream, from the step's intergenic counter. */
  function CountedTally(info: AnnotationInfo, forwardReadIsSense: bool, intergenic: map<(string, nat), nat>, stream: seq<Read>): (t: Tally)
    requires info.Valid()
    ensures TallyInvariant(info, t)
  {
    ScanKeepsInvariant(info, forwardReadIsSense, InitialTally(intergenic), stream);
    ScanReads(info, forwardReadIsSense, InitialTally(intergenic), stream)
  }
}
