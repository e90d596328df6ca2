/** The intron quantification step as the object it is: the normalised intron
    tables, the transcript-level tables and the intergenic counter are fields
    that `Execute` fills in place, stage by stage. Every method is proved
    against the functions of the stage modules (`Overlap`, `Counting`,
    `Normalization`, `DoubleCounts`, `Aggregation`). */
module IntronQuant {
  import opened Common
  import opened Bins
  import opened Alignments
  import opened Annotation
  import opened Overlap
  import opened Counting
  import opened Normalization
  import opened DoubleCounts
  import opened Aggregation

  /** `for k in keys: counter[k] += 1` on a local counter. */
  method BumpEach<K>(counter: map<K, nat>, keys: set<K>) returns (r: map<K, nat>)
    ensures r == Bump(counter, keys)
  {
    r := counter;
    BumpNothing(counter);
    var left: set<K>, seen: set<K> := keys, {};
    while left != {}
      invariant left !! seen && left + seen == keys
      invariant r == Bump(counter, seen)
      decreases left
    {
      var k :| k in left;
      BumpOneMore(counter, seen, k);
      r := r[k := Count(r, k) + 1];
      left, seen := left - {k}, seen + {k};
    }
  }

  class IntronQuantificationStep {
    /** Whether the forward read is the sense strand (a step parameter). */
    const forwardReadIsSense: bool
    var intronNormalizedCounts: map<Intron, real>
    var intronNormalizedAntisenseCounts: map<Intron, real>
    var transcriptIntronCounts: map<string, real>
    var transcriptIntronAntisenseCounts: map<string, real>
    /** `intergenic_read_counts[chrom][index]`, flattened to one key. */
    var intergenicReadCounts: map<(string, nat), nat>

    /** A step with empty counters. */
    constructor(forwardReadIsSense: bool)
      ensures this.forwardReadIsSense == forwardReadIsSense
      ensures intronNormalizedCounts == map[] && intronNormalizedAntisenseCounts == map[]
      ensures transcriptIntronCounts == map[] && transcriptIntronAntisenseCounts == map[]
      ensures intergenicReadCounts == map[]
    {
      this.forwardReadIsSense := forwardReadIsSense;
      intronNormalizedCounts := map[];
      intronNormalizedAntisenseCounts := map[];
      transcriptIntronCounts := map[];
      transcriptIntronAntisenseCounts := map[];
      intergenicReadCounts := map[];
    }

    /** The whole step on one alignment stream: count, normalise, correct,
        aggregate. `ok` is false where the orientation check fails; the
        intergenic counter then keeps what was counted before it and no other
        table changes. */
    method Execute(info: AnnotationInfo, stream: seq<Read>) returns (ok: bool)
      requires info.Valid()
      modifies this
      ensures var t := CountedTally(info, forwardReadIsSense, old(intergenicReadCounts), stream);
              && ok == !t.aborted
              && intergenicReadCounts == t.intergenic
              && (!ok ==> intronNormalizedCounts == old(intronNormalizedCounts)
                          && intronNormalizedAntisenseCounts == old(intronNormalizedAntisenseCounts)
                          && transcriptIntronCounts == old(transcriptIntronCounts)
                          && transcriptIntronAntisenseCounts == old(transcriptIntronAntisenseCounts))
              && (ok ==> var n := Correction(info, NormalizeOnto(Normalized(old(intronNormalizedCounts), old(intronNormalizedAntisenseCounts)), t, info),
                                             CorrectionOrder(info));
                         && intronNormalizedCounts == n.sense
                         && intronNormalizedAntisenseCounts == n.antisense
                         && transcriptIntronCounts == old(transcriptIntronCounts) + TranscriptRates(info, n.sense)
                         && transcriptIntronAntisenseCounts == old(transcriptIntronAntisenseCounts) + TranscriptRates(info, n.antisense))
    {
      var sense, antisense;
      sense, antisense, ok := CountReads(info, stream);
      if !ok {
        return;
      }
      Normalize(info, sense, antisense);
      CorrectDoubleCounts(info);
      AggregateTranscripts(info);
    }

    /** The read loop: pairs mates through a cache keyed by query name and
        counts each annotated fragment. Returns the two raw intron counters. */
    method CountReads(info: AnnotationInfo, stream: seq<Read>) returns (sense: map<Intron, nat>, antisense: map<Intron, nat>, ok: bool)
      requires info.Valid()
      modifies this`intergenicReadCounts
      ensures var t := CountedTally(info, forwardReadIsSense, old(intergenicReadCounts), stream);
              ok == !t.aborted && sense == t.sense && antisense == t.antisense && intergenicReadCounts == t.intergenic
    {
      ghost var t0 := InitialTally(intergenicReadCounts);
      var unpaired: map<string, Read> := map[];
      sense, antisense := map[], map[];
      var i := 0;
      while i < |stream|
        invariant i <= |stream|
        invariant ScanReads(info, forwardReadIsSense, t0, stream[..i]) == Tally(unpaired, sense, antisense, intergenicReadCounts, false)
      {
        var read := stream[i];
        assert stream[..i + 1][..i] == stream[..i];
        i := i + 1;
        if read.IsUnmapped() || !read.IsProperPair() || read.nh != 1 {
          continue;
        }
        if read.queryName !in unpaired {
          unpaired := unpaired[read.queryName := read];
          continue;
        }
        var mate := unpaired[read.queryName];
        unpaired := unpaired - {read.queryName};
        if read.referenceName !in info.intergenics {
          continue;
        }
        if read.IsReverse() == mate.IsReverse() {
          AbortIsFinal(info, forwardReadIsSense, t0, stream, i);
          ok := false;
          return;
        }
        sense, antisense := CountFragment(info, read, mate, sense, antisense);
      }
      assert stream[..i] == stream;
      ok := true;
    }

    /** One fragment: the touched bins of its blocks on the three axes, then the
        sense, antisense and intergenic increments. */
    method CountFragment(info: AnnotationInfo, read: Read, mate: Read, sense: map<Intron, nat>, antisense: map<Intron, nat>)
      returns (newSense: map<Intron, nat>, newAntisense: map<Intron, nat>)
      requires info.Valid()
      modifies this`intergenicReadCounts
      ensures var t := AddFragment(info, forwardReadIsSense, Tally(map[], sense, antisense, old(intergenicReadCounts), false), read, mate);
              newSense == t.sense && newAntisense == t.antisense && intergenicReadCounts == t.intergenic
    {
      var chrom := read.referenceName;
      var strand := FragmentStrand(read, forwardReadIsSense);
      var touchedSense, touchedAntisense, touchedIntergenic := TouchedByFragment(info, chrom, strand, read.blocks + mate.blocks);
      newSense := CreditIntrons(sense, touchedSense, MintronsAt(info, (chrom, strand)), false);
      newAntisense := CreditIntrons(antisense, touchedAntisense, MintronsAt(info, (chrom, strand.Opposite())), true);
      BumpIntergenic(chrom, touchedIntergenic);
    }

    /** The block loop: each block, shifted to 1-based coordinates, adds the
        bins it touches on every axis the index has for this chromosome. */
    static method TouchedByFragment(info: AnnotationInfo, chrom: string, strand: Strand, blocks: seq<Block>)
      returns (sense: set<nat>, antisense: set<nat>, intergenic: set<nat>)
      requires info.Valid()
      ensures (sense, antisense, intergenic) == FragmentTouched(info, chrom, strand, blocks)
    {
      ValidAxes(info, chrom, strand, blocks);
      ValidAxes(info, chrom, strand.Opposite(), blocks);
      var senseAxis := Lookup(info.mintronExtentsByChrom, (chrom, strand));
      var antisenseAxis := Lookup(info.mintronExtentsByChrom, (chrom, strand.Opposite()));
      var intergenicAxis := Lookup(info.intergenicExtentsByChrom, chrom);
      sense, antisense, intergenic := {}, {}, {};
      for k := 0 to |blocks|
        invariant sense == AxisTouched(senseAxis, blocks[..k])
        invariant antisense == AxisTouched(antisenseAxis, blocks[..k])
        invariant intergenic == AxisTouched(intergenicAxis, blocks[..k])
      {
        AxisTouchedStep(senseAxis, blocks, k);
        AxisTouchedStep(antisenseAxis, blocks, k);
        AxisTouchedStep(intergenicAxis, blocks, k);
        var start := blocks[k].start + 1;
        var end := blocks[k].end;
        if senseAxis.Some? {
          sense := sense + TouchedBins(senseAxis.value.starts, senseAxis.value.ends, start, end);
        }
        if antisenseAxis.Some? {
          antisense := antisense + TouchedBins(antisenseAxis.value.starts, antisenseAxis.value.ends, start, end);
        }
        if intergenicAxis.Some? {
          intergenic := intergenic + TouchedBins(intergenicAxis.value.starts, intergenicAxis.value.ends, start, end);
        }
      }
      assert blocks[..|blocks|] == blocks;
    }

    /** `for m in touched: for intron in mintrons[m].primary: counts[intron] += 1`,
        one increment at a time. */
    static method CreditIntrons(counts: map<Intron, nat>, touched: set<nat>, mintrons: seq<Mintron>, antisense: bool)
      returns (r: map<Intron, nat>)
      requires forall m :: m in touched ==> m < |mintrons|
      ensures r == Credit(counts, touched, mintrons, antisense)
    {
      r := counts;
      CreditNothing(counts, mintrons, antisense);
      var todo, done := touched, {};
      while todo != {}
        invariant todo + done == touched && todo !! done
        invariant r == Credit(counts, done, mintrons, antisense)
        decreases todo
      {
        var m :| m in todo;
        var primaries := mintrons[m].Primary(antisense);
        r := BumpEach(r, primaries);
        CreditOneMore(counts, done, m, mintrons, antisense);
        todo, done := todo - {m}, done + {m};
      }
    }

    /** `for i in touched: intergenic_read_counts[chrom][i] += 1`. */
    method BumpIntergenic(chrom: string, touched: set<nat>)
      modifies this`intergenicReadCounts
      ensures intergenicReadCounts == Bump(old(intergenicReadCounts), IntergenicKeys(chrom, touched))
    {
      BumpNothing(intergenicReadCounts);
      assert IntergenicKeys(chrom, {}) == {};
      var left: set<nat>, seen: set<nat> := touched, {};
      while left != {}
        invariant left !! seen && left + seen == touched
        invariant intergenicReadCounts == Bump(old(intergenicReadCounts), IntergenicKeys(chrom, seen))
        decreases left
      {
        var i :| i in left;
        assert IntergenicKeys(chrom, seen + {i}) == IntergenicKeys(chrom, seen) + {(chrom, i)};
        BumpOneMore(old(intergenicReadCounts), IntergenicKeys(chrom, seen), (chrom, i));
        intergenicReadCounts := intergenicReadCounts[(chrom, i) := Count(intergenicReadCounts, (chrom, i)) + 1];
        left, seen := left - {i}, seen + {i};
      }
    }

    /** Writes the FPK of every raw sense count, and of the antisense count of
        the same intron where that is positive, over the two tables. */
    method Normalize(info: AnnotationInfo, sense: map<Intron, nat>, antisense: map<Intron, nat>)
      requires TallyInvariant(info, Tally(map[], sense, antisense, map[], false))
      modifies this`intronNormalizedCounts, this`intronNormalizedAntisenseCounts
      ensures Normalized(intronNormalizedCounts, intronNormalizedAntisenseCounts)
              == NormalizeOnto(Normalized(old(intronNormalizedCounts), old(intronNormalizedAntisenseCounts)),
                               Tally(map[], sense, antisense, map[], false), info)
    {
      ghost var senseBefore, antisenseBefore := intronNormalizedCounts, intronNormalizedAntisenseCounts;
      ghost var senseTable := NormalizedSense(sense, info);
      ghost var antisenseTable := NormalizedAntisense(sense, antisense, info);
      RestrictAll(senseBefore, senseTable, sense.Keys);
      RestrictAll(antisenseBefore, antisenseTable, sense.Keys);
      var left: set<Intron>, seen: set<Intron> := sense.Keys, {};
      while left != {}
        invariant left !! seen && left + seen == sense.Keys
        invariant intronNormalizedCounts == senseBefore + Restrict(senseTable, seen)
        invariant intronNormalizedAntisenseCounts == antisenseBefore + Restrict(antisenseTable, seen)
        decreases left
      {
        var intron :| intron in left;
        NormalizeSenseOneMore(senseBefore, sense, info, seen, intron);
        NormalizeAntisenseOneMore(antisenseBefore, sense, antisense, info, seen, intron);
        var count := sense[intron];
        intronNormalizedCounts := intronNormalizedCounts[intron := Fpk(count, info.introns[intron].effectiveLength)];
        var antisenseCount := Count(antisense, intron);
        if antisenseCount > 0 {
          intronNormalizedAntisenseCounts := intronNormalizedAntisenseCounts[intron :=
            Fpk(antisenseCount, info.introns[intron].antisenseEffectiveLength)];
        }
        left, seen := left - {intron}, seen + {intron};
      }
    }

    /** The correction walk: contig by contig, in the order of the index. */
    method CorrectDoubleCounts(info: AnnotationInfo)
      requires info.Valid()
      modifies this`intronNormalizedCounts, this`intronNormalizedAntisenseCounts
      ensures Normalized(intronNormalizedCounts, intronNormalizedAntisenseCounts)
              == Correction(info, Normalized(old(intronNormalizedCounts), old(intronNormalizedAntisenseCounts)), CorrectionOrder(info))
    {
      ghost var n0 := Normalized(intronNormalizedCounts, intronNormalizedAntisenseCounts);
      var contigs := info.transcriptsByChrom;
      for c := 0 to |contigs|
        invariant KnownIntrons(info, CorrectionOrderOf(contigs[..c]))
        invariant Normalized(intronNormalizedCounts, intronNormalizedAntisenseCounts) == Correction(info, n0, CorrectionOrderOf(contigs[..c]))
      {
        ContigKnown(info, c, |contigs[c]|);
        assert contigs[c][..|contigs[c]|] == contigs[c];
        CorrectContig(info, contigs[c]);
        CorrectionAppend(info, n0, CorrectionOrderOf(contigs[..c]), ContigIntrons(contigs[c]));
        CorrectionOrderStep(contigs, c);
      }
      assert contigs[..|contigs|] == contigs;
    }

    /** The transcript loop of one contig. */
    method CorrectContig(info: AnnotationInfo, transcripts: seq<Transcript>)
      requires KnownIntrons(info, ContigIntrons(transcripts))
      requires forall t :: 0 <= t < |transcripts| ==> KnownIntrons(info, transcripts[t].introns)
      modifies this`intronNormalizedCounts, this`intronNormalizedAntisenseCounts
      ensures Normalized(intronNormalizedCounts, intronNormalizedAntisenseCounts)
              == Correction(info, Normalized(old(intronNormalizedCounts), old(intronNormalizedAntisenseCounts)), ContigIntrons(transcripts))
    {
      ghost var n0 := Normalized(intronNormalizedCounts, intronNormalizedAntisenseCounts);
      assert transcripts[..0] == [];
      for t := 0 to |transcripts|
        invariant KnownIntrons(info, ContigIntrons(transcripts[..t]))
        invariant Normalized(intronNormalizedCounts, intronNormalizedAntisenseCounts) == Correction(info, n0, ContigIntrons(transcripts[..t]))
      {
        CorrectTranscriptIntrons(info, transcripts[t].introns);
        CorrectionAppend(info, n0, ContigIntrons(transcripts[..t]), transcripts[t].introns);
        ContigIntronsStep(transcripts, t);
      }
      assert transcripts[..|transcripts|] == transcripts;
    }

    /** The intron loop of one transcript. */
    method CorrectTranscriptIntrons(info: AnnotationInfo, introns: seq<Intron>)
      requires KnownIntrons(info, introns)
      modifies this`intronNormalizedCounts, this`intronNormalizedAntisenseCounts
      ensures Normalized(intronNormalizedCounts, intronNormalizedAntisenseCounts)
              == Correction(info, Normalized(old(intronNormalizedCounts), old(intronNormalizedAntisenseCounts)), introns)
    {
      ghost var n0 := Normalized(intronNormalizedCounts, intronNormalizedAntisenseCounts);
      for k := 0 to |introns|
        invariant KnownIntrons(info, introns[..k])
        invariant Normalized(intronNormalizedCounts, intronNormalizedAntisenseCounts) == Correction(info, n0, introns[..k])
      {
        assert introns[..k + 1][..k] == introns[..k];
        CorrectIntron(info, introns[k]);
      }
      assert introns[..|introns|] == introns;
    }

    /** The correction for one intron: its sense count is subtracted through
        its mintrons; the antisense loop subtracts the sense count as it stands
        after the sense loop. */
    method CorrectIntron(info: AnnotationInfo, intron: Intron)
      requires intron in info.introns
      modifies this`intronNormalizedCounts, this`intronNormalizedAntisenseCounts
      ensures Normalized(intronNormalizedCounts, intronNormalizedAntisenseCounts)
              == IntronCorrection(info, Normalized(old(intronNormalizedCounts), old(intronNormalizedAntisenseCounts)), intron)
    {
      var count := RealCount(intronNormalizedCounts, intron);
      if count == 0.0 {
        return;
      }
      SubtractThroughMintrons(intron, info.introns[intron].mintrons, count, false);
      var antisenseCount := RealCount(intronNormalizedCounts, intron);
      SubtractThroughMintrons(intron, info.introns[intron].antisenseMintrons, antisenseCount, true);
    }

    /** The mintron loop of one intron over the sense (`antisense == false`) or
        the antisense table. */
    method SubtractThroughMintrons(intron: Intron, mintrons: seq<Mintron>, amount: real, antisense: bool)
      modifies this`intronNormalizedCounts, this`intronNormalizedAntisenseCounts
      ensures !antisense ==> intronNormalizedCounts == SubtractAll(old(intronNormalizedCounts), mintrons, intron, amount, false)
                             && intronNormalizedAntisenseCounts == old(intronNormalizedAntisenseCounts)
      ensures antisense ==> intronNormalizedAntisenseCounts == SubtractAll(old(intronNormalizedAntisenseCounts), mintrons, intron, amount, true)
                            && intronNormalizedCounts == old(intronNormalizedCounts)
    {
      for i := 0 to |mintrons|
        invariant !antisense ==> intronNormalizedCounts == SubtractAll(old(intronNormalizedCounts), mintrons[..i], intron, amount, false)
                                 && intronNormalizedAntisenseCounts == old(intronNormalizedAntisenseCounts)
        invariant antisense ==> intronNormalizedAntisenseCounts == SubtractAll(old(intronNormalizedAntisenseCounts), mintrons[..i], intron, amount, true)
                                && intronNormalizedCounts == old(intronNormalizedCounts)
      {
        assert mintrons[..i + 1][..i] == mintrons[..i];
        var primaries := mintrons[i].Primary(antisense);
        if intron !in primaries {
          ClampPrimaries(primaries, amount, antisense);
        }
      }
      assert mintrons[..|mintrons|] == mintrons;
    }

    /** `counts[other] = min(counts[other] - amount, 0)` for each primary intron. */
    method ClampPrimaries(primaries: set<Intron>, amount: real, antisense: bool)
      modifies this`intronNormalizedCounts, this`intronNormalizedAntisenseCounts
      ensures !antisense ==> intronNormalizedCounts == ClampSubtract(old(intronNormalizedCounts), primaries, amount)
                             && intronNormalizedAntisenseCounts == old(intronNormalizedAntisenseCounts)
      ensures antisense ==> intronNormalizedAntisenseCounts == ClampSubtract(old(intronNormalizedAntisenseCounts), primaries, amount)
                            && intronNormalizedCounts == old(intronNormalizedCounts)
    {
      var left: set<Intron>, seen: set<Intron> := primaries, {};
      ClampNothing(intronNormalizedCounts, amount);
      ClampNothing(intronNormalizedAntisenseCounts, amount);
      while left != {}
        invariant left !! seen && left + seen == primaries
        invariant !antisense ==> intronNormalizedCounts == ClampSubtract(old(intronNormalizedCounts), seen, amount)
                                 && intronNormalizedAntisenseCounts == old(intronNormalizedAntisenseCounts)
        invariant antisense ==> intronNormalizedAntisenseCounts == ClampSubtract(old(intronNormalizedAntisenseCounts), seen, amount)
                                && intronNormalizedCounts == old(intronNormalizedCounts)
        decreases left
      {
        var other :| other in left;
        if antisense {
          ClampOneMore(old(intronNormalizedAntisenseCounts), seen, other, amount);
          var otherCounts := RealCount(intronNormalizedAntisenseCounts, other);
          intronNormalizedAntisenseCounts := intronNormalizedAntisenseCounts[other := Min(otherCounts - amount, 0.0)];
        } else {
          ClampOneMore(old(intronNormalizedCounts), seen, other, amount);
          var otherCounts := RealCount(intronNormalizedCounts, other);
          intronNormalizedCounts := intronNormalizedCounts[other := Min(otherCounts - amount, 0.0)];
        }
        left, seen := left - {other}, seen + {other};
      }
    }

    /** Writes the rate of every transcript of the index into the two
        transcript-level tables. */
    method AggregateTranscripts(info: AnnotationInfo)
      requires info.Valid()
      modifies this`transcriptIntronCounts, this`transcriptIntronAntisenseCounts
      ensures transcriptIntronCounts == old(transcriptIntronCounts) + TranscriptRates(info, intronNormalizedCounts)
      ensures transcriptIntronAntisenseCounts == old(transcriptIntronAntisenseCounts) + TranscriptRates(info, intronNormalizedAntisenseCounts)
    {
      ghost var senseTable := TranscriptRates(info, intronNormalizedCounts);
      ghost var antisenseTable := TranscriptRates(info, intronNormalizedAntisenseCounts);
      var sense, antisense := transcriptIntronCounts, transcriptIntronAntisenseCounts;
      RestrictAll(sense, senseTable, info.transcripts.Keys);
      RestrictAll(antisense, antisenseTable, info.transcripts.Keys);
      var left: set<string>, seen: set<string> := info.transcripts.Keys, {};
      while left != {}
        invariant left !! seen && left + seen == info.transcripts.Keys
        invariant sense == old(transcriptIntronCounts) + Restrict(senseTable, seen)
        invariant antisense == old(transcriptIntronAntisenseCounts) + Restrict(antisenseTable, seen)
        decreases left
      {
        var id :| id in left;
        TranscriptRateAt(info, intronNormalizedCounts, id);
        TranscriptRateAt(info, intronNormalizedAntisenseCounts, id);
        RestrictOneMore(old(transcriptIntronCounts), senseTable, seen, id);
        RestrictOneMore(old(transcriptIntronAntisenseCounts), antisenseTable, seen, id);
        var senseRate, antisenseRate := RatesOf(info, info.transcripts[id]);
        sense, antisense := sense[id := senseRate], antisense[id := antisenseRate];
        left, seen := left - {id}, seen + {id};
      }
      transcriptIntronCounts, transcriptIntronAntisenseCounts := sense, antisense;
    }

    /** The length-weighted mean of the non-flank introns' sense and antisense
        counts, 0 for both when their lengths sum to 0. */
    method RatesOf(info: AnnotationInfo, transcript: Transcript) returns (senseRate: real, antisenseRate: real)
      requires KnownIntrons(info, transcript.introns)
      ensures senseRate == TranscriptRate(transcript, intronNormalizedCounts, info)
      ensures antisenseRate == TranscriptRate(transcript, intronNormalizedAntisenseCounts, info)
    {
      var nonFlank := NonFlank(transcript.introns);
      assert KnownIntrons(info, nonFlank) by {
        forall k | 0 <= k < |nonFlank| ensures nonFlank[k] in info.introns {
          assert nonFlank[k] == transcript.introns[k + 1];
        }
      }
      var senseCounts, antisenseCounts, totalLength := 0.0, 0.0, 0;
      for k := 0 to |nonFlank|
        invariant KnownIntrons(info, nonFlank[..k])
        invariant senseCounts == WeightedSum(nonFlank[..k], intronNormalizedCounts, info)
        invariant antisenseCounts == WeightedSum(nonFlank[..k], intronNormalizedAntisenseCounts, info)
        invariant totalLength == TotalLength(nonFlank[..k], info)
      {
        assert nonFlank[..k + 1][..k] == nonFlank[..k];
        var intron := nonFlank[k];
        var length := info.introns[intron].effectiveLength;
        senseCounts := senseCounts + RealCount(intronNormalizedCounts, intron) * length as real;
        antisenseCounts := antisenseCounts + RealCount(intronNormalizedAntisenseCounts, intron) * length as real;
        totalLength := totalLength + length;
      }
      assert nonFlank[..|nonFlank|] == nonFlank;
      if totalLength == 0 {
        senseRate, antisenseRate := 0.0, 0.0;
      } else {
        senseRate, antisenseRate := senseCounts / totalLength as real, antisenseCounts / totalLength as real;
      }
    }
  }
}
