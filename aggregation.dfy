/** Transcript-level intron rates: the length-weighted mean of the corrected
    counts of a transcript's introns, leaving out the first and last. */
module Aggregation {
  import opened Common
  import opened Annotation

  /** `transcript.introns[1:-1]`: everything but the first and last intron. */
  function NonFlank(introns: seq<Intron>): (r: seq<Intron>)
    ensures |introns| <= 2 ==> r == []
    ensures |introns| > 2 ==> |r| == |introns| - 2
    ensures forall k :: 0 <= k < |r| ==> r[k] == introns[k + 1]
  {
    if |introns| <= 2 then [] else introns[1..|introns| - 1]
  }

  /** Sum of the effective lengths. */
  function TotalLength(introns: seq<Intron>, info: AnnotationInfo): nat
    requires KnownIntrons(info, introns)
    decreases |introns|
  {
    if introns == [] then 0
    else TotalLength(introns[..|introns| - 1], info) + info.introns[introns[|introns| - 1]].effectiveLength
  }

  /** Sum of `counts[intron] * intron.effective_length`. */
  function WeightedSum(introns: seq<Intron>, counts: map<Intron, real>, info: AnnotationInfo): real
    requires KnownIntrons(info, introns)
    decreases |introns|
  {
    if introns == [] then 0.0
    else
      var last := introns[|introns| - 1];
      WeightedSum(introns[..|introns| - 1], counts, info) + RealCount(counts, last) * info.introns[last].effectiveLength as real
  }

  /** The transcript-level rate: the length-weighted mean of the non-flank
      introns' counts, or 0 when their lengths sum to 0. The sense effective
      length weights both the sense and the antisense table. */
  function TranscriptRate(t: Transcript, counts: map<Intron, real>, info: AnnotationInfo): real
    requires KnownIntrons(info, t.introns)
  {
    var nonFlank := NonFlank(t.introns);
    assert KnownIntrons(info, nonFlank) by {
      forall k | 0 <= k < |nonFlank| ensures nonFlank[k] in info.introns {
        assert nonFlank[k] == t.introns[k + 1];
      }
    }
    var total := TotalLength(nonFlank, info);
    if total == 0 then 0.0 else WeightedSum(nonFlank, counts, info) / total as real
  }

  /** The transcript-level table: one rate per transcript of the index. */
  function TranscriptRates(info: AnnotationInfo, counts: map<Intron, real>): (r: map<string, real>)
    requires info.Valid()
    ensures r.Keys == info.transcripts.Keys
  {
    map id | id in info.transcripts :: TranscriptRate(info.transcripts[id], counts, info)
  }

  /** The table's entry for one transcript is that transcript's rate. */
  lemma TranscriptRateAt(info: AnnotationInfo, counts: map<Intron, real>, id: string)
    requires info.Valid() && id in info.transcripts
    ensures KnownIntrons(info, info.transcripts[id].introns)
    ensures TranscriptRates(info, counts)[id] == TranscriptRate(info.transcripts[id], counts, info)
  {
  }

  /** A transcript with at most two introns has only flank introns and a rate of 0. */
  lemma ShortTranscriptRateZero(t: Transcript, counts: map<Intron, real>, info: AnnotationInfo)
    requires KnownIntrons(info, t.introns)
    requires |t.introns| <= 2
    ensures TranscriptRate(t, counts, info) == 0.0
  {
  }

  lemma {:induction false} WeightedSumAgrees(introns: seq<Intron>, c1: map<Intron, real>, c2: map<Intron, real>, info: AnnotationInfo)
    requires KnownIntrons(info, introns)
    requires forall k :: 0 <= k < |introns| ==> RealCount(c1, introns[k]) == RealCount(c2, introns[k])
    ensures WeightedSum(introns, c1, info) == WeightedSum(introns, c2, info)
    decreases |introns|
  {
    if introns != [] {
      WeightedSumAgrees(introns[..|introns| - 1], c1, c2, info);
    }
  }

  /** The first and last intron never influence the rate: two tables that agree
      on the inner introns give the same rate. */
  lemma FlankIntronsIgnored(t: Transcript, c1: map<Intron, real>, c2: map<Intron, real>, info: AnnotationInfo)
    requires KnownIntrons(info, t.introns)
    requires forall k :: 0 < k < |t.introns| - 1 ==> RealCount(c1, t.introns[k]) == RealCount(c2, t.introns[k])
    ensures TranscriptRate(t, c1, info) == TranscriptRate(t, c2, info)
  {
    var nonFlank := NonFlank(t.introns);
    forall k | 0 <= k < |nonFlank| ensures nonFlank[k] in info.introns && RealCount(c1, nonFlank[k]) == RealCount(c2, nonFlank[k]) {
      assert nonFlank[k] == t.introns[k + 1];
    }
    WeightedSumAgrees(nonFlank, c1, c2, info);
  }

  lemma {:induction false} WeightedSumBounds(introns: seq<Intron>, counts: map<Intron, real>, info: AnnotationInfo, lo: real, hi: real)
    requires KnownIntrons(info, introns)
    requires forall k :: 0 <= k < |introns| ==> lo <= RealCount(counts, introns[k]) <= hi
    ensures lo * TotalLength(introns, info) as real <= WeightedSum(introns, counts, info) <= hi * TotalLength(introns, info) as real
    decreases |introns|
  {
    if introns != [] {
      var init := introns[..|introns| - 1];
      assert forall k :: 0 <= k < |init| ==> init[k] == introns[k];
      WeightedSumBounds(init, counts, info, lo, hi);
      WeightedSumStep(introns, counts, info, lo, hi);
    }
  }

  /** The inductive step of the bounds: the last intron's term stays within them. */
  lemma WeightedSumStep(introns: seq<Intron>, counts: map<Intron, real>, info: AnnotationInfo, lo: real, hi: real)
    requires introns != [] && KnownIntrons(info, introns)
    requires lo <= RealCount(counts, introns[|introns| - 1]) <= hi
    requires var init := introns[..|introns| - 1];
             KnownIntrons(info, init) &&
             lo * TotalLength(init, info) as real <= WeightedSum(init, counts, info) <= hi * TotalLength(init, info) as real
    ensures lo * TotalLength(introns, info) as real <= WeightedSum(introns, counts, info) <= hi * TotalLength(introns, info) as real
  {
    var init, last := introns[..|introns| - 1], introns[|introns| - 1];
    AddBounds(lo, hi, TotalLength(init, info) as real, WeightedSum(init, counts, info),
              RealCount(counts, last), info.introns[last].effectiveLength as real,
              TotalLength(introns, info) as real, WeightedSum(introns, counts, info));
  }

  /** One more intron keeps the weighted sum between the bounds. */
  lemma AddBounds(lo: real, hi: real, total0: real, w0: real, c: real, len: real, total: real, w: real)
    requires lo * total0 <= w0 <= hi * total0
    requires lo <= c <= hi && len >= 0.0
    requires total == total0 + len && w == w0 + c * len
    ensures lo * total <= w <= hi * total
  {
    assert lo * len <= c * len <= hi * len;
  }

  lemma DivideBounds(lo: real, w: real, hi: real, total: real)
    requires total > 0.0 && lo * total <= w <= hi * total
    ensures lo <= w / total <= hi
  {
    assert w / total * total == w;
  }

  /** The rate is a weighted mean: when the inner introns' lengths do not sum
      to 0, it lies between the smallest and the largest inner count. */
  lemma RateIsWeightedMean(t: Transcript, counts: map<Intron, real>, info: AnnotationInfo, lo: real, hi: real)
    requires KnownIntrons(info, t.introns)
    requires forall k :: 0 < k < |t.introns| - 1 ==> lo <= RealCount(counts, t.introns[k]) <= hi
    ensures var nonFlank := NonFlank(t.introns);
            KnownIntrons(info, nonFlank) &&
            (TotalLength(nonFlank, info) > 0 ==> lo <= TranscriptRate(t, counts, info) <= hi)
  {
    var nonFlank := NonFlank(t.introns);
    forall k | 0 <= k < |nonFlank| ensures nonFlank[k] in info.introns && lo <= RealCount(counts, nonFlank[k]) <= hi {
      assert nonFlank[k] == t.introns[k + 1];
    }
    WeightedSumBounds(nonFlank, counts, info, lo, hi);
    var total := TotalLength(nonFlank, info) as real;
    if total > 0.0 {
      DivideBounds(lo, WeightedSum(nonFlank, counts, info), hi, total);
    }
  }
}
