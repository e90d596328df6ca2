/** Fragments per kilobase: the raw intron counts divided by the effective
    length and multiplied by 1000, over exact reals. */
module Normalization {
  import opened Common
  import opened Annotation
  import opened Counting

  /** The two normalised tables the correction rewrites. */
  datatype Normalized = Normalized(sense: map<Intron, real>, antisense: map<Intron, real>)

  /** Fragments per kilobase: `count / length * 1000`. */
  function Fpk(count: nat, length: nat): real
    requires length > 0
  {
    count as real / length as real * 1000.0
  }

  /** The sense FPK table: one entry per intron with a raw sense count. */
  function NormalizedSense(raw: map<Intron, nat>, info: AnnotationInfo): map<Intron, real>
    requires KnownCounter(info, raw, false)
  {
    map intron | intron in raw :: Fpk(raw[intron], info.introns[intron].effectiveLength)
  }

  /** The antisense FPK table: written only while visiting introns with a sense
      count, and only where the antisense count is positive. */
  function NormalizedAntisense(raw: map<Intron, nat>, antisenseRaw: map<Intron, nat>, info: AnnotationInfo): map<Intron, real>
    requires KnownCounter(info, antisenseRaw, true)
  {
    map intron | intron in raw && Count(antisenseRaw, intron) > 0 ::
      Fpk(Count(antisenseRaw, intron), info.introns[intron].antisenseEffectiveLength)
  }

  /** The two tables after normalisation writes its entries over `n`. */
  function NormalizeOnto(n: Normalized, t: Tally, info: AnnotationInfo): Normalized
    requires TallyInvariant(info, t)
  {
    Normalized(n.sense + NormalizedSense(t.sense, info), n.antisense + NormalizedAntisense(t.sense, t.antisense, info))
  }

  /** Normalising one more intron writes its sense FPK over the table. */
  lemma NormalizeSenseOneMore(o: map<Intron, real>, raw: map<Intron, nat>, info: AnnotationInfo, seen: set<Intron>, intron: Intron)
    requires KnownCounter(info, raw, false)
    requires intron in raw
    ensures o + Restrict(NormalizedSense(raw, info), seen + {intron})
            == (o + Restrict(NormalizedSense(raw, info), seen))[intron := Fpk(raw[intron], info.introns[intron].effectiveLength)]
  {
    RestrictOneMore(o, NormalizedSense(raw, info), seen, intron);
  }

  /** ... and its antisense FPK only where its antisense count is positive. */
  lemma NormalizeAntisenseOneMore(o: map<Intron, real>, raw: map<Intron, nat>, antisenseRaw: map<Intron, nat>, info: AnnotationInfo,
                                  seen: set<Intron>, intron: Intron)
    requires KnownCounter(info, antisenseRaw, true)
    requires intron in raw
    ensures Count(antisenseRaw, intron) > 0 ==>
              o + Restrict(NormalizedAntisense(raw, antisenseRaw, info), seen + {intron})
              == (o + Restrict(NormalizedAntisense(raw, antisenseRaw, info), seen))[intron :=
                    Fpk(Count(antisenseRaw, intron), info.introns[intron].antisenseEffectiveLength)]
    ensures Count(antisenseRaw, intron) == 0 ==>
              o + Restrict(NormalizedAntisense(raw, antisenseRaw, info), seen + {intron})
              == o + Restrict(NormalizedAntisense(raw, antisenseRaw, info), seen)
  {
    RestrictOneMore(o, NormalizedAntisense(raw, antisenseRaw, info), seen, intron);
  }

  /** Sense entries exist exactly where the raw sense count is positive, the
      values are positive, and multiplying back by the length recovers the raw
      count. */
  lemma NormalizedSenseEntries(raw: map<Intron, nat>, info: AnnotationInfo)
    requires KnownCounter(info, raw, false)
    ensures forall intron :: intron in NormalizedSense(raw, info) <==> Count(raw, intron) > 0
    ensures forall intron :: intron in NormalizedSense(raw, info) ==>
              NormalizedSense(raw, info)[intron] > 0.0 &&
              NormalizedSense(raw, info)[intron] * info.introns[intron].effectiveLength as real == raw[intron] as real * 1000.0
  {
    forall intron | intron in raw
      ensures Fpk(raw[intron], info.introns[intron].effectiveLength) > 0.0
      ensures Fpk(raw[intron], info.introns[intron].effectiveLength) * info.introns[intron].effectiveLength as real
              == raw[intron] as real * 1000.0
    {
      FpkInverse(raw[intron], info.introns[intron].effectiveLength);
    }
  }

  /** Antisense entries exist exactly where both raw counts are positive, and
      multiplying back by the antisense length recovers the antisense count. */
  lemma NormalizedAntisenseEntries(raw: map<Intron, nat>, antisenseRaw: map<Intron, nat>, info: AnnotationInfo)
    requires KnownCounter(info, raw, false)
    requires KnownCounter(info, antisenseRaw, true)
    ensures forall intron :: intron in NormalizedAntisense(raw, antisenseRaw, info) <==> Count(raw, intron) > 0 && Count(antisenseRaw, intron) > 0
    ensures forall intron :: intron in NormalizedAntisense(raw, antisenseRaw, info) ==>
              NormalizedAntisense(raw, antisenseRaw, info)[intron] > 0.0 &&
              NormalizedAntisense(raw, antisenseRaw, info)[intron] * info.introns[intron].antisenseEffectiveLength as real
                == Count(antisenseRaw, intron) as real * 1000.0
  {
    forall intron | intron in raw && Count(antisenseRaw, intron) > 0
      ensures Fpk(Count(antisenseRaw, intron), info.introns[intron].antisenseEffectiveLength) > 0.0
      ensures Fpk(Count(antisenseRaw, intron), info.introns[intron].antisenseEffectiveLength) * info.introns[intron].antisenseEffectiveLength as real
              == Count(antisenseRaw, intron) as real * 1000.0
    {
      FpkInverse(Count(antisenseRaw, intron), info.introns[intron].antisenseEffectiveLength);
    }
  }

  lemma FpkInverse(count: nat, length: nat)
    requires length > 0
    ensures Fpk(count, length) * length as real == count as real * 1000.0
    ensures count > 0 ==> Fpk(count, length) > 0.0
  {
    var c, l := count as real, length as real;
    assert c / l * 1000.0 * l == c * 1000.0;
  }
}
