/** The double-count correction: introns are visited in the order of the
    annotation index, and each intron with a non-zero count rewrites the counts
    of the primary introns of the mintrons it shares without being primary. */
module DoubleCounts {
  import opened Common
  import opened Annotation
  import opened Normalization

  function Min(a: real, b: real): real {
    if a <= b then a else b
  }

  /** `counts[other] = min(counts[other] - amount, 0)` for every primary intron
      `other` of one mintron. */
  function ClampSubtract(counts: map<Intron, real>, primaries: set<Intron>, amount: real): map<Intron, real> {
    map other | other in counts.Keys + primaries ::
      if other in primaries then Min(RealCount(counts, other) - amount, 0.0) else counts[other]
  }

  /** The clamp as written: each primary intron ends at `other - amount` when
      that is negative and at zero otherwise, so never above zero; other
      entries are untouched. */
  lemma ClampSubtractValues(counts: map<Intron, real>, primaries: set<Intron>, amount: real)
    ensures forall other :: other in primaries ==>
              RealCount(ClampSubtract(counts, primaries, amount), other) <= 0.0 &&
              (RealCount(counts, other) - amount >= 0.0 ==> RealCount(ClampSubtract(counts, primaries, amount), other) == 0.0) &&
              (RealCount(counts, other) - amount < 0.0 ==> RealCount(ClampSubtract(counts, primaries, amount), other) == RealCount(counts, other) - amount)
    ensures forall other :: other !in primaries ==> RealCount(ClampSubtract(counts, primaries, amount), other) == RealCount(counts, other)
  {
  }

  /** Clamping no intron changes nothing. */
  lemma ClampNothing(counts: map<Intron, real>, amount: real)
    ensures ClampSubtract(counts, {}, amount) == counts
  {
  }

  lemma ClampOneMore(counts: map<Intron, real>, done: set<Intron>, other: Intron, amount: real)
    requires other !in done
    ensures ClampSubtract(counts, done + {other}, amount)
            == ClampSubtract(counts, done, amount)[other := Min(RealCount(ClampSubtract(counts, done, amount), other) - amount, 0.0)]
  {
    var lhs := ClampSubtract(counts, done + {other}, amount);
    var rhs := ClampSubtract(counts, done, amount)[other := Min(RealCount(ClampSubtract(counts, done, amount), other) - amount, 0.0)];
    assert lhs.Keys == rhs.Keys;
  }

  /** The mintron loop of one intron: subtract `amount` through every mintron
      (in the intron's order) of which the intron is not primary. */
  function SubtractAll(counts: map<Intron, real>, mintrons: seq<Mintron>, intron: Intron, amount: real, antisense: bool): map<Intron, real>
    decreases |mintrons|
  {
    if mintrons == [] then counts
    else
      var before := SubtractAll(counts, mintrons[..|mintrons| - 1], intron, amount, antisense);
      var m := mintrons[|mintrons| - 1];
      if intron in m.Primary(antisense) then before else ClampSubtract(before, m.Primary(antisense), amount)
  }

  /** A primary intron of a mintron shared with a non-primary intron. */
  ghost predicate Displaced(mintrons: seq<Mintron>, intron: Intron, antisense: bool, other: Intron) {
    exists k :: 0 <= k < |mintrons| && intron !in mintrons[k].Primary(antisense) && other in mintrons[k].Primary(antisense)
  }

  /** After the mintron loop of `intron`: every displaced primary intron holds a
      value at most zero, every other entry (the intron's own among them) is
      unchanged. */
  lemma {:induction false} SubtractAllEffect(counts: map<Intron, real>, mintrons: seq<Mintron>, intron: Intron, amount: real, antisense: bool)
    ensures forall other :: Displaced(mintrons, intron, antisense, other) ==>
              RealCount(SubtractAll(counts, mintrons, intron, amount, antisense), other) <= 0.0
    ensures forall other :: !Displaced(mintrons, intron, antisense, other) ==>
              RealCount(SubtractAll(counts, mintrons, intron, amount, antisense), other) == RealCount(counts, other)
    ensures RealCount(SubtractAll(counts, mintrons, intron, amount, antisense), intron) == RealCount(counts, intron)
    decreases |mintrons|
  {
    if mintrons != [] {
      var init := mintrons[..|mintrons| - 1];
      var m := mintrons[|mintrons| - 1];
      SubtractAllEffect(counts, init, intron, amount, antisense);
      var before := SubtractAll(counts, init, intron, amount, antisense);
      ClampSubtractValues(before, m.Primary(antisense), amount);
      forall other ensures Displaced(mintrons, intron, antisense, other) <==>
                           Displaced(init, intron, antisense, other) || (intron !in m.Primary(antisense) && other in m.Primary(antisense)) {
        if Displaced(init, intron, antisense, other) {
          var k :| 0 <= k < |init| && intron !in init[k].Primary(antisense) && other in init[k].Primary(antisense);
          assert mintrons[k] == init[k];
        }
        if Displaced(mintrons, intron, antisense, other) {
          var k :| 0 <= k < |mintrons| && intron !in mintrons[k].Primary(antisense) && other in mintrons[k].Primary(antisense);
          if k < |init| {
            assert init[k] == mintrons[k];
          }
        }
        if intron !in m.Primary(antisense) && other in m.Primary(antisense) {
          assert mintrons[|mintrons| - 1] == m;
        }
      }
      if intron !in m.Primary(antisense) {
        assert !Displaced(mintrons, intron, antisense, intron);
      }
    }
  }

  /** The correction for one intron, in the order the code runs it: nothing for
      an intron whose sense count is 0; otherwise the sense mintron loop, then
      the antisense mintron loop, which subtracts the intron's SENSE count read
      again from the already updated sense table. */
  function IntronCorrection(info: AnnotationInfo, n: Normalized, intron: Intron): Normalized
    requires intron in info.introns
  {
    var count := RealCount(n.sense, intron);
    if count == 0.0 then n
    else
      var sense := SubtractAll(n.sense, info.introns[intron].mintrons, intron, count, false);
      var antisenseCount := RealCount(sense, intron);
      Normalized(sense, SubtractAll(n.antisense, info.introns[intron].antisenseMintrons, intron, antisenseCount, true))
  }

  /** An intron whose current sense count is 0 changes nothing. */
  lemma ZeroCountChangesNothing(info: AnnotationInfo, n: Normalized, intron: Intron)
    requires intron in info.introns
    requires RealCount(n.sense, intron) == 0.0
    ensures IntronCorrection(info, n, intron) == n
  {
  }

  /** The correction for an intron with a non-zero sense count `c`: in the sense
      table, every primary intron of a mintron where it is not primary ends at
      most zero and nothing else changes; the antisense table receives exactly
      the antisense mintron loop with the same amount `c`. */
  lemma IntronCorrectionEffect(info: AnnotationInfo, n: Normalized, intron: Intron)
    requires intron in info.introns
    requires RealCount(n.sense, intron) != 0.0
    ensures var r := IntronCorrection(info, n, intron);
            var c := RealCount(n.sense, intron);
            && (forall other :: Displaced(info.introns[intron].mintrons, intron, false, other) ==> RealCount(r.sense, other) <= 0.0)
            && (forall other :: !Displaced(info.introns[intron].mintrons, intron, false, other) ==> RealCount(r.sense, other) == RealCount(n.sense, other))
            && r.antisense == SubtractAll(n.antisense, info.introns[intron].antisenseMintrons, intron, c, true)
  {
    SubtractAllEffect(n.sense, info.introns[intron].mintrons, intron, RealCount(n.sense, intron), false);
  }

  /** `transcripts_by_chrom` flattened into the order the correction visits introns. */
  function ContigIntrons(transcripts: seq<Transcript>): seq<Intron>
    decreases |transcripts|
  {
    if transcripts == [] then []
    else ContigIntrons(transcripts[..|transcripts| - 1]) + transcripts[|transcripts| - 1].introns
  }

  function CorrectionOrderOf(contigs: seq<seq<Transcript>>): seq<Intron>
    decreases |contigs|
  {
    if contigs == [] then []
    else CorrectionOrderOf(contigs[..|contigs| - 1]) + ContigIntrons(contigs[|contigs| - 1])
  }

  lemma ContigIntronsStep(transcripts: seq<Transcript>, t: nat)
    requires t < |transcripts|
    ensures ContigIntrons(transcripts[..t + 1]) == ContigIntrons(transcripts[..t]) + transcripts[t].introns
  {
    assert transcripts[..t + 1][..t] == transcripts[..t];
  }

  lemma CorrectionOrderStep(contigs: seq<seq<Transcript>>, c: nat)
    requires c < |contigs|
    ensures CorrectionOrderOf(contigs[..c + 1]) == CorrectionOrderOf(contigs[..c]) + ContigIntrons(contigs[c])
  {
    assert contigs[..c + 1][..c] == contigs[..c];
  }

  lemma KnownAppend(info: AnnotationInfo, xs: seq<Intron>, ys: seq<Intron>)
    requires KnownIntrons(info, xs) && KnownIntrons(info, ys)
    ensures KnownIntrons(info, xs + ys)
  {
    forall k | 0 <= k < |xs + ys| ensures (xs + ys)[k] in info.introns {
      if k < |xs| { assert (xs + ys)[k] == xs[k]; } else { assert (xs + ys)[k] == ys[k - |xs|]; }
    }
  }

  lemma {:induction false} ContigKnown(info: AnnotationInfo, c: nat, t: nat)
    requires info.Valid()
    requires c < |info.transcriptsByChrom| && t <= |info.transcriptsByChrom[c]|
    ensures KnownIntrons(info, ContigIntrons(info.transcriptsByChrom[c][..t]))
    decreases t
  {
    if t > 0 {
      ContigKnown(info, c, t - 1);
      ContigIntronsStep(info.transcriptsByChrom[c], t - 1);
      KnownAppend(info, ContigIntrons(info.transcriptsByChrom[c][..t - 1]), info.transcriptsByChrom[c][t - 1].introns);
    }
  }

  lemma {:induction false} CorrectionOrderKnown(info: AnnotationInfo, c: nat)
    requires info.Valid()
    requires c <= |info.transcriptsByChrom|
    ensures KnownIntrons(info, CorrectionOrderOf(info.transcriptsByChrom[..c]))
    decreases c
  {
    if c > 0 {
      CorrectionOrderKnown(info, c - 1);
      CorrectionOrderStep(info.transcriptsByChrom, c - 1);
      ContigKnown(info, c - 1, |info.transcriptsByChrom[c - 1]|);
      assert info.transcriptsByChrom[c - 1][..|info.transcriptsByChrom[c - 1]|] == info.transcriptsByChrom[c - 1];
      KnownAppend(info, CorrectionOrderOf(info.transcriptsByChrom[..c - 1]), ContigIntrons(info.transcriptsByChrom[c - 1]));
    }
  }

  /** Every intron the correction visits is known to the index. */
  function CorrectionOrder(info: AnnotationInfo): (r: seq<Intron>)
    requires info.Valid()
    ensures KnownIntrons(info, r)
  {
    CorrectionOrderKnown(info, |info.transcriptsByChrom|);
    assert info.transcriptsByChrom[..|info.transcriptsByChrom|] == info.transcriptsByChrom;
    CorrectionOrderOf(info.transcriptsByChrom)
  }

  /** The correction walk over a sequence of introns, in order. */
  function Correction(info: AnnotationInfo, n: Normalized, introns: seq<Intron>): Normalized
    requires KnownIntrons(info, introns)
    decreases |introns|
  {
    if introns == [] then n
    else IntronCorrection(info, Correction(info, n, introns[..|introns| - 1]), introns[|introns| - 1])
  }

  /** Correcting a longer walk is correcting its first part, then the rest. */
  lemma {:induction false} CorrectionAppend(info: AnnotationInfo, n: Normalized, xs: seq<Intron>, ys: seq<Intron>)
    requires KnownIntrons(info, xs) && KnownIntrons(info, ys)
    ensures KnownIntrons(info, xs + ys)
    ensures Correction(info, n, xs + ys) == Correction(info, Correction(info, n, xs), ys)
    decreases |ys|
  {
    KnownAppend(info, xs, ys);
    if ys == [] {
      assert xs + ys == xs;
    } else {
      var init := ys[..|ys| - 1];
      assert (xs + ys)[..|xs + ys| - 1] == xs + init;
      CorrectionAppend(info, n, xs, init);
    }
  }

  /** The mintron loop over a single mintron. */
  lemma SubtractOne(counts: map<Intron, real>, m: Mintron, intron: Intron, amount: real, antisense: bool)
    ensures SubtractAll(counts, [m], intron, amount, antisense)
            == if intron in m.Primary(antisense) then counts else ClampSubtract(counts, m.Primary(antisense), amount)
  {
    assert [m][..0] == [];
  }

  /** Two introns, each primary of a mintron the other belongs to without
      being primary. */
  function OrderExample(): (info: AnnotationInfo)
    ensures Intron("A", 1) in info.introns && Intron("B", 1) in info.introns
  {
    AnnotationInfo({}, map[], map[], map[],
      map[Intron("A", 1) := IntronInfo(1, 1, [Mintron({Intron("B", 1)}, {})], []),
          Intron("B", 1) := IntronInfo(1, 1, [Mintron({Intron("A", 1)}, {})], [])], [], map[])
  }

  /** Walking `A` first: `A` clamps `B` down by 5.0, then `B` clamps `A` to
      zero with the new (negative) count of `B`. */
  lemma OrderExampleForward()
    ensures KnownIntrons(OrderExample(), [Intron("A", 1), Intron("B", 1)])
    ensures Correction(OrderExample(), Normalized(map[Intron("A", 1) := 5.0, Intron("B", 1) := 3.0], map[]), [Intron("A", 1), Intron("B", 1)]).sense
            == map[Intron("A", 1) := 0.0, Intron("B", 1) := -2.0]
  {
    var a, b := Intron("A", 1), Intron("B", 1);
    var info := OrderExample();
    var n := Normalized(map[a := 5.0, b := 3.0], map[]);
    assert [a, b][..1] == [a] && [a][..0] == [];
    SubtractOne(n.sense, Mintron({b}, {}), a, 5.0, false);
    SubtractOne(n.antisense, Mintron({b}, {}), a, 5.0, true);
    var s1 := ClampSubtract(n.sense, {b}, 5.0);
    assert s1 == map[a := 5.0, b := -2.0] by {
      assert s1.Keys == {a, b};
    }
    var afterA := IntronCorrection(info, n, a);
    assert afterA.sense == s1;
    SubtractOne(s1, Mintron({a}, {}), b, -2.0, false);
    var s2 := ClampSubtract(s1, {a}, -2.0);
    assert s2 == map[a := 0.0, b := -2.0] by {
      assert s2.Keys == {a, b};
    }
    assert IntronCorrection(info, afterA, b).sense == s2;
    assert Correction(info, n, [a]) == afterA;
  }

  /** Walking `B` first: `B` clamps `A` to zero, and `A` then has nothing to
      subtract from `B`. */
  lemma OrderExampleBackward()
    ensures KnownIntrons(OrderExample(), [Intron("B", 1), Intron("A", 1)])
    ensures Correction(OrderExample(), Normalized(map[Intron("A", 1) := 5.0, Intron("B", 1) := 3.0], map[]), [Intron("B", 1), Intron("A", 1)]).sense
            == map[Intron("A", 1) := 0.0, Intron("B", 1) := 3.0]
  {
    var a, b := Intron("A", 1), Intron("B", 1);
    var info := OrderExample();
    var n := Normalized(map[a := 5.0, b := 3.0], map[]);
    assert [b, a][..1] == [b] && [b][..0] == [];
    SubtractOne(n.sense, Mintron({a}, {}), b, 3.0, false);
    var s3 := ClampSubtract(n.sense, {a}, 3.0);
    assert s3 == map[a := 0.0, b := 3.0] by {
      assert s3.Keys == {a, b};
    }
    var afterB := IntronCorrection(info, n, b);
    assert afterB.sense == s3;
    assert IntronCorrection(info, afterB, a) == afterB;
    assert Correction(info, n, [b]) == afterB;
  }

  /** The walk's order matters: the same two introns end differently in
      either order. */
  lemma CorrectionOrderMatters()
    ensures var a, b := Intron("A", 1), Intron("B", 1);
            var n := Normalized(map[a := 5.0, b := 3.0], map[]);
            && KnownIntrons(OrderExample(), [a, b]) && KnownIntrons(OrderExample(), [b, a])
            && Correction(OrderExample(), n, [a, b]) != Correction(OrderExample(), n, [b, a])
  {
    OrderExampleForward();
    OrderExampleBackward();
    var a := Intron("A", 1);
    var n := Normalized(map[a := 5.0, Intron("B", 1) := 3.0], map[]);
    assert Correction(OrderExample(), n, [a, Intron("B", 1)]).sense[Intron("B", 1)] == -2.0;
  }
}
