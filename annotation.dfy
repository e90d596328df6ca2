/** The annotation index the quantification step consults. It is built
    elsewhere (from the gene-info file and the chromosome lengths) and is taken
    here as an input: per-axis sorted bin boundaries, the mintrons with their
    primary-intron sets, per-intron attributes, and the transcripts in the
    order the index lists them. */
module Annotation {
  import opened Bins
  import opened Alignments

  /** An intron is identified by its transcript and its position in it. */
  datatype Intron = Intron(transcriptId: string, number: nat)

  /** A merged intron bin with the introns that receive its sense and its
      antisense counts. */
  datatype Mintron = Mintron(primaryIntrons: set<Intron>, primaryAntisenseIntrons: set<Intron>) {
    /** The primary set used by the sense (false) or antisense (true) table. */
    function Primary(antisense: bool): set<Intron> {
      if antisense then primaryAntisenseIntrons else primaryIntrons
    }
  }

  /** The `(starts, ends)` pair of one axis. */
  datatype Extents = Extents(starts: seq<int>, ends: seq<int>)

  /** The attributes of an intron object that the step reads. */
  datatype IntronInfo = IntronInfo(
    effectiveLength: nat,
    antisenseEffectiveLength: nat,
    mintrons: seq<Mintron>,
    antisenseMintrons: seq<Mintron>)
  {
    /** The effective length of the sense (false) or antisense (true) table. */
    function Length(antisense: bool): nat {
      if antisense then antisenseEffectiveLength else effectiveLength
    }
  }

  datatype Transcript = Transcript(introns: seq<Intron>)

  datatype AnnotationInfo = AnnotationInfo(
    /** The chromosomes that have an entry in `info.intergenics`. */
    intergenics: set<string>,
    mintronExtentsByChrom: map<(string, Strand), Extents>,
    mintronsByChrom: map<(string, Strand), seq<Mintron>>,
    intergenicExtentsByChrom: map<string, Extents>,
    introns: map<Intron, IntronInfo>,
    /** `transcripts_by_chrom.items()` in iteration order, chromosome names dropped. */
    transcriptsByChrom: seq<seq<Transcript>>,
    transcripts: map<string, Transcript>)
  {
    /** What the index guarantees and the step relies on: searchable axes, a
        mintron for every sense bin index, known introns with non-zero lengths
        wherever a division by that length can happen. */
    ghost predicate Valid() {
      && (forall key :: key in mintronExtentsByChrom ==>
            && SearchableBins(mintronExtentsByChrom[key].starts, mintronExtentsByChrom[key].ends)
            && key in mintronsByChrom
            && |mintronsByChrom[key]| == |mintronExtentsByChrom[key].starts|)
      && (forall chrom :: chrom in intergenicExtentsByChrom ==>
            SearchableBins(intergenicExtentsByChrom[chrom].starts, intergenicExtentsByChrom[chrom].ends))
      && (forall key, i, intron, antisense: bool ::
            (key in mintronsByChrom && 0 <= i < |mintronsByChrom[key]| && intron in mintronsByChrom[key][i].Primary(antisense)) ==>
            intron in introns && introns[intron].Length(antisense) > 0)
      && (forall c, t, k :: 0 <= c < |transcriptsByChrom| && 0 <= t < |transcriptsByChrom[c]| && 0 <= k < |transcriptsByChrom[c][t].introns| ==>
            transcriptsByChrom[c][t].introns[k] in introns)
      && (forall id, k :: id in transcripts && 0 <= k < |transcripts[id].introns| ==> transcripts[id].introns[k] in introns)
    }

    /** The stronger shape of every axis (non-empty bins, each ending before
        the next starts) under which the search is exact. */
    ghost predicate WellFormedAxes() {
      && (forall key :: key in mintronExtentsByChrom ==>
            WellFormedBins(mintronExtentsByChrom[key].starts, mintronExtentsByChrom[key].ends))
      && (forall chrom :: chrom in intergenicExtentsByChrom ==>
            WellFormedBins(intergenicExtentsByChrom[chrom].starts, intergenicExtentsByChrom[chrom].ends))
    }
  }

  /** Every intron of the sequence has attributes in the index. */
  ghost predicate KnownIntrons(info: AnnotationInfo, introns: seq<Intron>) {
    forall k :: 0 <= k < |introns| ==> introns[k] in info.introns
  }
}
