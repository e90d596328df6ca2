# CAMPAREE intron quantification and text utilities in Dafny

This project models two parts of CAMPAREE, an RNA-seq simulation pipeline.

The first is the intron quantification step (`IntronQuantificationStep.execute`). It reads an alignment stream and keeps uniquely mapped, properly paired reads. It pairs mates through a cache keyed by query name. Each fragment gets a strand of origin from its SAM flag bits and the configured read convention. The fragment's aligned blocks are then located on three axes of sorted, disjoint bins: the sense mintrons, the antisense mintrons and the intergenic regions. The location uses `searchsorted(side="right")`. Every primary intron of a touched mintron gets one count. The counts are normalised to fragments per kilobase. Double counts are then subtracted intron by intron, in the order of the annotation. Finally, each transcript gets the length-weighted mean of its inner introns' corrected counts.

The second part is the text transforms of the utility class `CampareeUtils`:
- the text-mode rule of `open_file`;
- `parse_variant_line`;
- the conversion of a multi-line FASTA file into one line per sequence;
- reading a one-line FASTA file into a genome dictionary;
- the conversion of a GTF file into the annotation format, with one line per transcript and a header line.

Modules, one per file:

| file | module | what it holds |
|---|---|---|
| common.dfy | `Common` | `Option`/`Result`; a Python `Counter` as a map where a missing key reads 0 (`Count`, `RealCount`); `Bump` (`+= 1` over a set of keys); `dict(pairs)` |
| text.dfy | `Text` | `str.split`/`join`, `rstrip`/`lstrip`, ASCII `upper`/`lower`, `int()` and `str()` of integers |
| alignments.dfy | `Alignments` | alignment records with SAM FLAG bits as `bv16`, the read filter, the fragment strand |
| annotation.dfy | `Annotation` | the annotation index the step consults (introns, mintrons, bin extents, transcripts), taken as input with the invariants the step relies on |
| bins.dfy | `Bins` | `searchsorted(side="right")` as bisection, and the bins one block touches |
| overlap.dfy | `Overlap` | the bins that all the blocks of a fragment touch on one axis |
| counting.dfy | `Counting` | the read loop as a fold over the stream (`ScanReads`), with the fragment step `AddFragment` |
| normalization.dfy | `Normalization` | the FPK tables |
| correction.dfy | `DoubleCounts` | the double-count correction walk |
| aggregation.dfy | `Aggregation` | transcript-level rates |
| intron_quant.dfy | `IntronQuant` | the step as a class whose count tables are fields, with imperative methods proved against the functions above |
| camparee_utils.dfy | `CampareeUtils` | the exceptions, `open_file`'s mode rule, `parse_variant_line` |
| fasta.dfy | `FastaFiles` | `create_oneline_seq_fasta` and `create_genome` over the lines of a file |
| int_sort.dfy | `IntSort` | `list.sort(key=int)`: a stable insertion sort by integer value |
| gtf.dfy | `GtfConversion` | `convert_gtf_to_annot_file_format` as the source's two loops, with their functional meaning |
| gtf_grouping.dfy | `GtfGrouping` | what the conversion computes, stated without loops: GTF rows, exon runs of one transcript id, annotation records |
| gtf_runs.dfy | `GtfRuns` | the proof that the loops compute that |

Files are modelled as sequences of lines. A line keeps its trailing `\n`, as Python's file iteration does. What is written to a file is modelled as the text written.

## Model

| member | source | states |
|---|---|---|
| Common.Bump | camparee/intron_quant.py:164-165 | the bumped counter has the old keys plus the bumped ones; each bumped key holds its old count (0 when missing) plus one; every other entry is unchanged |
| Common.BumpOneMore | camparee/intron_quant.py:158 | bumping one more key is one more `+= 1` on top of the counter bumped so far |
| Common.MapOfPairsLastWins | camparee/camparee_utils.py:148 | a dictionary built from pairs maps each key to the value of its last pair |
| Common.MapOfPairsKeys | camparee/camparee_utils.py:148 | the dictionary's keys are exactly the keys of the pairs |
| Text.RStrip | camparee/camparee_utils.py:66 | `rstrip` returns a prefix that does not end in a stripped character, and every removed character is one of them |
| Text.LStrip | camparee/camparee_utils.py:147 | `lstrip` returns a suffix that does not start with a stripped character, and every removed character is one of them |
| Text.StripNothing | camparee/camparee_utils.py:147 | stripping characters that a string does not contain changes nothing |
| Text.RStripSuffix | camparee/camparee_utils.py:102 | stripping a tail of stripped characters after a last character that is kept gives back the text before the tail |
| Text.TakeUntil | camparee/camparee_utils.py:43 | the longest prefix that avoids the given characters: it avoids them, and the character after it is one of them |
| Text.TakeUntilPrefix | camparee/camparee_utils.py:43 | a prefix that avoids the characters, followed by one of them, is the prefix taken |
| Text.Upper | camparee/camparee_utils.py:66 | `upper` maps every character by the ASCII upper-case rule and keeps the length |
| Text.Lower | camparee/camparee_utils.py:370 | `lower` maps every character by the ASCII lower-case rule and keeps the length |
| Text.UpperProperties | camparee/camparee_utils.py:66 | the result of `upper` holds no lower-case ASCII letter; `upper` is idempotent and distributes over concatenation |
| Text.Find | camparee/camparee_utils.py:143 | the search for the next separator that `Split` performs returns the leftmost occurrence at or after the start, and none exists when it finds none |
| Text.FindLeftmost | camparee/camparee_utils.py:143 | an occurrence of the separator with none before it is the one the search of `Split` stops at |
| Text.SplitThenJoin | camparee/camparee_utils.py:143 | joining the pieces of a split on a separator gives the string back |
| Text.JoinThenSplit | camparee/camparee_utils.py:278 | splitting a join of parts that do not contain the separator's first character gives the parts back |
| Text.NatToString | camparee/camparee_utils.py:277 | `str(n)` is a non-empty string of decimal digits |
| Text.NatToStringValue | camparee/camparee_utils.py:277 | the digits of `str(n)` have the value `n` |
| Text.NumeralValue | camparee/camparee_utils.py:147 | digits, with or without a leading minus, parse to their value or its negation |
| Text.ParseIntRoundTrip | camparee/camparee_utils.py:147 | `int(str(i)) == i` for every integer |
| Text.IntToStringChars | camparee/camparee_utils.py:277 | `str(i)` holds only digits and the minus sign |
| Text.Split | camparee/camparee_utils.py:143 | `str.split(sep)`: the pieces between the occurrences of the separator, left to right; `SplitThenJoin` and `JoinThenSplit` state that it inverts `Join` |
| Text.Join | camparee/camparee_utils.py:278 | `sep.join(parts)`: the parts with the separator between them; `SplitThenJoin` and `JoinThenSplit` state that `Split` inverts it |
| Text.ParseInt | camparee/camparee_utils.py:147 | `int(s)`: an optionally signed decimal numeral between optional whitespace, otherwise none; `NumeralValue` gives its value and `ParseIntRoundTrip` shows it inverts `IntToString` |
| Text.IntToString | camparee/camparee_utils.py:277 | `str(i)`: `IntToStringChars` states its characters and `ParseIntRoundTrip` that `ParseInt` reads it back |
| Bins.Bisect | camparee/intron_quant.py:113 | on a sorted range, bisection returns the position after every element `<= v` and before every element `> v` |
| Bins.SearchSortedRight | camparee/intron_quant.py:113-116 | `searchsorted(a, v, side="right")`: every element before the result is `<= v`, every element from it on is `> v` |
| Bins.TouchedRange | camparee/intron_quant.py:119-127 | the range of bins the three-way branch selects ends within the bins |
| Bins.TouchedBins | camparee/intron_quant.py:113-127 | a block touches only existing bins |
| Bins.Range | camparee/intron_quant.py:121 | `range(lo, hi)` as a set holds exactly the integers from `lo` up to `hi` |
| Bins.WellFormedIsSearchable | camparee/intron_quant.py:113-127 | non-empty bins that are sorted and disjoint can be searched by start, and each bin ends before every later one starts |
| Bins.TouchedBinsExact | camparee/intron_quant.py:110-127 | on sorted disjoint bins, the bins the three-way branch selects are exactly the bins that overlap the block `[start, end]` |
| Bins.BlockBeforeFirstBin | camparee/intron_quant.py:119-121 | a block that ends before the first bin touches nothing |
| Bins.EmptyAxisTouchesNothing | camparee/intron_quant.py:110 | an axis with no bins is touched by no block |
| Bins.ExactBinBlock | camparee/intron_quant.py:122-124 | a block that is exactly one bin touches that bin only |
| Bins.StraddlingBlock | camparee/intron_quant.py:122-124 | a block from inside one bin into the next touches exactly those two |
| Overlap.AxisTouched | camparee/intron_quant.py:105-153 | an absent axis is touched nowhere; on a present axis every touched index is a bin |
| Overlap.AxisTouchedStep | camparee/intron_quant.py:105-127 | one more block adds the bins it touches, with its start shifted to 1-based |
| Overlap.AxisTouchedExact | camparee/intron_quant.py:105-127 | the bins touched by a fragment's blocks are exactly the bins that some block overlaps, in 1-based inclusive coordinates |
| Alignments.Strand.Symbol | camparee/intron_quant.py:88-90 | a strand is written `+` or `-` |
| Alignments.Strand.Opposite | camparee/intron_quant.py:91 | the antisense strand differs from the strand and is written with the other symbol |
| Alignments.StrandPair | camparee/intron_quant.py:88-91 | the strand and the antisense strand are `+` and `-` in some order, and the opposite of the opposite is the strand |
| Alignments.FragmentStrand | camparee/intron_quant.py:86-90 | with the forward read as sense, the strand is `-` exactly when read 1 aligned in reverse; otherwise it is `+` exactly then |
| Alignments.ToggleConventionSwapsStrand | camparee/intron_quant.py:87-90 | flipping `forward_read_is_sense` flips the fragment's strand |
| Alignments.StrandIndependentOfMateOrder | camparee/intron_quant.py:83-90 | for two mates in opposite orientations, one read 1 and the other read 2, either mate gives the same strand |
| Alignments.Passes | camparee/intron_quant.py:59-60 | a read is used only when mapped, in a proper pair and with NH equal to 1; `Counting.FilteredReadIgnored` states that any other read changes nothing |
| Alignments.Read1ReverseAligned | camparee/intron_quant.py:86 | read 1 aligned in reverse, or read 2 aligned forward; `FragmentStrand` states the strand it selects under both conventions |
| Counting.CreditedIffHit | camparee/intron_quant.py:156-158 | an intron gets a count exactly when a touched mintron lists it as primary |
| Counting.CreditCounts | camparee/intron_quant.py:156-162 | each intron gains exactly the number of touched mintrons that list it as primary; a counter of positive entries stays positive |
| Counting.CreditOneMore | camparee/intron_quant.py:157-158 | crediting one more touched mintron is one `+= 1` for each of its primary introns |
| Counting.CreditNothing | camparee/intron_quant.py:156 | a fragment that touches no mintron leaves the counter as it was |
| Counting.ValidAxes | camparee/intron_quant.py:96-98 | the looked-up axes are searchable, and every touched sense index is a mintron of that chromosome and strand |
| Counting.FragmentTouched | camparee/intron_quant.py:96-153 | the touched sense and antisense indices are mintrons of the strand and of the opposite strand |
| Counting.FilteredReadIgnored | camparee/intron_quant.py:59-60 | a read that is unmapped, not a proper pair, or has NH other than 1 changes nothing |
| Counting.FirstMateCached | camparee/intron_quant.py:62-67 | the first read of a query name is cached and counts nothing |
| Counting.SecondMateReleasesCache | camparee/intron_quant.py:69-71 | the second read of a query name removes the cached mate and leaves every other cached read |
| Counting.UnannotatedChromosomeCountsNothing | camparee/intron_quant.py:73-79 | a fragment on a chromosome without intergenic annotation changes no count |
| Counting.SameOrientationAborts | camparee/intron_quant.py:83 | two mates with the same orientation stop the run |
| Counting.AbsentAxesCountNothing | camparee/intron_quant.py:109-153 | with no axis on either strand and none intergenic, a fragment counts nothing |
| Counting.FragmentIntergenicCounts | camparee/intron_quant.py:164-165 | a fragment adds exactly one to each intergenic bin that one of its blocks overlaps, and nothing elsewhere |
| Counting.FragmentSenseCounts | camparee/intron_quant.py:156-158 | a fragment adds to each intron one sense count per overlapped mintron of its strand that lists the intron as primary |
| Counting.FragmentAntisenseCounts | camparee/intron_quant.py:160-162 | antisense counts come from the overlapped mintrons of the opposite strand, through their primary antisense introns |
| Counting.CreditKeepsKnown | camparee/intron_quant.py:156-162 | crediting the primary introns of indexed mintrons keeps every counted intron known to the index |
| Counting.AddFragmentKeepsInvariant | camparee/intron_quant.py:100-165 | counting a fragment keeps the raw counters positive and their introns known |
| Counting.StepKeepsInvariant | camparee/intron_quant.py:57-165 | one read keeps the tally invariant |
| Counting.ScanKeepsInvariant | camparee/intron_quant.py:57-165 | the whole stream keeps the tally invariant |
| Counting.AbortIsFinal | camparee/intron_quant.py:83 | once the orientation check fails, later reads change nothing |
| Counting.CountedTally | camparee/intron_quant.py:57-165 | the tally after the whole stream satisfies the invariant |
| Counting.Credit | camparee/intron_quant.py:156-162 | the `+= 1` loops over the touched mintrons' primary (or primary antisense) introns; `CreditedIffHit` and `CreditCounts` state which introns gain and by how much |
| Counting.AddFragment | camparee/intron_quant.py:73-165 | one fragment: the chromosome check, the orientation assert, the strand, the three touched sets and the increments; `FragmentSenseCounts`, `FragmentAntisenseCounts` and `FragmentIntergenicCounts` state its effect on each counter |
| Counting.StepRead | camparee/intron_quant.py:59-165 | one read of the stream: the filter, the mate cache and the fragment; `FilteredReadIgnored`, `FirstMateCached`, `SecondMateReleasesCache` and `StepKeepsInvariant` state its cases |
| Counting.ScanReads | camparee/intron_quant.py:57-165 | the loop over all reads; `ScanKeepsInvariant`, `AbortIsFinal` and `CountedTally` state what it keeps |
| Normalization.NormalizeSenseOneMore | camparee/intron_quant.py:169-171 | normalising one more intron writes its sense FPK over the table |
| Normalization.NormalizeAntisenseOneMore | camparee/intron_quant.py:174-176 | the antisense FPK of that intron is written only where its antisense count is positive |
| Normalization.NormalizedSenseEntries | camparee/intron_quant.py:169-171 | the sense table has an entry exactly for each intron with a positive raw count, and it is `count / effective_length * 1000` |
| Normalization.NormalizedAntisenseEntries | camparee/intron_quant.py:169-176 | the antisense table has an entry exactly where both raw counts are positive, and it is the antisense count over the antisense effective length times 1000 |
| Normalization.FpkInverse | camparee/intron_quant.py:170 | the FPK times the length is the count times 1000, and a positive count has a positive FPK |
| Normalization.NormalizedSense | camparee/intron_quant.py:169-171 | the sense FPK table; `NormalizedSenseEntries` states its keys and values |
| Normalization.NormalizedAntisense | camparee/intron_quant.py:174-176 | the antisense FPK table; `NormalizedAntisenseEntries` states its keys and values |
| Normalization.NormalizeOnto | camparee/intron_quant.py:169-176 | the normalisation loop writing over tables that may already hold entries; `NormalizeSenseOneMore` and `NormalizeAntisenseOneMore` state each intron's writes |
| DoubleCounts.ClampSubtractValues | camparee/intron_quant.py:191-194 | each primary intron ends at `min(other - amount, 0)` of its count, as written; every other intron keeps its count |
| DoubleCounts.ClampOneMore | camparee/intron_quant.py:191-194 | clamping one more primary intron is one more assignment on top |
| DoubleCounts.SubtractAllEffect | camparee/intron_quant.py:189-194 | after the mintron loop, each primary intron of a mintron that does not list the intron as primary ends at 0 or below; every other entry, the intron's own among them, is unchanged |
| DoubleCounts.ZeroCountChangesNothing | camparee/intron_quant.py:185-187 | an intron whose sense count is 0 changes neither table |
| DoubleCounts.IntronCorrectionEffect | camparee/intron_quant.py:185-203 | for a non-zero count `c`: the sense loop subtracts `c` through the sense mintrons; the antisense loop subtracts the intron's sense count as it stands after that loop |
| DoubleCounts.ContigIntronsStep | camparee/intron_quant.py:183-184 | the introns of one more transcript come after those of the transcripts before it |
| DoubleCounts.CorrectionOrderStep | camparee/intron_quant.py:182-184 | the introns of one more contig come after those of the contigs before it |
| DoubleCounts.CorrectionOrder | camparee/intron_quant.py:182-184 | every intron the walk visits is known to the index |
| DoubleCounts.CorrectionAppend | camparee/intron_quant.py:182-184 | correcting a walk is correcting its first part, then the rest |
| DoubleCounts.OrderExampleForward | camparee/intron_quant.py:185-194 | with two introns that each displace the other, with counts A 5 and B 3, visiting A first leaves A at 0 and B at -2 |
| DoubleCounts.OrderExampleBackward | camparee/intron_quant.py:185-194 | visiting B first leaves A at 0 and B at 3 |
| DoubleCounts.CorrectionOrderMatters | camparee/intron_quant.py:180-181 | the visiting order changes the corrected counts, so the walk keeps the index's order |
| DoubleCounts.ClampSubtract | camparee/intron_quant.py:191-194 | the assignment to each primary intron of one mintron; `ClampSubtractValues` states the values |
| DoubleCounts.SubtractAll | camparee/intron_quant.py:189-194 | the loop over an intron's mintrons (sense or antisense); `SubtractAllEffect` states which entries change |
| DoubleCounts.IntronCorrection | camparee/intron_quant.py:185-203 | the correction for one intron; `IntronCorrectionEffect` and `ZeroCountChangesNothing` state its effect |
| DoubleCounts.Correction | camparee/intron_quant.py:182-203 | the correction of every intron in the index's order; `CorrectionAppend` and `CorrectionOrderMatters` state how it composes and that the order matters |
| Aggregation.NonFlank | camparee/intron_quant.py:211 | `introns[1:-1]`: empty for at most two introns, otherwise every intron but the first and the last, in order |
| Aggregation.TranscriptRates | camparee/intron_quant.py:206 | the transcript table has one entry per transcript of the index |
| Aggregation.TranscriptRateAt | camparee/intron_quant.py:206-227 | each transcript's entry is its rate, and its introns are known to the index |
| Aggregation.ShortTranscriptRateZero | camparee/intron_quant.py:211-224 | a transcript with at most two introns has a rate of 0 |
| Aggregation.WeightedSumAgrees | camparee/intron_quant.py:215-219 | the weighted sum depends only on the counts of the introns summed |
| Aggregation.FlankIntronsIgnored | camparee/intron_quant.py:207-211 | two count tables that agree on the inner introns give the same rate, whatever they hold for the first and last intron |
| Aggregation.WeightedSumBounds | camparee/intron_quant.py:215-220 | counts between `lo` and `hi` give a weighted sum between `lo` and `hi` times the total length |
| Aggregation.RateIsWeightedMean | camparee/intron_quant.py:215-227 | when the inner lengths do not sum to 0, the rate lies between the smallest and the largest inner count |
| Aggregation.WeightedSum | camparee/intron_quant.py:215-220 | the length-weighted sum of counts; `WeightedSumAgrees` and `WeightedSumBounds` state what it depends on and its bounds |
| Aggregation.TranscriptRate | camparee/intron_quant.py:207-227 | one transcript's rate; `RateIsWeightedMean`, `ShortTranscriptRateZero` and `FlankIntronsIgnored` state its value |
| IntronQuant.BumpEach | camparee/intron_quant.py:157-158 | the loop `for k in keys: counter[k] += 1` computes `Bump` |
| IntronQuant.IntronQuantificationStep.constructor | camparee/intron_quant.py:16-29 | a new step keeps the read convention and starts with empty counters |
| IntronQuant.IntronQuantificationStep.Execute | camparee/intron_quant.py:35-227 | on success the fields hold the tables that the counting, normalisation, correction and aggregation functions give; when the orientation check fails, the intergenic counter keeps the counts made up to that point and no other table changes |
| IntronQuant.IntronQuantificationStep.CountReads | camparee/intron_quant.py:53-165 | the read loop returns the raw counters and leaves the intergenic counter as the fold over the stream does |
| IntronQuant.IntronQuantificationStep.CountFragment | camparee/intron_quant.py:85-165 | one fragment updates the counters as `AddFragment` does |
| IntronQuant.IntronQuantificationStep.TouchedByFragment | camparee/intron_quant.py:96-153 | the block loop computes the touched bins of the three axes |
| IntronQuant.IntronQuantificationStep.CreditIntrons | camparee/intron_quant.py:156-162 | the nested loop over touched mintrons and their primary introns computes `Credit` |
| IntronQuant.IntronQuantificationStep.BumpIntergenic | camparee/intron_quant.py:164-165 | the intergenic counter is bumped once at each touched bin of the chromosome |
| IntronQuant.IntronQuantificationStep.Normalize | camparee/intron_quant.py:169-176 | the loop writes the FPK tables over the old ones |
| IntronQuant.IntronQuantificationStep.CorrectDoubleCounts | camparee/intron_quant.py:182-203 | the contig loop performs the correction walk in the index's order |
| IntronQuant.IntronQuantificationStep.CorrectContig | camparee/intron_quant.py:183-203 | the transcript loop corrects the introns of one contig in order |
| IntronQuant.IntronQuantificationStep.CorrectTranscriptIntrons | camparee/intron_quant.py:184-203 | the intron loop corrects the introns of one transcript in order |
| IntronQuant.IntronQuantificationStep.CorrectIntron | camparee/intron_quant.py:185-203 | one intron is corrected as `IntronCorrection` says |
| IntronQuant.IntronQuantificationStep.SubtractThroughMintrons | camparee/intron_quant.py:189-203 | the mintron loop changes only the table it works on, as `SubtractAll` says |
| IntronQuant.IntronQuantificationStep.ClampPrimaries | camparee/intron_quant.py:191-194 | the primary-intron loop performs the clamp on one table and leaves the other alone |
| IntronQuant.IntronQuantificationStep.AggregateTranscripts | camparee/intron_quant.py:206-227 | both transcript tables receive every transcript's rate over the corrected tables; other entries stay |
| IntronQuant.IntronQuantificationStep.RatesOf | camparee/intron_quant.py:211-227 | the summation loop computes the length-weighted mean of the inner introns, or 0 for both tables when the lengths sum to 0 |
| CampareeUtils.TextMode | camparee/camparee_utils.py:369-371 | the mode gains at most a trailing `t`; the result always names binary or text; it is unchanged exactly when the mode already names one of them |
| CampareeUtils.TextModeRule | camparee/camparee_utils.py:369-371 | a `b`, `B`, `t` or `T` anywhere keeps the mode, otherwise a `t` is appended; applying the rule twice is applying it once |
| CampareeUtils.VariantCounts | camparee/camparee_utils.py:148 | a failure is always a `ValueError`, and the `base:count` map has no more entries than there are tokens |
| CampareeUtils.VariantCountsSucceeds | camparee/camparee_utils.py:148 | the dictionary comprehension succeeds exactly when every token is two fields around `:` with an integer count |
| CampareeUtils.VariantCountsKeys | camparee/camparee_utils.py:148 | the dictionary's keys are exactly the tokens' bases |
| CampareeUtils.ParseVariantLine | camparee/camparee_utils.py:141-149 | an empty line is `("DONE", 0, {})`; every failure is a `ValueError`; a line of four tab fields parses exactly when its location is `chrom:pos` with an integer position and every variant is a `base:count` token, and then the chromosome and position are the location's two fields and the counts are the map of the variant tokens |
| CampareeUtils.VariantTokenSplits | camparee/camparee_utils.py:148 | a `base:count` token splits back into its base and the text of its count |
| CampareeUtils.VariantCountsOfTokens | camparee/camparee_utils.py:148 | parsing the tokens of a variant list gives its dictionary, with later bases winning |
| CampareeUtils.LocationFieldSplits | camparee/camparee_utils.py:145-146 | the first field splits back into the location token and the variant tokens |
| CampareeUtils.ParseVariantLineSteps | camparee/camparee_utils.py:143-149 | when each split gives the expected pieces, the line parses to its chromosome, position and counts |
| CampareeUtils.TabFieldsSplit | camparee/camparee_utils.py:143-144 | four tab-free fields split back out of their tab join, which is not empty |
| CampareeUtils.VariantLineRoundTrip | camparee/camparee_utils.py:137-149 | parsing a formatted variant line gives back its chromosome, position and base-to-count dictionary, whatever the other three fields hold |
| FastaFiles.HeaderMatch | camparee/camparee_utils.py:61 | the pattern matches exactly the lines starting with `>`; the group is the longest whitespace-free text after the `>` |
| FastaFiles.HeaderOf | camparee/camparee_utils.py:61-62 | a header of an identifier followed by a description that begins with whitespace gives that identifier |
| FastaFiles.CreateOnelineSeqFasta | camparee/camparee_utils.py:37-72 | the loop writes what `OnelineFasta` gives and returns the identifiers of all header lines |
| FastaFiles.FastaChromosomes | camparee/camparee_utils.py:54-63 | the returned set is the set of header identifiers |
| FastaFiles.FastaRunAppend | camparee/camparee_utils.py:54-67 | processing two lists of lines in turn is processing their concatenation |
| FastaFiles.HeaderStep | camparee/camparee_utils.py:55-63 | a header line closes the sequence being built with a line break, writes `>id`, and adds the id |
| FastaFiles.SequenceStep | camparee/camparee_utils.py:65-67 | any other line is written without its trailing line break, upper-cased |
| FastaFiles.RunChunks | camparee/camparee_utils.py:65-67 | the sequence lines of a record are written as one upper-cased line |
| FastaFiles.RunRecord | camparee/camparee_utils.py:54-67 | a record is written as its header line and its joined sequence |
| FastaFiles.RunRecords | camparee/camparee_utils.py:54-70 | records are written one after the other |
| FastaFiles.OnelineRoundTrip | camparee/camparee_utils.py:37-72 | a file of well-formed records becomes each record on two lines, upper-cased, and the record identifiers are returned |
| FastaFiles.LinePairs | camparee/camparee_utils.py:97 | `zip_longest(*[lines] * 2)` pairs lines `2k` and `2k+1`; an odd last line is paired with nothing |
| FastaFiles.GenomeEntry | camparee/camparee_utils.py:98-102 | a pair is added exactly when its header matches and a sequence line exists; a bad header raises the exception naming the line; a missing sequence is an `AttributeError` |
| FastaFiles.CreateGenome | camparee/camparee_utils.py:83-103 | the loop returns what `Genome` gives |
| FastaFiles.GenomeFailurePersists | camparee/camparee_utils.py:97-100 | once a prefix of the pairs fails, the whole file fails the same way |
| FastaFiles.GenomeOfPairsSucceeds | camparee/camparee_utils.py:97-102 | the pairs are added exactly when each has a header and a sequence |
| FastaFiles.GenomeSucceeds | camparee/camparee_utils.py:95-103 | the genome is built exactly when the file has an even number of lines and every even line is a header |
| FastaFiles.GenomeBadHeader | camparee/camparee_utils.py:98-100 | the first header that does not match names the error |
| FastaFiles.GenomeMissingSequence | camparee/camparee_utils.py:97-102 | matching headers with the last one left without a sequence give an `AttributeError` |
| FastaFiles.GenomeLinePairs | camparee/camparee_utils.py:97 | the line pairs of a one-line FASTA file are its headers and sequences, in order |
| FastaFiles.GenomeEntryOfPair | camparee/camparee_utils.py:98-102 | the two lines written for an identifier and a sequence add that identifier with the upper-cased sequence |
| FastaFiles.GenomeOfWrittenPairs | camparee/camparee_utils.py:97-102 | adding the line pairs of identifier/sequence pairs builds their dictionary |
| FastaFiles.GenomeRoundTrip | camparee/camparee_utils.py:83-103 | reading back a one-line FASTA file gives each identifier its last sequence, upper-cased |
| FastaFiles.FastaStep | camparee/camparee_utils.py:54-67 | one line of `create_oneline_seq_fasta`; `HeaderStep` and `SequenceStep` state its two cases |
| FastaFiles.OnelineFasta | camparee/camparee_utils.py:37-72 | the text written and the identifiers returned; `OnelineRoundTrip` and `FastaChromosomes` state them |
| FastaFiles.GenomeOfPairs | camparee/camparee_utils.py:97-102 | the loop over line pairs; `GenomeOfPairsSucceeds` and `GenomeBadHeader` state when it fails and why |
| FastaFiles.Genome | camparee/camparee_utils.py:83-103 | `create_genome` on a plain file; `GenomeSucceeds`, `GenomeMissingSequence` and `GenomeRoundTrip` state its result |
| IntSort.SortByInt | camparee/camparee_utils.py:267-268 | `sort(key=int)` fails, with a `ValueError`, exactly when some element is not an integer numeral |
| IntSort.SortBySorted | camparee/camparee_utils.py:267-268 | the sort is ordered by key and is a permutation |
| IntSort.SortByStable | camparee/camparee_utils.py:267-268 | elements with equal keys keep their relative order |
| IntSort.SortByEnds | camparee/camparee_utils.py:275-276 | the first sorted element has the smallest key and the last the largest, and both come from the list |
| IntSort.SortByIntSpec | camparee/camparee_utils.py:267-268 | a successful `sort(key=int)` is a permutation, ordered by integer value, and stable |
| IntSort.SortBy | camparee/camparee_utils.py:267-268 | a stable sort by key; `SortBySorted`, `SortByStable` and `SortByIntSpec` state that it is an ordered stable permutation |
| GtfConversion.ColumnNamesTabFree | camparee/camparee_utils.py:13 | no column name of the format holds a tab |
| GtfConversion.HeaderText | camparee/camparee_utils.py:201 | the header is `#`, then the format's eleven column names, tab-separated and in order, then a line break |
| GtfConversion.AttributeMatchText | camparee/camparee_utils.py:205-208 | the pattern for an attribute matches where `name "value";` is written and gives the value |
| GtfConversion.AttributeLeftmost | camparee/camparee_utils.py:245-250 | `search` returns the value of the leftmost match |
| GtfConversion.AttributeNewline | camparee/camparee_utils.py:245-250 | searching the last column with or without its line break gives the same value |
| GtfConversion.RecordValues | camparee/camparee_utils.py:271-284 | an annotation record has the eleven values of the format |
| GtfConversion.Flush | camparee/camparee_utils.py:267-285 | writing a transcript succeeds exactly when all its coordinates are integers and it has some |
| GtfConversion.RecordExtent | camparee/camparee_utils.py:267-277 | `txStart` is the smallest start and `txEnd` the largest end by integer value, both from the exon lines; `exonCount` is the number of exon lines |
| GtfConversion.RecordExtentBy | camparee/camparee_utils.py:267-277 | the same for any sort key |
| GtfConversion.Load | camparee/camparee_utils.py:288-303 | loading a transcript fails, with an `AttributeError`, exactly when the gene id is missing; it starts the coordinate lists with the line's start and end |
| GtfConversion.AddExon | camparee/camparee_utils.py:306-309 | another exon line of the transcript adds one start and one end |
| GtfConversion.FindExon | camparee/camparee_utils.py:224-238 | the first loop stops at an exon line at or after where it started |
| GtfConversion.FlushSorted | camparee/camparee_utils.py:267-285 | a transcript whose coordinates sort is written as the line of its sorted coordinates |
| GtfConversion.LoadFound | camparee/camparee_utils.py:288-303 | with the gene id present, the loaded transcript has the line's chromosome, strand, id and gene id, and the gene name and biotype, or `"None"` where they are absent |
| GtfConversion.ConvertNoExon | camparee/camparee_utils.py:236-238 | the first loop's exception is the conversion's |
| GtfConversion.ConvertUnprimed | camparee/camparee_utils.py:240-250 | so is an exception while priming from the first exon line |
| GtfConversion.LoadNewline | camparee/camparee_utils.py:241-250 | the line break that the first exon line keeps changes nothing loaded from it |
| GtfConversion.ConvertPrimed | camparee/camparee_utils.py:240-254 | once primed, the conversion is the second loop from the line after the first exon line, with the header written and the first chromosome added |
| GtfConversion.WriteTranscript | camparee/camparee_utils.py:267-285 | the sort-and-format block computes `Flush` |
| GtfConversion.FirstExonLine | camparee/camparee_utils.py:224-238 | the first loop computes `FindExon` |
| GtfConversion.StepSkipped | camparee/camparee_utils.py:258 | a line whose third column is not `exon` leaves the state as it is |
| GtfConversion.StepSameTranscript | camparee/camparee_utils.py:306-309 | an exon line of the current transcript adds its coordinates |
| GtfConversion.StepNewTranscript | camparee/camparee_utils.py:262-303 | an exon line of another transcript writes the current one and loads the next |
| GtfConversion.FlushAllInts | camparee/camparee_utils.py:267-285 | a transcript whose coordinates are all integers is written as the line of its sorted coordinates |
| GtfConversion.StepFails | camparee/camparee_utils.py:254-309 | a line that the second loop fails on ends the conversion with its exception |
| GtfConversion.StepSucceeds | camparee/camparee_utils.py:254-309 | a line that the second loop gets past hands the next state on |
| GtfConversion.LoadTranscript | camparee/camparee_utils.py:288-303 | the loading block computes `Load` |
| GtfConversion.ReadLine | camparee/camparee_utils.py:255-309 | one pass of the second loop computes `Step` |
| GtfConversion.PrimeTranscript | camparee/camparee_utils.py:240-251 | the priming block computes `Prime` |
| GtfConversion.GroupExonLines | camparee/camparee_utils.py:254-334 | the second loop and the final write compute `RunFrom` |
| GtfConversion.ConvertGtfToAnnotFileFormat | camparee/camparee_utils.py:195-336 | the two loops compute `Convert`: the header, one line per transcript, and the set of chromosomes, or the exception |
| GtfConversion.Attribute | camparee/camparee_utils.py:205-208 | `pattern.search(column).group(1)` for `name "value";`; `AttributeMatchText` and `AttributeLeftmost` state the match it returns |
| GtfConversion.Prime | camparee/camparee_utils.py:240-251 | priming from the first exon line; `LoadFound` and `GtfRuns.PrimeRow` state the transcript it loads |
| GtfConversion.Switch | camparee/camparee_utils.py:262-303 | the write of the collected transcript and the load of the next; `StepNewTranscript` states it |
| GtfConversion.StepColumns | camparee/camparee_utils.py:258-309 | one line's columns in the second loop; `StepSkipped`, `StepSameTranscript`, `StepNewTranscript` and `GtfRuns.StepRow` state its cases |
| GtfConversion.Step | camparee/camparee_utils.py:255-309 | one pass of the second loop; `StepFails`, `StepSucceeds` and `GtfRuns.RunRows` state what it hands on |
| GtfConversion.Finish | camparee/camparee_utils.py:311-336 | the write of the last transcript and the returned chromosomes; `GtfRuns.FinishState` states them |
| GtfConversion.Convert | camparee/camparee_utils.py:195-336 | the whole conversion; `GtfRuns.ConvertRows` states its output and `ConvertNoExon` its error |
| GtfGrouping.RowLines | camparee/camparee_utils.py:254-256 | the lines of a list of rows are, in order, the lines of each row |
| GtfGrouping.Groups | camparee/camparee_utils.py:262 | grouping by consecutive transcript id gives no empty run, and no runs only for no rows |
| GtfGrouping.GroupsSnoc | camparee/camparee_utils.py:262-309 | one more exon either extends the last run or starts a new one |
| GtfGrouping.GroupsAreRuns | camparee/camparee_utils.py:262 | the runs concatenate to the exons, and each run is maximal for one transcript id |
| GtfGrouping.ChromosomesAre | camparee/camparee_utils.py:251-303 | the chromosomes collected are exactly those of the first exons of the runs |
| GtfGrouping.RowLineStripped | camparee/camparee_utils.py:255-256 | a row's line, stripped of its line break and split on tabs, gives its nine columns |
| GtfGrouping.RowLineUnstripped | camparee/camparee_utils.py:226 | split without stripping, the last column keeps the line break |
| GtfGrouping.PreambleColumns | camparee/camparee_utils.py:226-232 | a header line without tabs splits into one column, which the first loop skips |
| GtfGrouping.FirstExon | camparee/camparee_utils.py:225-234 | the first exon row is an exon with no exon before it |
| GtfGrouping.TranscriptSnoc | camparee/camparee_utils.py:306-309 | the transcript of a run one exon longer is the transcript of the run with that exon added |
| GtfGrouping.LoadRow | camparee/camparee_utils.py:288-303 | loading from a row's columns gives the transcript of that single row |
| GtfGrouping.FlushRun | camparee/camparee_utils.py:267-285 | writing the transcript of a run gives that run's record |
| GtfRuns.StepOther | camparee/camparee_utils.py:258 | a row that is not an exon leaves any state as it is |
| GtfRuns.StepSame | camparee/camparee_utils.py:306-309 | an exon of the collected transcript's id extends its run |
| GtfRuns.StepNew | camparee/camparee_utils.py:262-303 | an exon of another id writes the run collected so far and starts a new one |
| GtfRuns.StepExon | camparee/camparee_utils.py:258-309 | an exon row takes the state of the runs so far to the state of the runs with that exon pushed |
| GtfRuns.StepRow | camparee/camparee_utils.py:254-309 | each row takes the state of the rows before it to the state of the rows up to it |
| GtfRuns.RunRows | camparee/camparee_utils.py:254-334 | the second loop from the first exon on ends in the state of all the rows |
| GtfRuns.FinishState | camparee/camparee_utils.py:311-334 | the last write gives the header followed by the record of every run, and the runs' chromosomes |
| GtfRuns.FindFirstExon | camparee/camparee_utils.py:225-234 | the first loop stops at the line of the first exon row |
| GtfRuns.PrimeRow | camparee/camparee_utils.py:240-250 | priming from an exon row's unstripped line gives the transcript of that row |
| GtfRuns.ConvertFirstExon | camparee/camparee_utils.py:224-251 | the conversion continues from the state of the rows up to the first exon |
| GtfRuns.ConvertWithoutExon | camparee/camparee_utils.py:236-238 | a file without an exon row raises the exception naming the file |
| GtfRuns.ConvertToFinish | camparee/camparee_utils.py:224-334 | a file with an exon row ends in the last write from the state of all the rows |
| GtfRuns.FinishRows | camparee/camparee_utils.py:311-334 | that last write is the header followed by one record per run |
| GtfRuns.ConvertRows | camparee/camparee_utils.py:195-336 | header lines followed by well-formed rows convert to the header and one annotation line per maximal run of exons of one transcript id, with the chromosomes of the runs; with no exon row, to the exception naming the file |

## Left out

- Reading the alignment file with pysam, `get_blocks()`, and the chromosome lengths are left out. The model takes the alignment stream as a sequence of `Read` values whose blocks are given.
- Building `AnnotationInfo` from the gene-info file is not part of this model. The index is an input, with the invariants the step relies on: searchable bins, one mintron per sense bin, and known introns with non-zero lengths wherever the step divides by a length.
- The report writers after camparee/intron_quant.py:229 and `validate` are left out, because they only format the tables to files.
- The `print` messages, the `skipped_chromosomes` list, `flank_size`, the log directory and the data directory are left out, because they do not affect the tables.
- Floating-point rounding is not modelled: counts and rates are exact `real`s.
- Counting.StepRead: a read without an NH tag raises `KeyError` in pysam. The model reads `nh` as a given field.
- The `.gz` branches of `open_file` and `create_genome` are left out, as are the file handles themselves. `CampareeUtils.TextMode` models only the mode rule, and `create_genome` models the plain-text branch.
- Text.Upper, Text.Lower: only ASCII letters change case. Python also maps other Unicode letters.
- Text.ParseInt: underscores between digits and non-ASCII digits, which Python's `int()` also accepts, are left out. Leading and trailing whitespace is modelled.
- Output written before an exception is not modelled. A failed conversion returns only the exception, not the partial file.
- `create_chr_ploidy_data` and `compare_genome_sequence_lengths` are left out, because they are outside the modelled transforms.
- The regular expressions are modelled by the functions they compute: the header pattern `>([^\s]*).*` by `FastaFiles.HeaderMatch`, and the attribute patterns by `GtfConversion.Attribute`. No regular-expression engine is modelled.
- DoubleCounts.ClampSubtract: `min(other_counts - count, 0)` is kept as written, so a displaced intron never ends above 0. The comment beside it says the intent is to avoid negative values, which would be `max`. The model follows the code.
- DoubleCounts.IntronCorrection: the antisense loop subtracts the intron's sense count as it stands after the sense loop (`intron_normalized_counts`), as written. It does not subtract the antisense count.
- GtfConversion.Step: the exceptions of the GTF conversion are collapsed into `IndexError`, `ValueError`, `AttributeError` and the utility exception. Each one ends the conversion, and the model does not keep the message of the first three.
- IntronQuant.IntronQuantificationStep.AggregateTranscripts writes through two local maps and assigns the two fields after the loop. The tables' values are the same as with the source's writes into the fields.
- The iteration order of Python sets and dictionaries is modelled as an arbitrary order (`:|`) where the result does not depend on it. The transcript order of the correction walk is the sequence `transcriptsByChrom`.
