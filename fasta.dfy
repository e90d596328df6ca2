/** The two FASTA transforms of the utility class, with a file taken as the
    sequence of its lines as iteration yields them (line break included) and
    the written file as one string. */
module FastaFiles {
  import opened Common
  import opened Text
  import opened CampareeUtils

  /** A header line starts with `>`: exactly the lines on which the pattern
      `>([^\s]*).*` matches (`.*` may match nothing). */
  predicate IsHeader(line: string) {
    |line| > 0 && line[0] == '>'
  }

  /** `re.match('>([^\s]*).*', line)` and its first group: the identifier,
      everything after `>` up to the first whitespace character. */
  function HeaderMatch(line: string): (r: Option<string>)
    ensures r.Some? <==> IsHeader(line)
    ensures r.Some? ==> Avoids(r.value, Whitespace) && ">" + r.value <= line
    ensures r.Some? && 1 + |r.value| < |line| ==> line[1 + |r.value|] in Whitespace
  {
    if IsHeader(line) then Some(TakeUntil(line[1..], Whitespace)) else None
  }

  /** The header line of an identifier followed by a description that begins
      with whitespace (or by nothing) matches with that identifier. */
  lemma HeaderOf(id: string, description: string)
    requires Avoids(id, Whitespace) && (description == "" || description[0] in Whitespace)
    ensures HeaderMatch(">" + id + description + "\n") == Some(id)
  {
    var line := ">" + id + description + "\n";
    NewlineIsWhitespace();
    assert line[1..] == id + (description + "\n");
    TakeUntilPrefix(id, description + "\n", Whitespace);
  }

  // ---------------------------------------------------------------------
  // create_oneline_seq_fasta
  // ---------------------------------------------------------------------

  /** What the conversion has produced so far: the text written, whether a
      sequence is being built, and the identifiers seen. */
  datatype FastaState = FastaState(output: string, building: bool, chromosomes: set<string>)

  const Start: FastaState := FastaState("", false, {})

  /** One input line: a header closes the sequence being built and is written
      as `>` and its identifier; any other line is written without its line
      break, upper-cased. */
  function FastaStep(st: FastaState, line: string): FastaState {
    match HeaderMatch(line)
    case Some(id) =>
      FastaState(st.output + (if st.building then "\n" else "") + ">" + id + "\n", false, st.chromosomes + {id})
    case None =>
      FastaState(st.output + Upper(RStrip(line, {'\n'})), true, st.chromosomes)
  }

  /** The lines processed in order from a state. */
  function FastaRun(st: FastaState, lines: seq<string>): FastaState
    decreases |lines|
  {
    if lines == [] then st else FastaRun(FastaStep(st, lines[0]), lines[1..])
  }

  /** The written file (with its final line break) and the returned set. */
  function OnelineFasta(lines: seq<string>): (string, set<string>) {
    var st := FastaRun(Start, lines);
    (st.output + "\n", st.chromosomes)
  }

  /** The identifiers of the header lines. */
  function HeaderIds(lines: seq<string>): set<string> {
    set i | 0 <= i < |lines| && IsHeader(lines[i]) :: HeaderMatch(lines[i]).value
  }

  /** Convert a multi-line FASTA file into one with each sequence on a single
      line, returning the identifiers of its records. */
  method CreateOnelineSeqFasta(lines: seq<string>) returns (output: string, chromosomes: set<string>)
    ensures (output, chromosomes) == OnelineFasta(lines)
    ensures chromosomes == HeaderIds(lines)
  {
    output, chromosomes := "", {};
    var building := false;
    for i := 0 to |lines|
      invariant FastaRun(FastaState(output, building, chromosomes), lines[i..]) == FastaRun(Start, lines)
    {
      var line := lines[i];
      ghost var before := FastaState(output, building, chromosomes);
      assert FastaRun(before, lines[i..]) == FastaRun(FastaStep(before, line), lines[i + 1..]) by {
        assert lines[i..][0] == line && lines[i..][1..] == lines[i + 1..];
      }
      if |line| > 0 && line[0] == '>' {
        var separator := "";
        if building {
          separator := "\n";
          building := false;
        }
        var id := HeaderMatch(line).value;
        output := output + separator + ">" + id + "\n";
        chromosomes := chromosomes + {id};
        HeaderStep(before, line);
      } else {
        SequenceStep(before, line);
        output := output + Upper(RStrip(line, {'\n'}));
        building := true;
      }
      assert FastaState(output, building, chromosomes) == FastaStep(before, line);
    }
    assert lines[|lines|..] == [];
    output := output + "\n";
    FastaChromosomes(Start, lines);
  }

  /** The returned set is the set of header identifiers. */
  lemma {:induction false} FastaChromosomes(st: FastaState, lines: seq<string>)
    ensures FastaRun(st, lines).chromosomes == st.chromosomes + HeaderIds(lines)
    decreases |lines|
  {
    if lines != [] {
      var next := FastaStep(st, lines[0]);
      FastaChromosomes(next, lines[1..]);
      HeaderIdsCons(lines);
      assert next.chromosomes == st.chromosomes + HeaderIds(lines[..1]);
    }
  }

  /** The identifiers of a list of lines: those of its first line and those of the rest. */
  lemma HeaderIdsCons(lines: seq<string>)
    requires lines != []
    ensures HeaderIds(lines) == HeaderIds(lines[..1]) + HeaderIds(lines[1..])
    ensures HeaderIds(lines[..1]) == if IsHeader(lines[0]) then {HeaderMatch(lines[0]).value} else {}
  {
    var rest := lines[1..];
    forall x | x in HeaderIds(lines) ensures x in HeaderIds(lines[..1]) + HeaderIds(rest) {
      var i :| 0 <= i < |lines| && IsHeader(lines[i]) && HeaderMatch(lines[i]).value == x;
      if i > 0 {
        assert rest[i - 1] == lines[i];
      } else {
        assert lines[..1][0] == lines[0];
      }
    }
    forall x | x in HeaderIds(rest) ensures x in HeaderIds(lines) {
      var i :| 0 <= i < |rest| && IsHeader(rest[i]) && HeaderMatch(rest[i]).value == x;
      assert lines[i + 1] == rest[i];
    }
    if IsHeader(lines[0]) {
      assert lines[..1][0] == lines[0];
    }
  }

  /** Processing one list of lines after another. */
  lemma {:induction false} FastaRunAppend(st: FastaState, a: seq<string>, b: seq<string>)
    ensures FastaRun(st, a + b) == FastaRun(FastaRun(st, a), b)
    decreases |a|
  {
    if a == [] {
      assert a + b == b;
    } else {
      assert (a + b)[1..] == a[1..] + b;
      FastaRunAppend(FastaStep(st, a[0]), a[1..], b);
    }
  }

  /** A sequence line of a record: no line break inside and not a header. */
  predicate SequenceLine(chunk: string) {
    '\n' !in chunk && (chunk == "" || chunk[0] != '>')
  }

  /** A FASTA record as a multi-line file holds it: a header with an
      identifier and a description, then at least one sequence line. */
  datatype FastaRecord = FastaRecord(id: string, description: string, chunks: seq<string>)

  predicate WellFormedRecord(r: FastaRecord) {
    && Avoids(r.id, Whitespace)
    && (r.description == "" || r.description[0] in Whitespace)
    && |r.chunks| >= 1
    && forall k :: 0 <= k < |r.chunks| ==> SequenceLine(r.chunks[k])
  }

  function ChunkLines(chunks: seq<string>): (r: seq<string>)
    ensures |r| == |chunks|
    decreases |chunks|
  {
    if chunks == [] then [] else [chunks[0] + "\n"] + ChunkLines(chunks[1..])
  }

  function Concat(chunks: seq<string>): string
    decreases |chunks|
  {
    if chunks == [] then "" else chunks[0] + Concat(chunks[1..])
  }

  /** The lines of one record in the multi-line file. */
  function RecordLines(r: FastaRecord): seq<string> {
    [">" + r.id + r.description + "\n"] + ChunkLines(r.chunks)
  }

  /** The lines of a multi-line file of records. */
  function FileLines(records: seq<FastaRecord>): seq<string>
    decreases |records|
  {
    if records == [] then [] else RecordLines(records[0]) + FileLines(records[1..])
  }

  /** A record on two lines: `>` and its identifier, then its whole
      sequence upper-cased. */
  function OnelineRecord(r: FastaRecord): string {
    ">" + r.id + "\n" + Upper(Concat(r.chunks)) + "\n"
  }

  /** The one-line file of a list of records. */
  function OnelineFile(records: seq<FastaRecord>): string
    decreases |records|
  {
    if records == [] then "" else OnelineRecord(records[0]) + OnelineFile(records[1..])
  }

  function RecordIds(records: seq<FastaRecord>): set<string> {
    set i | 0 <= i < |records| :: records[i].id
  }

  /** What a header line does to the state. */
  lemma HeaderStep(st: FastaState, line: string)
    requires IsHeader(line)
    ensures FastaStep(st, line)
            == FastaState(st.output + (if st.building then "\n" else "") + ">" + HeaderMatch(line).value + "\n",
                          false, st.chromosomes + {HeaderMatch(line).value})
  {
  }

  /** What any other line does to the state. */
  lemma SequenceStep(st: FastaState, line: string)
    requires !IsHeader(line)
    ensures FastaStep(st, line) == FastaState(st.output + Upper(RStrip(line, {'\n'})), true, st.chromosomes)
  {
  }

  /** A sequence line loses its line break. */
  lemma ChunkStep(st: FastaState, c: string)
    requires SequenceLine(c)
    ensures FastaStep(st, c + "\n") == FastaState(st.output + Upper(c), true, st.chromosomes)
  {
    var line := c + "\n";
    assert line[0] != '>' by {
      if c == "" { assert line[0] == '\n'; } else { assert line[0] == c[0]; }
    }
    SequenceStep(st, line);
    RStripSuffix(c, "\n", {'\n'});
  }

  /** The first sequence line of several is read first. */
  lemma {:induction false} RunFirstChunk(st: FastaState, chunks: seq<string>)
    requires chunks != [] && SequenceLine(chunks[0])
    ensures FastaRun(st, ChunkLines(chunks))
            == FastaRun(FastaState(st.output + Upper(chunks[0]), true, st.chromosomes), ChunkLines(chunks[1..]))
  {
    var lines := ChunkLines(chunks);
    assert lines[0] == chunks[0] + "\n" && lines[1..] == ChunkLines(chunks[1..]);
    ChunkStep(st, chunks[0]);
  }

  /** Upper-casing the first chunk, then the rest, upper-cases them all. */
  lemma {:induction false} UpperChunks(out: string, chunks: seq<string>)
    requires chunks != []
    ensures out + Upper(chunks[0]) + Upper(Concat(chunks[1..])) == out + Upper(Concat(chunks))
  {
    UpperAppend(chunks[0], Concat(chunks[1..]));
    AppendAssoc(out, Upper(chunks[0]), Upper(Concat(chunks[1..])));
  }

  /** Sequence lines are appended without their line breaks, upper-cased. */
  lemma {:induction false} RunChunks(st: FastaState, chunks: seq<string>)
    requires forall k :: 0 <= k < |chunks| ==> SequenceLine(chunks[k])
    ensures FastaRun(st, ChunkLines(chunks))
            == FastaState(st.output + Upper(Concat(chunks)), st.building || chunks != [], st.chromosomes)
    decreases |chunks|
  {
    if chunks == [] {
      assert Upper("") == "";
      assert st.output + Upper(Concat(chunks)) == st.output;
    } else {
      var st1 := FastaState(st.output + Upper(chunks[0]), true, st.chromosomes);
      RunFirstChunk(st, chunks);
      RunChunks(st1, chunks[1..]);
      UpperChunks(st.output, chunks);
    }
  }

  /** A record is written as its header line and its sequence without line
      breaks, after a line break when it follows sequence data; the line
      break ending the sequence is still to come. */
  lemma RunRecord(st: FastaState, r: FastaRecord)
    requires WellFormedRecord(r)
    ensures var out := FastaRun(st, RecordLines(r));
            && out.building && out.chromosomes == st.chromosomes + {r.id}
            && out.output + "\n" == st.output + (if st.building then "\n" else "") + OnelineRecord(r)
  {
    var header := ">" + r.id + r.description + "\n";
    var lines := RecordLines(r);
    var pre := if st.building then "\n" else "";
    var h := ">" + r.id + "\n";
    var st1 := FastaState(st.output + pre + h, false, st.chromosomes + {r.id});
    assert FastaRun(st, lines) == FastaRun(st1, ChunkLines(r.chunks)) by {
      HeaderOf(r.id, r.description);
      HeaderStep(st, header);
      assert st.output + pre + ">" + r.id + "\n" == st.output + pre + h by {
        AppendAssoc(st.output + pre, ">", r.id);
        AppendAssoc(st.output + pre, ">" + r.id, "\n");
      }
      assert lines[0] == header && lines[1..] == ChunkLines(r.chunks);
    }
    RunChunks(st1, r.chunks);
    var body := Upper(Concat(r.chunks));
    assert st1.output + body + "\n" == st.output + pre + (h + body + "\n") by {
      AppendAssoc(st.output + pre, h, body);
      AppendAssoc(st.output + pre, h + body, "\n");
    }
  }

  /** Records are written one after the other, each on two lines. */
  lemma {:induction false} RunRecords(st: FastaState, records: seq<FastaRecord>)
    requires |records| >= 1 && forall i :: 0 <= i < |records| ==> WellFormedRecord(records[i])
    ensures var out := FastaRun(st, FileLines(records));
            && out.chromosomes == st.chromosomes + RecordIds(records)
            && out.output + "\n" == st.output + (if st.building then "\n" else "") + OnelineFile(records)
    decreases |records|
  {
    var r, rest := records[0], records[1..];
    var pre := if st.building then "\n" else "";
    var st1 := FastaRun(st, RecordLines(r));
    RunRecord(st, r);
    assert FastaRun(st, FileLines(records)) == FastaRun(st1, FileLines(rest)) by {
      assert FileLines(records) == RecordLines(r) + FileLines(rest);
      FastaRunAppend(st, RecordLines(r), FileLines(rest));
    }
    RecordIdsCons(records);
    assert OnelineFile(records) == OnelineRecord(r) + OnelineFile(rest);
    if rest == [] {
      assert FastaRun(st1, FileLines(rest)) == st1 by {
        assert FileLines(rest) == [];
      }
      assert RecordIds(rest) == {};
      assert OnelineFile(rest) == "";
    } else {
      RunRecords(st1, rest);
      var out := FastaRun(st1, FileLines(rest));
      assert out.output + "\n" == st.output + pre + OnelineRecord(r) + OnelineFile(rest);
      AppendAssoc(st.output + pre, OnelineRecord(r), OnelineFile(rest));
    }
  }

  lemma RecordIdsCons(records: seq<FastaRecord>)
    requires records != []
    ensures RecordIds(records) == {records[0].id} + RecordIds(records[1..])
  {
    var rest := records[1..];
    forall x | x in RecordIds(records) ensures x in {records[0].id} + RecordIds(rest) {
      var i :| 0 <= i < |records| && records[i].id == x;
      if i > 0 {
        assert rest[i - 1] == records[i];
      }
    }
    forall x | x in RecordIds(rest) ensures x in RecordIds(records) {
      var i :| 0 <= i < |rest| && rest[i].id == x;
      assert records[i + 1] == rest[i];
    }
  }

  /** Converting a file of well-formed records writes each record as a header
      line and one upper-cased sequence line, and returns their identifiers. */
  lemma OnelineRoundTrip(records: seq<FastaRecord>)
    requires |records| >= 1 && forall i :: 0 <= i < |records| ==> WellFormedRecord(records[i])
    ensures OnelineFasta(FileLines(records)) == (OnelineFile(records), RecordIds(records))
  {
    RunRecords(Start, records);
    assert Start.output + "" + OnelineFile(records) == OnelineFile(records);
    assert Start.chromosomes + RecordIds(records) == RecordIds(records);
  }

  // ---------------------------------------------------------------------
  // create_genome
  // ---------------------------------------------------------------------

  /** `zip_longest(*[lines] * 2)`: the lines two at a time, the second of
      the last pair missing when the number of lines is odd. */
  function LinePairs(lines: seq<string>): (r: seq<(string, Option<string>)>)
    ensures |lines| % 2 == 0 ==> 2 * |r| == |lines|
    ensures |lines| % 2 == 1 ==> 2 * |r| == |lines| + 1
    ensures forall k :: 0 <= k < |r| ==> r[k].0 == lines[2 * k]
    ensures forall k :: 0 <= k < |r| ==> r[k].1 == if 2 * k + 1 < |lines| then Some(lines[2 * k + 1]) else None
    decreases |lines|
  {
    if |lines| == 0 then []
    else if |lines| == 1 then [(lines[0], None)]
    else [(lines[0], Some(lines[1]))] + LinePairs(lines[2..])
  }

  /** One loop iteration: the header must match (else a
      `CampareeUtilsException` naming the line), the sequence must exist (else
      `rstrip` fails on `None`, an `AttributeError`), and the identifier is
      mapped to the sequence, whitespace stripped on the right and upper-cased. */
  function GenomeEntry(genome: map<string, string>, header: string, sequence: Option<string>): (r: Result<map<string, string>, PyError>)
    ensures r.Success? <==> IsHeader(header) && sequence.Some?
    ensures !IsHeader(header) ==> r == Failure(CampareeUtilsException(BadHeaderMessage(header)))
    ensures IsHeader(header) && sequence.None? ==> r == Failure(AttributeError)
  {
    match HeaderMatch(header)
    case None => Failure(CampareeUtilsException(BadHeaderMessage(header)))
    case Some(id) =>
      match sequence
      case None => Failure(AttributeError)
      case Some(s) => Success(genome[id := Upper(RStrip(s, Whitespace))])
  }

  function BadHeaderMessage(line: string): string {
    "Cannot parse the chromosome from the fasta line " + line + "."
  }

  /** The pairs added in order, later pairs for an identifier winning; the
      first failing pair ends it. */
  function GenomeOfPairs(pairs: seq<(string, Option<string>)>): Result<map<string, string>, PyError>
    decreases |pairs|
  {
    if pairs == [] then Success(map[])
    else
      var before := GenomeOfPairs(pairs[..|pairs| - 1]);
      if before.Failure? then before
      else GenomeEntry(before.value, pairs[|pairs| - 1].0, pairs[|pairs| - 1].1)
  }

  /** The genome of a one-line FASTA file. */
  function Genome(lines: seq<string>): Result<map<string, string>, PyError> {
    GenomeOfPairs(LinePairs(lines))
  }

  /** Build the genome dictionary from a one-line FASTA file. */
  method CreateGenome(lines: seq<string>) returns (r: Result<map<string, string>, PyError>)
    ensures r == Genome(lines)
  {
    var pairs := LinePairs(lines);
    var genome: map<string, string> := map[];
    for k := 0 to |pairs|
      invariant GenomeOfPairs(pairs[..k]) == Success(genome)
    {
      var (header, sequence) := pairs[k];
      GenomeOfPairsNext(pairs, k, genome);
      var m := HeaderMatch(header);
      if m.None? {
        r := Failure(CampareeUtilsException(BadHeaderMessage(header)));
        GenomeFailurePersists(pairs, k + 1);
        return;
      }
      if sequence.None? {
        r := Failure(AttributeError);
        GenomeFailurePersists(pairs, k + 1);
        return;
      }
      genome := genome[m.value := Upper(RStrip(sequence.value, Whitespace))];
    }
    assert pairs[..|pairs|] == pairs;
    r := Success(genome);
  }

  /** One more pair, after a prefix that succeeded, is one more entry. */
  lemma {:induction false} GenomeOfPairsNext(pairs: seq<(string, Option<string>)>, k: nat, genome: map<string, string>)
    requires k < |pairs| && GenomeOfPairs(pairs[..k]) == Success(genome)
    ensures GenomeOfPairs(pairs[..k + 1]) == GenomeEntry(genome, pairs[k].0, pairs[k].1)
  {
    assert pairs[..k + 1][..k] == pairs[..k];
  }

  /** Once a prefix of the pairs fails, all of them fail the same way. */
  lemma {:induction false} GenomeFailurePersists(pairs: seq<(string, Option<string>)>, j: nat)
    requires j <= |pairs| && GenomeOfPairs(pairs[..j]).Failure?
    ensures GenomeOfPairs(pairs) == GenomeOfPairs(pairs[..j])
    decreases |pairs|
  {
    if j == |pairs| {
      assert pairs[..j] == pairs;
    } else {
      var init := pairs[..|pairs| - 1];
      assert init[..j] == pairs[..j];
      GenomeFailurePersists(init, j);
    }
  }

  /** A pair with a matching header and a sequence line. */
  predicate CompletePair(p: (string, Option<string>)) {
    IsHeader(p.0) && p.1.Some?
  }

  predicate AllComplete(pairs: seq<(string, Option<string>)>) {
    forall k :: 0 <= k < |pairs| ==> CompletePair(pairs[k])
  }

  lemma AllCompleteSnoc(pairs: seq<(string, Option<string>)>)
    requires pairs != []
    ensures AllComplete(pairs) <==> AllComplete(pairs[..|pairs| - 1]) && CompletePair(pairs[|pairs| - 1])
  {
    var init := pairs[..|pairs| - 1];
    assert forall k :: 0 <= k < |init| ==> init[k] == pairs[k];
  }

  /** The pairs are added exactly when each has a header and a sequence. */
  lemma {:induction false} GenomeOfPairsSucceeds(pairs: seq<(string, Option<string>)>)
    ensures GenomeOfPairs(pairs).Success? <==> AllComplete(pairs)
    decreases |pairs|
  {
    if pairs != [] {
      GenomeOfPairsSucceeds(pairs[..|pairs| - 1]);
      AllCompleteSnoc(pairs);
    }
  }

  /** The genome is built exactly when the lines alternate header and
      sequence, starting with a header and ending with a sequence. */
  lemma GenomeSucceeds(lines: seq<string>)
    ensures Genome(lines).Success? <==>
              |lines| % 2 == 0 && forall k :: 0 <= k && 2 * k < |lines| ==> IsHeader(lines[2 * k])
  {
    var pairs := LinePairs(lines);
    GenomeOfPairsSucceeds(pairs);
    if |lines| % 2 == 1 {
      assert !CompletePair(pairs[|pairs| - 1]);
    } else {
      forall k | 0 <= k < |pairs| ensures CompletePair(pairs[k]) <==> IsHeader(lines[2 * k]) {
        assert 2 * k + 1 < |lines|;
      }
    }
  }

  /** The first header that does not match names the error. */
  lemma GenomeBadHeader(lines: seq<string>, k: nat)
    requires 2 * k < |lines| && !IsHeader(lines[2 * k])
    requires forall j :: 0 <= j < k ==> IsHeader(lines[2 * j])
    ensures Genome(lines) == Failure(CampareeUtilsException(BadHeaderMessage(lines[2 * k])))
  {
    var pairs := LinePairs(lines);
    var init := pairs[..k];
    forall j | 0 <= j < k ensures CompletePair(init[j]) {
      assert init[j] == pairs[j];
    }
    GenomeOfPairsSucceeds(init);
    assert pairs[..k + 1][..k] == init;
    GenomeFailurePersists(pairs, k + 1);
  }

  /** Headers that all match, with the last one left without a sequence,
      fail on the missing sequence. */
  lemma GenomeMissingSequence(lines: seq<string>)
    requires |lines| % 2 == 1
    requires forall k :: 0 <= k && 2 * k < |lines| ==> IsHeader(lines[2 * k])
    ensures Genome(lines) == Failure(AttributeError)
  {
    var pairs := LinePairs(lines);
    var n := |pairs| - 1;
    assert 2 * n + 1 == |lines|;
    var init := pairs[..n];
    forall k | 0 <= k < |init| ensures CompletePair(init[k]) {
      assert init[k] == pairs[k];
    }
    GenomeOfPairsSucceeds(init);
    assert pairs[n] == (lines[2 * n], None);
  }

  /** The lines of a one-line FASTA file holding `pairs` of identifier and sequence. */
  function GenomeLines(pairs: seq<(string, string)>): (r: seq<string>)
    ensures |r| == 2 * |pairs|
    decreases |pairs|
  {
    if pairs == [] then []
    else [">" + pairs[0].0 + "\n", pairs[0].1 + "\n"] + GenomeLines(pairs[1..])
  }

  /** The header and sequence lines written for identifier/sequence pairs,
      as the loop reads them in pairs. */
  function WrittenPairs(pairs: seq<(string, string)>): (r: seq<(string, Option<string>)>)
    ensures |r| == |pairs|
    ensures forall k :: 0 <= k < |pairs| ==> r[k] == (">" + pairs[k].0 + "\n", Some(pairs[k].1 + "\n"))
  {
    seq(|pairs|, k requires 0 <= k < |pairs| => (">" + pairs[k].0 + "\n", Some(pairs[k].1 + "\n")))
  }

  /** The written pairs of a prefix are a prefix of the written pairs. */
  lemma {:induction false} WrittenPairsInit(pairs: seq<(string, string)>, n: nat)
    requires n <= |pairs|
    ensures WrittenPairs(pairs)[..n] == WrittenPairs(pairs[..n])
  {
  }

  /** The line pairs of such a file are the headers and sequences, in order. */
  lemma {:induction false} GenomeLinePairs(pairs: seq<(string, string)>)
    ensures LinePairs(GenomeLines(pairs)) == WrittenPairs(pairs)
    decreases |pairs|
  {
    if pairs != [] {
      var lines := GenomeLines(pairs);
      GenomeLinePairs(pairs[1..]);
      assert lines[2..] == GenomeLines(pairs[1..]);
    }
  }

  function UpperSequences(pairs: seq<(string, string)>): (r: seq<(string, string)>)
    ensures |r| == |pairs| && forall i :: 0 <= i < |pairs| ==> r[i] == (pairs[i].0, Upper(pairs[i].1))
  {
    seq(|pairs|, i requires 0 <= i < |pairs| => (pairs[i].0, Upper(pairs[i].1)))
  }

  /** Identifiers without whitespace and sequences not ending in whitespace. */
  predicate GenomePair(p: (string, string)) {
    Avoids(p.0, Whitespace) && (p.1 == "" || p.1[|p.1| - 1] !in Whitespace)
  }

  /** The pair of lines written for one identifier and sequence is read back as that entry. */
  lemma GenomeEntryOfPair(genome: map<string, string>, p: (string, string))
    requires GenomePair(p)
    ensures GenomeEntry(genome, ">" + p.0 + "\n", Some(p.1 + "\n")) == Success(genome[p.0 := Upper(p.1)])
  {
    HeaderOf(p.0, "");
    assert ">" + p.0 + "" + "\n" == ">" + p.0 + "\n";
    NewlineIsWhitespace();
    RStripSuffix(p.1, "\n", Whitespace);
  }

  /** Adding the line pairs of identifier/sequence pairs builds their map. */
  lemma {:induction false} GenomeOfWrittenPairs(pairs: seq<(string, string)>)
    requires forall i :: 0 <= i < |pairs| ==> GenomePair(pairs[i])
    ensures GenomeOfPairs(WrittenPairs(pairs)) == Success(MapOfPairs(UpperSequences(pairs)))
    decreases |pairs|
  {
    if pairs != [] {
      var n := |pairs| - 1;
      var init := pairs[..n];
      GenomeOfWrittenPairs(init);
      WrittenPairsInit(pairs, n);
      GenomeEntryOfPair(MapOfPairs(UpperSequences(init)), pairs[n]);
      assert UpperSequences(pairs)[..n] == UpperSequences(init);
    }
  }

  /** Reading back a one-line FASTA file gives each identifier its last
      sequence, upper-cased. */
  lemma GenomeRoundTrip(pairs: seq<(string, string)>)
    requires forall i :: 0 <= i < |pairs| ==> GenomePair(pairs[i])
    ensures Genome(GenomeLines(pairs)) == Success(MapOfPairs(UpperSequences(pairs)))
  {
    GenomeLinePairs(pairs);
    GenomeOfWrittenPairs(pairs);
  }
}
