/** `convert_gtf_to_annot_file_format` on the lines of a GTF file: the exon
    rows are grouped by consecutive `transcript_id`, and each group becomes
    one tab-separated annotation line with its exon coordinates sorted by
    value. The text written and the set of chromosomes are returned together;
    an exception of the Python code is the `Failure` side of the result. */
module GtfConversion {
  import opened Common
  import opened Text
  import opened CampareeUtils
  import opened IntSort

  // ---------------------------------------------------------------------------
  // Attribute extraction: `re.compile(name + ' "([^"]+)";').search(column)`.
  // ---------------------------------------------------------------------------

  const TranscriptIdKey := "transcript_id"
  const GeneIdKey := "gene_id"
  const GeneNameKey := "gene_name"
  const BiotypeKey := "gene_biotype"

  /** The text `name "value";` of one attribute. */
  function AttributeText(name: string, value: string): string {
    name + " \"" + value + "\";"
  }

  /** The pattern tried at the start of `u`: the literal `name "`, then the
      longest run of non-quote characters (at least one), then `";`. A
      shorter run cannot be followed by a quote, so this is the only way the
      pattern can match there. */
  function AttributeMatch(u: string, name: string): Option<string> {
    var open := name + " \"";
    if !(open <= u) then None
    else
      var v := TakeUntil(u[|open|..], {'"'});
      if |v| > 0 && "\";" <= u[|open| + |v|..] then Some(v) else None
  }

  /** `search` from position `p` of `s` on: no match past the end. */
  function AttributeFrom(s: string, name: string, p: nat): Option<string>
    decreases |s| + 1 - p, 1
  {
    if p > |s| then None else AttributeAt(s, name, p)
  }

  /** The pattern tried at position `p`, and failing there, the search from
      the next position. */
  function AttributeAt(s: string, name: string, p: nat): Option<string>
    requires p <= |s|
    decreases |s| + 1 - p, 0
  {
    match AttributeMatch(s[p..], name)
    case Some(v) => Some(v)
    case None => AttributeFrom(s, name, p + 1)
  }

  /** The group of the leftmost match of the pattern for `name`, if any. */
  function Attribute(s: string, name: string): Option<string> {
    AttributeFrom(s, name, 0)
  }

  /** The pattern matches where the attribute text is written, and gives its value. */
  lemma AttributeMatchText(name: string, value: string, rest: string)
    requires |value| > 0 && Avoids(value, {'"'})
    ensures AttributeMatch(AttributeText(name, value) + rest, name) == Some(value)
  {
    var open := name + " \"";
    var u := AttributeText(name, value) + rest;
    var close := "\";" + rest;
    assert u == open + (value + close) by {
      AppendAssoc(open, value, "\";");
      AppendAssoc(open + value, "\";", rest);
      AppendAssoc(open, value, close);
    }
    assert u[|open|..] == value + close;
    TakeUntilPrefix(value, close, {'"'});
    assert u[|open| + |value|..] == close;
  }

  /** `search` finds the leftmost match: an attribute written at `p` with no
      match before it is the one returned. */
  lemma {:induction false} AttributeLeftmost(s: string, name: string, value: string, q: nat, p: nat)
    requires |value| > 0 && Avoids(value, {'"'})
    requires p <= |s| && AttributeText(name, value) <= s[p..]
    requires q <= p && forall j :: q <= j < p ==> AttributeMatch(s[j..], name).None?
    ensures AttributeFrom(s, name, q) == Some(value)
    decreases p - q
  {
    if q < p {
      AttributeLeftmost(s, name, value, q + 1, p);
      assert AttributeFrom(s, name, q) == AttributeAt(s, name, q);
    } else {
      var text := AttributeText(name, value);
      assert s[p..] == text + s[p..][|text|..];
      AttributeMatchText(name, value, s[p..][|text|..]);
      assert AttributeFrom(s, name, q) == AttributeAt(s, name, q);
    }
  }

  /** A literal that does not end in a line break is a prefix of `u` exactly
      when it is one of `u` with a line break appended. */
  lemma PrefixNewline(pat: string, u: string)
    requires pat != [] && pat[|pat| - 1] != '\n'
    ensures (pat <= u + "\n") == (pat <= u)
  {
  }

  /** The trailing line break of an unstripped GTF line never changes a match. */
  lemma AttributeMatchNewline(u: string, name: string)
    ensures AttributeMatch(u + "\n", name) == AttributeMatch(u, name)
  {
    var open := name + " \"";
    var t := u + "\n";
    PrefixNewline(open, u);
    if open <= u {
      var w := u[|open|..];
      assert t[|open|..] == w + "\n";
      TakeUntilAppend(w, "\n", {'"'});
      var v := TakeUntil(w, {'"'});
      if |v| < |w| {
        assert t[|open| + |v|..] == u[|open| + |v|..] + "\n";
        PrefixNewline("\";", u[|open| + |v|..]);
      } else {
        assert TakeUntil("\n", {'"'}) == "\n";
        assert t[|open| + |v| + 1..] == [];
      }
    }
  }

  lemma {:induction false} AttributeFromNewline(s: string, name: string, p: nat)
    requires p <= |s| + 1
    ensures AttributeFrom(s + "\n", name, p) == AttributeFrom(s, name, p)
    decreases |s| + 1 - p
  {
    if p <= |s| {
      assert (s + "\n")[p..] == s[p..] + "\n";
      AttributeMatchNewline(s[p..], name);
      AttributeFromNewline(s, name, p + 1);
      assert AttributeAt(s + "\n", name, p) == AttributeAt(s, name, p);
    } else {
      assert (s + "\n")[p..] == [];
      assert AttributeAt(s + "\n", name, p) == AttributeFrom(s + "\n", name, p + 1) == None;
    }
  }

  /** Searching the last column with or without its line break gives the same value. */
  lemma AttributeNewline(s: string, name: string)
    ensures Attribute(s + "\n", name) == Attribute(s, name)
  {
    AttributeFromNewline(s, name, 0);
  }

  // ---------------------------------------------------------------------------
  // The annotation format.
  // ---------------------------------------------------------------------------

  /** The column names of the annotation format, in order. */
  const AnnotColumns: seq<string> := ["chrom", "strand", "txStart", "txEnd", "exonCount", "exonStarts",
                                      "exonEnds", "transcriptID", "geneID", "geneSymbol", "biotype"]

  /** One annotation line: the values tab-separated, then a line break. */
  function AnnotLine(values: seq<string>): string {
    Join(values, "\t") + "\n"
  }

  /** The first line written: the format string with its braces removed,
      after a `#`. */
  const Header: string := "#" + AnnotLine(AnnotColumns)

  /** No column name holds a tab. */
  lemma ColumnNamesTabFree()
    ensures forall i :: 0 <= i < |AnnotColumns| ==> '\t' !in AnnotColumns[i]
  {
    assert AnnotColumns[0] == "chrom" && '\t' !in "chrom";
    assert AnnotColumns[1] == "strand" && '\t' !in "strand";
    assert AnnotColumns[2] == "txStart" && '\t' !in "txStart";
    assert AnnotColumns[3] == "txEnd" && '\t' !in "txEnd";
    assert AnnotColumns[4] == "exonCount" && '\t' !in "exonCount";
    assert AnnotColumns[5] == "exonStarts" && '\t' !in "exonStarts";
    assert AnnotColumns[6] == "exonEnds" && '\t' !in "exonEnds";
    assert AnnotColumns[7] == "transcriptID" && '\t' !in "transcriptID";
    assert AnnotColumns[8] == "geneID" && '\t' !in "geneID";
    assert AnnotColumns[9] == "geneSymbol" && '\t' !in "geneSymbol";
    assert AnnotColumns[10] == "biotype" && '\t' !in "biotype";
  }

  /** The header: a `#`, then the eleven column names of the format in their
      order, tab-separated, then a line break. */
  lemma HeaderText()
    ensures |Header| >= 2 && Header[0] == '#' && Header[|Header| - 1] == '\n'
    ensures Split(Header[1..|Header| - 1], "\t") == AnnotColumns
  {
    var names := Join(AnnotColumns, "\t");
    assert Header == "#" + names + "\n";
    assert Header[1..|Header| - 1] == names;
    ColumnNamesTabFree();
    JoinThenSplit(AnnotColumns, "\t");
  }

  /** The transcript being collected: the values loaded from its first exon
      line and the coordinates of its exon lines so far. */
  datatype Transcript = Transcript(
    chrom: string, strand: string, id: string, geneId: string, geneSymbol: string, biotype: string,
    starts: seq<string>, stops: seq<string>)

  /** The eleven values of the line of a transcript whose coordinates are
      already sorted; the exon count is the number of exon lines. */
  function RecordValues(t: Transcript, starts: seq<string>, stops: seq<string>): (r: seq<string>)
    requires starts != [] && stops != []
    ensures |r| == |AnnotColumns|
  {
    [t.chrom, t.strand, starts[0], stops[|stops| - 1], IntToString(|t.starts|), Join(starts, ","),
     Join(stops, ","), t.id, t.geneId, t.geneSymbol, t.biotype]
  }

  /** Writing out the collected transcript: both coordinate lists sorted by
      `int` (a `ValueError` for a coordinate that is not an integer), then
      the first start and the last stop. */
  function Flush(t: Transcript): (r: Result<string, PyError>)
    ensures r.Success? <==> AllInts(t.starts) && AllInts(t.stops) && t.starts != [] && t.stops != []
  {
    match SortByInt(t.starts)
    case Failure(e) => Failure(e)
    case Success(starts) =>
      match SortByInt(t.stops)
      case Failure(e) => Failure(e)
      case Success(stops) =>
        if starts == [] || stops == [] then Failure(IndexError)
        else Success(AnnotLine(RecordValues(t, starts, stops)))
  }

  /** The line written for a transcript: `txStart` is the smallest of its
      starts and `txEnd` the largest of its ends by integer value, both
      taken from its exon lines, and `exonCount` is the number of exon
      lines. */
  lemma RecordExtent(t: Transcript)
    requires t.starts != [] && t.stops != []
    ensures var r := RecordValues(t, SortInts(t.starts), SortInts(t.stops));
            && r[2] in t.starts && r[3] in t.stops
            && (forall i :: 0 <= i < |t.starts| ==> IntKey(r[2]) <= IntKey(t.starts[i]))
            && (forall i :: 0 <= i < |t.stops| ==> IntKey(t.stops[i]) <= IntKey(r[3]))
            && r[4] == IntToString(|t.starts|)
  {
    RecordExtentBy(t, IntKey);
  }

  /** The same for any sort key. */
  lemma RecordExtentBy(t: Transcript, key: string -> int)
    requires t.starts != [] && t.stops != []
    ensures var r := RecordValues(t, SortBy(t.starts, key), SortBy(t.stops, key));
            && r[2] in t.starts && r[3] in t.stops
            && (forall i :: 0 <= i < |t.starts| ==> key(r[2]) <= key(t.starts[i]))
            && (forall i :: 0 <= i < |t.stops| ==> key(t.stops[i]) <= key(r[3]))
            && r[4] == IntToString(|t.starts|)
  {
    SortByEnds(t.starts, key);
    SortByEnds(t.stops, key);
  }

  /** Starting a transcript from the columns of its first exon line: the
      gene id is required, the gene name and biotype default to `"None"`. */
  function Load(columns: seq<string>, id: string): (r: Result<Transcript, PyError>)
    requires |columns| >= 9
    ensures r.Success? <==> Attribute(columns[8], GeneIdKey).Some?
    ensures r.Failure? ==> r.error == AttributeError
    ensures r.Success? ==> r.value.starts == [columns[3]] && r.value.stops == [columns[4]]
  {
    match Attribute(columns[8], GeneIdKey)
    case None => Failure(AttributeError)
    case Some(geneId) =>
      Success(Transcript(columns[0], columns[6], id, geneId,
                         Attribute(columns[8], GeneNameKey).GetOr("None"),
                         Attribute(columns[8], BiotypeKey).GetOr("None"),
                         [columns[3]], [columns[4]]))
  }

  // ---------------------------------------------------------------------------
  // The conversion as a state machine over the lines.
  // ---------------------------------------------------------------------------

  /** What the second loop carries: the transcript being collected, the text
      written so far and the chromosomes seen. */
  datatype Converter = Converter(current: Transcript, output: string, chromosomes: set<string>)

  /** One line after the first exon line, stripped of its line breaks and
      cut into columns. */
  function Step(st: Converter, line: string): Result<Converter, PyError> {
    StepColumns(st, Split(RStrip(line, {'\n'}), "\t"))
  }

  /** Fewer than three columns is an `IndexError`; a feature other than
      `exon` is skipped; an exon line with fewer than nine columns is an
      `IndexError` and one without a transcript id an `AttributeError`. The
      same transcript id adds the coordinates; a new one writes the
      collected transcript and starts the next one. */
  function StepColumns(st: Converter, columns: seq<string>): Result<Converter, PyError> {
    if |columns| < 3 then Failure(IndexError)
    else if columns[2] != "exon" then Success(st)
    else if |columns| < 9 then Failure(IndexError)
    else
      match Attribute(columns[8], TranscriptIdKey)
      case None => Failure(AttributeError)
      case Some(id) =>
        if id == st.current.id then Success(st.(current := AddExon(st.current, columns)))
        else Switch(st, columns, id)
  }

  /** Another exon line of the same transcript. */
  function AddExon(t: Transcript, columns: seq<string>): (r: Transcript)
    requires |columns| >= 9
    ensures |r.starts| == |t.starts| + 1 && |r.stops| == |t.stops| + 1
  {
    t.(starts := t.starts + [columns[3]], stops := t.stops + [columns[4]])
  }

  /** The first exon line of another transcript: the collected one is written
      (sorting first), then the new one is loaded. */
  function Switch(st: Converter, columns: seq<string>, id: string): Result<Converter, PyError>
    requires |columns| >= 9
  {
    match Flush(st.current)
    case Failure(e) => Failure(e)
    case Success(record) =>
      match Load(columns, id)
      case Failure(e) => Failure(e)
      case Success(next) => Success(Converter(next, st.output + record, st.chromosomes + {next.chrom}))
  }

  /** A loop over the lines from line `k` on that steps a state with `step`
      and, after the last line, ends with `finish`; the first exception
      ends it. */
  function Run(step: (Converter, string) -> Result<Converter, PyError>,
               finish: Converter -> Result<(string, set<string>), PyError>,
               st: Converter, lines: seq<string>, k: nat): Result<(string, set<string>), PyError>
    requires k <= |lines|
    decreases |lines| - k, 1
  {
    if k == |lines| then finish(st) else RunLine(step, finish, st, lines, k)
  }

  /** One pass of such a loop, then the rest of the loop. */
  function RunLine(step: (Converter, string) -> Result<Converter, PyError>,
                   finish: Converter -> Result<(string, set<string>), PyError>,
                   st: Converter, lines: seq<string>, k: nat): Result<(string, set<string>), PyError>
    requires k < |lines|
    decreases |lines| - k, 0
  {
    match step(st, lines[k])
    case Failure(e) => Failure(e)
    case Success(next) => Run(step, finish, next, lines, k + 1)
  }

  /** The second loop from line `k` on, then the write of the last
      transcript. */
  function RunFrom(st: Converter, lines: seq<string>, k: nat): Result<(string, set<string>), PyError>
    requires k <= |lines|
  {
    Run(Step, Finish, st, lines, k)
  }

  /** A line of the first loop, not stripped, that ends it. */
  predicate IsExonLine(line: string) {
    var columns := Split(line, "\t");
    |columns| > 2 && columns[2] == "exon"
  }

  function NoExonMessage(filename: string): string {
    "ERROR: " + filename + " contains no lines with exon feature_type.\n"
  }

  /** The first loop from line `i` on: a line of one column is skipped, a
      line of exactly two columns is an `IndexError` (its third column is
      read), and the first exon line ends the search. */
  function FindExon(lines: seq<string>, filename: string, i: nat): (r: Result<nat, PyError>)
    requires i <= |lines|
    ensures r.Success? ==> i <= r.value < |lines| && IsExonLine(lines[r.value])
    decreases |lines| - i
  {
    if i == |lines| then Failure(CampareeUtilsException(NoExonMessage(filename)))
    else
      var columns := Split(lines[i], "\t");
      if |columns| <= 1 then FindExon(lines, filename, i + 1)
      else if |columns| == 2 then Failure(IndexError)
      else if columns[2] == "exon" then Success(i)
      else FindExon(lines, filename, i + 1)
  }

  /** Priming from the first exon line (not stripped): nine columns and a
      transcript id are needed before the transcript is loaded. */
  function Prime(columns: seq<string>): Result<Transcript, PyError> {
    if |columns| < 9 then Failure(IndexError)
    else
      match Attribute(columns[8], TranscriptIdKey)
      case None => Failure(AttributeError)
      case Some(id) => Load(columns, id)
  }

  /** After the second loop: the last transcript is written. */
  function Finish(st: Converter): Result<(string, set<string>), PyError> {
    match Flush(st.current)
    case Failure(e) => Failure(e)
    case Success(record) => Success((st.output + record, st.chromosomes))
  }

  /** The whole conversion: the text written (header first) and the set of
      chromosomes, or the exception that ends it. */
  function Convert(lines: seq<string>, filename: string): Result<(string, set<string>), PyError> {
    match FindExon(lines, filename, 0)
    case Failure(e) => Failure(e)
    case Success(i) => ConvertFrom(lines, i)
  }

  /** The conversion once the first loop stopped at the exon line `i`. */
  function ConvertFrom(lines: seq<string>, i: nat): Result<(string, set<string>), PyError>
    requires i < |lines|
  {
    match Prime(Split(lines[i], "\t"))
    case Failure(e) => Failure(e)
    case Success(first) => RunFrom(Converter(first, Header, {first.chrom}), lines, i + 1)
  }

  /** Flushing a transcript whose coordinates sort: the line of its sorted coordinates. */
  lemma FlushSorted(t: Transcript, starts: seq<string>, stops: seq<string>)
    requires SortByInt(t.starts) == Success(starts) && SortByInt(t.stops) == Success(stops)
    requires t.starts != [] && t.stops != []
    ensures |starts| == |t.starts| && |stops| == |t.stops|
    ensures Flush(t) == Success(AnnotLine([t.chrom, t.strand, starts[0], stops[|stops| - 1], IntToString(|t.starts|),
                                           Join(starts, ","), Join(stops, ","), t.id, t.geneId, t.geneSymbol, t.biotype]))
  {
  }

  /** Loading a transcript whose gene id is present. */
  lemma LoadFound(columns: seq<string>, id: string, geneId: string)
    requires |columns| >= 9 && Attribute(columns[8], GeneIdKey) == Some(geneId)
    ensures Load(columns, id) == Success(Transcript(columns[0], columns[6], id, geneId,
                                                    Attribute(columns[8], GeneNameKey).GetOr("None"),
                                                    Attribute(columns[8], BiotypeKey).GetOr("None"),
                                                    [columns[3]], [columns[4]]))
  {
  }

  /** The first loop's exception is the conversion's. */
  lemma ConvertNoExon(lines: seq<string>, filename: string)
    requires FindExon(lines, filename, 0).Failure?
    ensures Convert(lines, filename) == Failure(FindExon(lines, filename, 0).error)
  {
  }

  /** So is an exception while priming from the first exon line. */
  lemma ConvertUnprimed(lines: seq<string>, filename: string, i: nat)
    requires FindExon(lines, filename, 0) == Success(i)
    requires Prime(Split(lines[i], "\t")).Failure?
    ensures Convert(lines, filename) == Failure(Prime(Split(lines[i], "\t")).error)
  {
    assert Convert(lines, filename) == ConvertFrom(lines, i);
  }

  /** The line break the first exon line keeps changes nothing loaded from it. */
  lemma LoadNewline(unstripped: seq<string>, columns: seq<string>, id: string)
    requires |columns| >= 9 && |unstripped| >= 9
    requires unstripped[..8] == columns[..8] && unstripped[8] == columns[8] + "\n"
    ensures Load(unstripped, id) == Load(columns, id)
  {
    assert unstripped[0] == columns[0] && unstripped[3] == columns[3];
    assert unstripped[4] == columns[4] && unstripped[6] == columns[6];
    AttributeNewline(columns[8], GeneIdKey);
    AttributeNewline(columns[8], GeneNameKey);
    AttributeNewline(columns[8], BiotypeKey);
  }

  /** Once the first exon line is found and primes a transcript, the
      conversion is the second loop from the next line, then the last flush. */
  lemma ConvertPrimed(lines: seq<string>, filename: string, i: nat, first: Transcript)
    requires FindExon(lines, filename, 0) == Success(i)
    requires Prime(Split(lines[i], "\t")) == Success(first)
    ensures Convert(lines, filename) == RunFrom(Converter(first, Header, {first.chrom}), lines, i + 1)
  {
    assert Convert(lines, filename) == ConvertFrom(lines, i);
  }

  /** The block the source repeats at a change of transcript and at the end
      of the file: sort both coordinate lists by `int`, then format the line. */
  method WriteTranscript(t: Transcript) returns (r: Result<string, PyError>)
    ensures r == Flush(t)
  {
    var exStarts, exStops := t.starts, t.stops;
    var sortedStarts := SortByInt(exStarts);
    if sortedStarts.Failure? {
      return Failure(ValueError);
    }
    exStarts := sortedStarts.value;
    var sortedStops := SortByInt(exStops);
    if sortedStops.Failure? {
      return Failure(ValueError);
    }
    exStops := sortedStops.value;
    if exStarts == [] || exStops == [] {
      return Failure(IndexError);
    }
    FlushSorted(t, exStarts, exStops);
    return Success(AnnotLine([t.chrom, t.strand, exStarts[0], exStops[|exStops| - 1], IntToString(|t.starts|),
                              Join(exStarts, ","), Join(exStops, ","), t.id, t.geneId, t.geneSymbol, t.biotype]));
  }

  /** The first loop: the index of the first exon line, or the exception
      that ends the search. */
  method FirstExonLine(lines: seq<string>, filename: string) returns (r: Result<nat, PyError>)
    ensures r == FindExon(lines, filename, 0)
  {
    var i := 0;
    while i < |lines|
      invariant 0 <= i <= |lines|
      invariant FindExon(lines, filename, i) == FindExon(lines, filename, 0)
    {
      var lineData := Split(lines[i], "\t");
      if |lineData| > 1 {
        if |lineData| == 2 {
          return Failure(IndexError);
        }
        if lineData[2] == "exon" {
          return Success(i);
        }
      }
      i := i + 1;
    }
    return Failure(CampareeUtilsException(NoExonMessage(filename)));
  }

  /** A line whose third column is not `exon` leaves the state as it is. */
  lemma StepSkipped(st: Converter, columns: seq<string>)
    requires |columns| >= 3 && columns[2] != "exon"
    ensures StepColumns(st, columns) == Success(st)
  {
  }

  /** An exon line of the current transcript adds its coordinates. */
  lemma StepSameTranscript(st: Converter, columns: seq<string>)
    requires |columns| >= 9 && columns[2] == "exon"
    requires Attribute(columns[8], TranscriptIdKey) == Some(st.current.id)
    ensures StepColumns(st, columns) == Success(st.(current := AddExon(st.current, columns)))
  {
  }

  /** An exon line of another transcript writes the current one and loads the next. */
  lemma StepNewTranscript(st: Converter, columns: seq<string>, id: string, record: string, next: Transcript)
    requires |columns| >= 9 && columns[2] == "exon"
    requires Attribute(columns[8], TranscriptIdKey) == Some(id) && id != st.current.id
    requires Flush(st.current) == Success(record) && Load(columns, id) == Success(next)
    ensures StepColumns(st, columns) == Success(Converter(next, st.output + record, st.chromosomes + {next.chrom}))
  {
  }

  /** A transcript whose coordinates are all integers is written as the line
      of its sorted coordinates. */
  lemma FlushAllInts(t: Transcript)
    requires AllInts(t.starts) && AllInts(t.stops) && t.starts != [] && t.stops != []
    ensures |SortInts(t.starts)| == |t.starts| && |SortInts(t.stops)| == |t.stops|
    ensures Flush(t) == Success(AnnotLine(RecordValues(t, SortInts(t.starts), SortInts(t.stops))))
  {
    FlushSorted(t, SortInts(t.starts), SortInts(t.stops));
  }

  /** A line the second loop fails on ends the conversion with its exception. */
  lemma StepFails(st: Converter, lines: seq<string>, k: nat)
    requires k < |lines| && Step(st, lines[k]).Failure?
    ensures RunFrom(st, lines, k) == Failure(Step(st, lines[k]).error)
  {
    assert Run(Step, Finish, st, lines, k) == RunLine(Step, Finish, st, lines, k);
  }

  /** A line the second loop gets past hands the next state on. */
  lemma StepSucceeds(st: Converter, lines: seq<string>, k: nat, m: nat, line: string, next: Converter)
    requires k < m == k + 1 <= |lines| && lines[k] == line
    requires Step(st, line) == Success(next)
    ensures RunFrom(st, lines, k) == RunFrom(next, lines, m)
  {
    assert Run(Step, Finish, st, lines, k) == RunLine(Step, Finish, st, lines, k);
  }

  /** Loading a transcript from its first exon line, as the source does
      before the second loop and on every new transcript id: the gene id is
      required, the gene name and biotype default to `"None"`. */
  method LoadTranscript(lineData: seq<string>, txid: string) returns (r: Result<Transcript, PyError>)
    requires |lineData| >= 9
    ensures r == Load(lineData, txid)
  {
    var chrom, strand := lineData[0], lineData[6];
    var exStarts, exStops := [lineData[3]], [lineData[4]];
    var geneMatch := Attribute(lineData[8], GeneIdKey);
    if geneMatch.None? {
      return Failure(AttributeError);
    }
    var geneId := geneMatch.value;
    var geneSymbol, biotype := "None", "None";
    var symbolMatch := Attribute(lineData[8], GeneNameKey);
    if symbolMatch.Some? {
      geneSymbol := symbolMatch.value;
    }
    var biotypeMatch := Attribute(lineData[8], BiotypeKey);
    if biotypeMatch.Some? {
      biotype := biotypeMatch.value;
    }
    LoadFound(lineData, txid, geneId);
    return Success(Transcript(chrom, strand, txid, geneId, geneSymbol, biotype, exStarts, exStops));
  }

  /** One pass of the second loop: the line is stripped of its trailing
      newlines and split on tabs, then an exon line of the current
      transcript adds its coordinates and one of another transcript writes
      the current one and loads the next. */
  method ReadLine(st: Converter, line: string) returns (r: Result<Converter, PyError>)
    ensures r == Step(st, line)
  {
    var lineData := Split(RStrip(line, {'\n'}), "\t");
    if |lineData| < 3 {
      return Failure(IndexError);
    }
    if lineData[2] != "exon" {
      return Success(st);
    }
    if |lineData| < 9 {
      return Failure(IndexError);
    }
    var currMatch := Attribute(lineData[8], TranscriptIdKey);
    if currMatch.None? {
      return Failure(AttributeError);
    }
    var currTx := currMatch.value;
    if currTx == st.current.id {
      var t := st.current;
      return Success(st.(current := t.(starts := t.starts + [lineData[3]], stops := t.stops + [lineData[4]])));
    }
    var record := WriteTranscript(st.current);
    if record.Failure? {
      return Failure(record.error);
    }
    var next := LoadTranscript(lineData, currTx);
    if next.Failure? {
      return Failure(next.error);
    }
    return Success(Converter(next.value, st.output + record.value, st.chromosomes + {next.value.chrom}));
  }

  /** Priming from the first exon line, before the second loop. */
  method PrimeTranscript(lineData: seq<string>) returns (r: Result<Transcript, PyError>)
    ensures r == Prime(lineData)
  {
    if |lineData| < 9 {
      return Failure(IndexError);
    }
    var txidMatch := Attribute(lineData[8], TranscriptIdKey);
    if txidMatch.None? {
      return Failure(AttributeError);
    }
    r := LoadTranscript(lineData, txidMatch.value);
  }

  /** The second loop from line `k` on, then the write of the last transcript. */
  method GroupExonLines(st0: Converter, lines: seq<string>, k0: nat)
    returns (r: Result<(string, set<string>), PyError>)
    requires k0 <= |lines|
    ensures r == RunFrom(st0, lines, k0)
  {
    var st, k := st0, k0;
    while k < |lines|
      invariant k0 <= k <= |lines|
      invariant RunFrom(st, lines, k) == RunFrom(st0, lines, k0)
    {
      var next := ReadLine(st, lines[k]);
      if next.Failure? {
        StepFails(st, lines, k);
        return Failure(next.error);
      }
      StepSucceeds(st, lines, k, k + 1, lines[k], next.value);
      st, k := next.value, k + 1;
    }
    var record := WriteTranscript(st.current);
    if record.Failure? {
      return Failure(record.error);
    }
    return Success((st.output + record.value, st.chromosomes));
  }

  /** The conversion as the two loops of the source: the first finds the
      first exon line, which primes the state; the second groups the exon
      lines by transcript and writes each finished transcript; the last
      transcript is written after the loop. The header is written first. */
  method ConvertGtfToAnnotFileFormat(lines: seq<string>, filename: string)
    returns (r: Result<(string, set<string>), PyError>)
    ensures r == Convert(lines, filename)
  {
    var found := FirstExonLine(lines, filename);
    if found.Failure? {
      ConvertNoExon(lines, filename);
      return Failure(found.error);
    }
    var i := found.value;
    var first := PrimeTranscript(Split(lines[i], "\t"));
    if first.Failure? {
      ConvertUnprimed(lines, filename, i);
      return Failure(first.error);
    }
    ConvertPrimed(lines, filename, i, first.value);
    r := GroupExonLines(Converter(first.value, Header, {first.value.chrom}), lines, i + 1);
  }
}
