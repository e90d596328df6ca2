/** The GTF conversion run on the lines of well-formed GTF rows, after any
    number of header lines without a tab: it writes the header, then one
    annotation line per maximal run of exons with one transcript id, and
    returns the chromosomes of the runs; with no exon at all it raises the
    conversion's own exception. */
module GtfRuns {
  import opened Common
  import opened Text
  import opened CampareeUtils
  import opened GtfConversion
  import opened GtfGrouping

  // ---------------------------------------------------------------------------
  // The second loop, one row at a time.
  // ---------------------------------------------------------------------------

  /** The second loop's state once the runs `gs` have been read: the last
      run is being collected, the earlier ones are written after the
      header, and the chromosomes are those of all the runs. */
  function State(gs: seq<seq<Row>>): (st: Converter)
    requires gs != [] && forall i :: 0 <= i < |gs| ==> gs[i] != []
    ensures st.current.id == TxId(gs[|gs| - 1][0]) && st.current.chrom == gs[|gs| - 1][0].seqname
  {
    Converter(TranscriptOf(gs[|gs| - 1]), Header + Records(gs[..|gs| - 1]), Chromosomes(gs))
  }

  /** The state after the rows `rows`, once one of them was an exon. */
  function Expected(rows: seq<Row>): Converter
    requires Exons(rows) != []
  {
    State(Groups(Exons(rows), TxId))
  }

  /** The second loop reads the line of a row as the columns of the row. */
  lemma {:induction false} StepRowLine(st: Converter, r: Row)
    requires CleanCells(r)
    ensures Step(st, RowLine(r)) == StepColumns(st, Columns(r))
  {
    RowLineStripped(r);
  }

  /** The columns of a row that is not an exon leave any state as it is. */
  lemma {:induction false} SkipColumns(st: Converter, r: Row)
    requires !IsExon(r)
    ensures StepColumns(st, Columns(r)) == Success(st)
  {
    StepSkipped(st, Columns(r));
  }

  /** A row that is not an exon leaves any state as it is. */
  lemma {:induction false} StepOther(st: Converter, r: Row)
    requires CleanCells(r) && !IsExon(r)
    ensures Step(st, RowLine(r)) == Success(st)
  {
    StepRowLine(st, r);
    SkipColumns(st, r);
  }

  /** The columns of an exon row, as the second loop reads them. */
  lemma {:induction false} ExonColumns(r: Row)
    requires IsExon(r)
    ensures Columns(r)[2] == "exon" && Columns(r)[8] == r.attributes
  {
  }

  /** An exon of the collected transcript's id adds its coordinates, as
      one more row of its run. */
  lemma {:induction false} StepSame(g: seq<Row>, output: string, chromosomes: set<string>, r: Row)
    requires g != [] && IsExon(r) && Attribute(r.attributes, TranscriptIdKey) == Some(TxId(g[0]))
    ensures StepColumns(Converter(TranscriptOf(g), output, chromosomes), Columns(r))
            == Success(Converter(TranscriptOf(g + [r]), output, chromosomes))
  {
    ExonColumns(r);
    StepSameTranscript(Converter(TranscriptOf(g), output, chromosomes), Columns(r));
    TranscriptSnoc(g, r);
  }

  /** An exon of another id writes the line of the run collected so far and
      starts a run of its own, adding its chromosome. */
  lemma {:induction false} StepNew(g: seq<Row>, output: string, chromosomes: set<string>, r: Row)
    requires g != [] && GoodRun(g) && GoodExon(r) && TxId(r) != TxId(g[0])
    ensures StepColumns(Converter(TranscriptOf(g), output, chromosomes), Columns(r))
            == Success(Converter(TranscriptOf([r]), output + RecordOf(g), chromosomes + {r.seqname}))
  {
    FlushRun(g);
    LoadRow(r);
    ExonColumns(r);
    StepNewTranscript(Converter(TranscriptOf(g), output, chromosomes), Columns(r), TxId(r), RecordOf(g), TranscriptOf([r]));
  }

  /** The state of runs whose last run grows by one row. */
  lemma {:induction false} StateExtend(gs: seq<seq<Row>>, r: Row)
    requires gs != [] && forall i :: 0 <= i < |gs| ==> gs[i] != []
    ensures var gs' := gs[..|gs| - 1] + [gs[|gs| - 1] + [r]];
            && (forall i :: 0 <= i < |gs'| ==> gs'[i] != [])
            && State(gs') == State(gs).(current := TranscriptOf(gs[|gs| - 1] + [r]))
  {
    var n := |gs|;
    var gs' := gs[..n - 1] + [gs[n - 1] + [r]];
    assert gs'[..n - 1] == gs[..n - 1];
  }

  /** The state of runs with one more run of one row. */
  lemma {:induction false} StateStart(gs: seq<seq<Row>>, r: Row)
    requires gs != [] && forall i :: 0 <= i < |gs| ==> gs[i] != []
    ensures var st := State(gs);
            State(gs + [[r]]) == Converter(TranscriptOf([r]), st.output + RecordOf(gs[|gs| - 1]),
                                           st.chromosomes + {r.seqname})
  {
    var n := |gs|;
    assert (gs + [[r]])[..n] == gs;
    AppendAssoc(Header, Records(gs[..n - 1]), RecordOf(gs[n - 1]));
  }

  /** An exon row of well-formed runs: the state of the runs it is pushed on. */
  lemma {:induction false} StepExon(gs: seq<seq<Row>>, r: Row)
    requires gs != [] && (forall i :: 0 <= i < |gs| ==> gs[i] != []) && GoodRun(gs[|gs| - 1])
    requires GoodExon(r)
    ensures Step(State(gs), RowLine(r)) == Success(State(Push(gs, r, TxId)))
  {
    var last, st := gs[|gs| - 1], State(gs);
    StepRowLine(st, r);
    if Joins(gs, r, TxId) {
      StepSame(last, st.output, st.chromosomes, r);
      StateExtend(gs, r);
    } else {
      StepNew(last, st.output, st.chromosomes, r);
      StateStart(gs, r);
    }
  }

  /** The row before row `n`, when well-formed, takes the state of the rows
      before it to the state of the rows up to `n`. */
  lemma {:induction false} StepRow(rows: seq<Row>, k: nat, n: nat)
    requires n == k + 1 && n <= |rows| && Exons(rows[..k]) != []
    requires forall i :: 0 <= i < |rows| ==> WellFormed(rows[i])
    ensures Exons(rows[..n]) != []
    ensures Step(Expected(rows[..k]), RowLine(rows[k])) == Success(Expected(rows[..n]))
  {
    var e, r := Exons(rows[..k]), rows[k];
    ExonsTake(rows, k, n);
    if !IsExon(r) {
      assert Exons(rows[..n]) == e;
      StepOther(Expected(rows[..k]), r);
    } else {
      var gs := Groups(e, TxId);
      assert Exons(rows[..n]) == e + [r];
      GroupsSnoc(e, r, TxId);
      ExonsGood(rows[..k]);
      GroupsKeep(e, TxId, GoodExon);
      LastGood(gs);
      StepExon(gs, r);
    }
  }

  /** `lines` is a file of the header lines `pre` followed by the lines of
      the rows `rows`. */
  predicate FileOf(lines: seq<string>, pre: seq<string>, rows: seq<Row>) {
    && |lines| == |pre| + |rows|
    && (forall k {:trigger lines[k]} :: 0 <= k < |pre| ==> lines[k] == pre[k])
    && (forall k {:trigger RowLine(rows[k])} :: 0 <= k < |rows| ==> lines[|pre| + k] == RowLine(rows[k]))
  }

  /** The header lines, then the lines of the rows, make such a file. */
  lemma {:induction false} FileOfRows(pre: seq<string>, rows: seq<Row>)
    ensures FileOf(pre + RowLines(rows), pre, rows)
  {
    var lines := pre + RowLines(rows);
    forall k | 0 <= k < |rows| ensures lines[|pre| + k] == RowLine(rows[k]) {
    }
  }

  /** The line of row `k` is line `i`, after the header lines. */
  lemma {:induction false} LineAt(lines: seq<string>, pre: seq<string>, rows: seq<Row>, k: nat, i: nat)
    requires FileOf(lines, pre, rows) && k < |rows| && i == |pre| + k
    ensures i < |lines| && lines[i] == RowLine(rows[k])
  {
  }

  /** A loop over the rows from row `k` (line `i`) on, for any step and
      finish functions and any choice `E` of a state per prefix of the rows
      that each further row steps forward: it finishes the state of all the
      rows. */
  lemma {:induction false} RunPrefixes(step: (Converter, string) -> Result<Converter, PyError>,
                                       finish: Converter -> Result<(string, set<string>), PyError>,
                                       E: seq<Row> -> Converter, lines: seq<string>, pre: seq<string>,
                                       rows: seq<Row>, k: nat, i: nat)
    requires FileOf(lines, pre, rows) && k <= |rows| && i == |pre| + k
    requires forall m {:trigger step(E(rows[..m]), RowLine(rows[m]))} :: k <= m < |rows| ==>
               step(E(rows[..m]), RowLine(rows[m])) == Success(E(rows[..m + 1]))
    ensures Run(step, finish, E(rows[..k]), lines, i) == finish(E(rows))
    decreases |rows| - k
  {
    if k == |rows| {
      assert rows[..k] == rows;
    } else {
      LineAt(lines, pre, rows, k, i);
      RunPrefixes(step, finish, E, lines, pre, rows, k + 1, i + 1);
    }
  }

  /** The loop from the row after row `j`, naming the first and the last state. */
  lemma {:induction false} RunAfter(step: (Converter, string) -> Result<Converter, PyError>,
                                    finish: Converter -> Result<(string, set<string>), PyError>,
                                    E: seq<Row> -> Converter, lines: seq<string>, pre: seq<string>,
                                    rows: seq<Row>, j: nat, first: Converter, last: Converter)
    requires FileOf(lines, pre, rows) && j < |rows| && E(rows[..j + 1]) == first && E(rows) == last
    requires forall m {:trigger step(E(rows[..m]), RowLine(rows[m]))} :: j < m < |rows| ==>
               step(E(rows[..m]), RowLine(rows[m])) == Success(E(rows[..m + 1]))
    ensures Run(step, finish, first, lines, |pre| + j + 1) == finish(last)
  {
    RunPrefixes(step, finish, E, lines, pre, rows, j + 1, |pre| + j + 1);
  }

  /** The state after the rows `rows`, once one of them was an exon (before
      that, the second loop has not started and the value is a placeholder). */
  function Reached(rows: seq<Row>): Converter {
    if Exons(rows) == [] then Converter(Transcript("", "", "", "", "", "", [], []), Header, {})
    else Expected(rows)
  }

  /** Once an exon was read, the state reached is the expected one. */
  lemma {:induction false} ReachedIs(rows: seq<Row>)
    requires Exons(rows) != []
    ensures Reached(rows) == Expected(rows)
  {
  }

  /** Every row after the first exon row steps the state reached before it
      to the state reached after it. */
  lemma {:induction false} StepsReached(rows: seq<Row>, j: nat)
    requires j < |rows| && IsExon(rows[j])
    requires forall k :: 0 <= k < |rows| ==> WellFormed(rows[k])
    ensures forall m {:trigger Step(Reached(rows[..m]), RowLine(rows[m]))} :: j < m < |rows| ==>
              Step(Reached(rows[..m]), RowLine(rows[m])) == Success(Reached(rows[..m + 1]))
  {
    forall m | j < m < |rows|
      ensures Step(Reached(rows[..m]), RowLine(rows[m])) == Success(Reached(rows[..m + 1]))
    {
      assert rows[..m][j] == rows[j];
      ExonsHas(rows[..m], j);
      StepRow(rows, m, m + 1);
    }
  }

  /** The second loop from the row after the first exon ends in the state
      of all the rows. */
  lemma {:induction false} RunRows(lines: seq<string>, pre: seq<string>, rows: seq<Row>, j: nat)
    requires FileOf(lines, pre, rows) && j < |rows| && IsExon(rows[j])
    requires forall k :: 0 <= k < |rows| ==> WellFormed(rows[k])
    ensures Exons(rows[..j + 1]) != [] && Exons(rows) != []
    ensures RunFrom(Expected(rows[..j + 1]), lines, |pre| + j + 1) == Finish(Expected(rows))
  {
    assert rows[..j + 1][j] == rows[j];
    ExonsHas(rows[..j + 1], j);
    ExonsHas(rows, j);
    StepsReached(rows, j);
    ReachedIs(rows[..j + 1]);
    ReachedIs(rows);
    RunAfter(Step, Finish, Reached, lines, pre, rows, j, Expected(rows[..j + 1]), Expected(rows));
  }

  /** Finishing writes the record of the current transcript after the output. */
  lemma {:induction false} FinishWith(st: Converter, record: string, head: string, body: string, all: string)
    requires Flush(st.current) == Success(record)
    requires st.output == head + body && all == body + record
    ensures Finish(st) == Success((head + all, st.chromosomes))
  {
    AppendAssoc(head, body, record);
  }

  /** After the loop, the last run is written too. */
  lemma {:induction false} FinishState(gs: seq<seq<Row>>)
    requires gs != [] && (forall i :: 0 <= i < |gs| ==> gs[i] != []) && GoodRun(gs[|gs| - 1])
    ensures Finish(State(gs)) == Success((Header + Records(gs), Chromosomes(gs)))
  {
    var last := gs[|gs| - 1];
    FlushRun(last);
    FinishWith(State(gs), RecordOf(last), Header, Records(gs[..|gs| - 1]), Records(gs));
  }

  // ---------------------------------------------------------------------------
  // The first loop.
  // ---------------------------------------------------------------------------

  /** A line the first loop reads past: one column, or a third column other
      than `exon`. */
  predicate Passed(line: string) {
    var columns := Split(line, "\t");
    |columns| <= 1 || (|columns| > 2 && columns[2] != "exon")
  }

  /** The first loop reads past lines it passes. */
  lemma {:induction false} FindExonPasses(lines: seq<string>, filename: string, i: nat, m: nat)
    requires i <= m <= |lines|
    requires forall k :: i <= k < m ==> Passed(lines[k])
    ensures FindExon(lines, filename, i) == FindExon(lines, filename, m)
    decreases m - i
  {
    if i < m {
      FindExonPasses(lines, filename, i + 1, m);
    }
  }

  /** The header lines and the rows before the first exon are passed. */
  lemma {:induction false} PrefixPassed(lines: seq<string>, pre: seq<string>, rows: seq<Row>, j: nat)
    requires FileOf(lines, pre, rows)
    requires forall i :: 0 <= i < |pre| ==> Preamble(pre[i])
    requires forall i :: 0 <= i < |rows| ==> WellFormed(rows[i])
    requires j <= |rows| && forall i :: 0 <= i < j ==> !IsExon(rows[i])
    ensures forall k :: 0 <= k < |pre| + j ==> Passed(lines[k])
  {
    forall k | 0 <= k < |pre| + j ensures Passed(lines[k]) {
      if k < |pre| {
        PreambleColumns(pre[k]);
      } else {
        var r := rows[k - |pre|];
        LineAt(lines, pre, rows, k - |pre|, k);
        RowLineUnstripped(r);
      }
    }
  }

  /** The state of a single run of one row. */
  lemma {:induction false} StateOne(r: Row)
    ensures State([[r]]) == Converter(TranscriptOf([r]), Header, {r.seqname})
  {
    assert [[r]][..0] == [];
    assert Records([]) == "" && Chromosomes([]) == {};
    assert Header + "" == Header;
  }

  /** The first exon row primes the state of the rows up to it. */
  lemma {:induction false} FirstState(rows: seq<Row>, j: nat)
    requires j < |rows| && IsExon(rows[j]) && forall i :: 0 <= i < j ==> !IsExon(rows[i])
    ensures Exons(rows[..j + 1]) == [rows[j]]
    ensures Expected(rows[..j + 1]) == Converter(TranscriptOf([rows[j]]), Header, {rows[j].seqname})
  {
    ExonsNone(rows[..j]);
    ExonsSnoc(rows[..j], rows[j]);
    assert rows[..j + 1] == rows[..j] + [rows[j]];
    GroupsOne(rows[j], TxId);
    StateOne(rows[j]);
  }

  /** The first loop reads past the header lines and the rows before row `j`. */
  lemma {:induction false} PassPrefix(lines: seq<string>, pre: seq<string>, rows: seq<Row>, filename: string, j: nat)
    requires FileOf(lines, pre, rows)
    requires forall i :: 0 <= i < |pre| ==> Preamble(pre[i])
    requires forall i :: 0 <= i < |rows| ==> WellFormed(rows[i])
    requires j <= |rows| && forall i :: 0 <= i < j ==> !IsExon(rows[i])
    ensures FindExon(lines, filename, 0) == FindExon(lines, filename, |pre| + j)
  {
    PrefixPassed(lines, pre, rows, j);
    FindExonPasses(lines, filename, 0, |pre| + j);
  }

  /** The line of an exon row is an exon line. */
  lemma {:induction false} ExonRowLine(r: Row)
    requires CleanCells(r) && IsExon(r)
    ensures IsExonLine(RowLine(r))
  {
    RowLineUnstripped(r);
  }

  /** The first loop stops at an exon line. */
  lemma {:induction false} FindExonAt(lines: seq<string>, filename: string, i: nat, line: string)
    requires i < |lines| && lines[i] == line && IsExonLine(line)
    ensures FindExon(lines, filename, i) == Success(i)
  {
  }

  /** The first loop stops at the first exon row. */
  lemma {:induction false} FindFirstExon(lines: seq<string>, pre: seq<string>, rows: seq<Row>, filename: string, j: nat)
    requires FileOf(lines, pre, rows)
    requires forall i :: 0 <= i < |pre| ==> Preamble(pre[i])
    requires forall i :: 0 <= i < |rows| ==> WellFormed(rows[i])
    requires j < |rows| && IsExon(rows[j]) && forall i :: 0 <= i < j ==> !IsExon(rows[i])
    ensures FindExon(lines, filename, 0) == Success(|pre| + j)
  {
    PassPrefix(lines, pre, rows, filename, j);
    LineAt(lines, pre, rows, j, |pre| + j);
    ExonRowLine(rows[j]);
    FindExonAt(lines, filename, |pre| + j, RowLine(rows[j]));
  }

  /** The first exon row primes the transcript of that row alone. */
  lemma {:induction false} PrimeRow(r: Row)
    requires GoodExon(r)
    ensures Prime(Split(RowLine(r), "\t")) == Success(TranscriptOf([r]))
  {
    RowLineUnstripped(r);
    LoadRowNewline(r);
  }

  /** Once the first loop stops at line `i`, the line of the first exon row
      `j`, the second loop starts from the state of the rows up to it. */
  lemma {:induction false} ConvertFirstExon(lines: seq<string>, filename: string, i: nat, rows: seq<Row>, j: nat)
    requires i < |lines| && FindExon(lines, filename, 0) == Success(i)
    requires j < |rows| && lines[i] == RowLine(rows[j]) && WellFormed(rows[j]) && IsExon(rows[j])
    requires forall k :: 0 <= k < j ==> !IsExon(rows[k])
    ensures Exons(rows[..j + 1]) != []
    ensures Convert(lines, filename) == RunFrom(Expected(rows[..j + 1]), lines, i + 1)
  {
    PrimeRow(rows[j]);
    FirstState(rows, j);
    ConvertPrimed(lines, filename, i, TranscriptOf([rows[j]]));
  }

  // ---------------------------------------------------------------------------
  // The whole conversion.
  // ---------------------------------------------------------------------------

  /** Without an exon row, the first loop reaches the end of the file. */
  lemma {:induction false} ConvertWithoutExon(lines: seq<string>, pre: seq<string>, rows: seq<Row>, filename: string)
    requires FileOf(lines, pre, rows)
    requires forall i :: 0 <= i < |pre| ==> Preamble(pre[i])
    requires forall i :: 0 <= i < |rows| ==> WellFormed(rows[i])
    requires Exons(rows) == []
    ensures Convert(lines, filename) == Failure(CampareeUtilsException(NoExonMessage(filename)))
  {
    forall i | 0 <= i < |rows| ensures !IsExon(rows[i]) {
      if IsExon(rows[i]) {
        ExonsHas(rows, i);
      }
    }
    PrefixPassed(lines, pre, rows, |rows|);
    FindExonPasses(lines, filename, 0, |lines|);
  }

  /** With an exon row, the conversion is the last step of the second loop,
      once it has read all the rows. */
  lemma {:induction false} ConvertToFinish(lines: seq<string>, pre: seq<string>, rows: seq<Row>, filename: string, j: nat)
    requires FileOf(lines, pre, rows)
    requires forall i :: 0 <= i < |pre| ==> Preamble(pre[i])
    requires forall i :: 0 <= i < |rows| ==> WellFormed(rows[i])
    requires j < |rows| && IsExon(rows[j]) && forall i :: 0 <= i < j ==> !IsExon(rows[i])
    ensures Exons(rows) != []
    ensures Convert(lines, filename) == Finish(Expected(rows))
  {
    FindFirstExon(lines, pre, rows, filename, j);
    LineAt(lines, pre, rows, j, |pre| + j);
    RunRows(lines, pre, rows, j);
    ConvertFirstExon(lines, filename, |pre| + j, rows, j);
  }

  /** The last step writes the header and one line per run. */
  lemma {:induction false} FinishRows(rows: seq<Row>)
    requires forall i :: 0 <= i < |rows| ==> WellFormed(rows[i])
    requires Exons(rows) != []
    ensures var gs := Groups(Exons(rows), TxId);
            Finish(Expected(rows)) == Success((Header + Records(gs), Chromosomes(gs)))
  {
    var gs := Groups(Exons(rows), TxId);
    ExonsGood(rows);
    GroupsKeep(Exons(rows), TxId, GoodExon);
    LastGood(gs);
    FinishState(gs);
  }

  /** Header lines followed by well-formed rows: with an exon among the rows,
      the text is the header followed by one annotation line per maximal run
      of exons of one transcript id, and the chromosomes are those of the
      runs; with none, the exception naming the file. */
  lemma {:induction false} ConvertRows(pre: seq<string>, rows: seq<Row>, filename: string)
    requires forall i :: 0 <= i < |pre| ==> Preamble(pre[i])
    requires forall i :: 0 <= i < |rows| ==> WellFormed(rows[i])
    ensures Exons(rows) == [] ==>
              Convert(pre + RowLines(rows), filename) == Failure(CampareeUtilsException(NoExonMessage(filename)))
    ensures Exons(rows) != [] ==>
              var gs := Groups(Exons(rows), TxId);
              Convert(pre + RowLines(rows), filename) == Success((Header + Records(gs), Chromosomes(gs)))
  {
    var lines := pre + RowLines(rows);
    FileOfRows(pre, rows);
    if Exons(rows) == [] {
      ConvertWithoutExon(lines, pre, rows, filename);
    } else {
      var j := FirstExon(rows);
      ConvertToFinish(lines, pre, rows, filename, j);
      FinishRows(rows);
    }
  }
}
