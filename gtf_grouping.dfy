/** What the GTF conversion computes, stated without its loops: the exon rows
    of a GTF file, in file order, fall into maximal runs of one transcript id;
    each run becomes one annotation line with its exon coordinates sorted by
    value, and the chromosomes are those of the runs' first exons. */
module GtfGrouping {
  import opened Common
  import opened Text
  import opened CampareeUtils
  import opened IntSort
  import opened GtfConversion

  // ---------------------------------------------------------------------------
  // GTF rows and the lines that hold them.
  // ---------------------------------------------------------------------------

  /** The nine columns of a GTF row. */
  datatype Row = Row(seqname: string, source: string, feature: string, start: string, end: string,
                     score: string, strand: string, frame: string, attributes: string)

  function Columns(r: Row): (c: seq<string>)
    ensures |c| == 9
  {
    [r.seqname, r.source, r.feature, r.start, r.end, r.score, r.strand, r.frame, r.attributes]
  }

  /** The columns of a row's line split without stripping: the last one
      keeps the line break. */
  function Unstripped(r: Row): (c: seq<string>)
    ensures |c| == 9
  {
    [r.seqname, r.source, r.feature, r.start, r.end, r.score, r.strand, r.frame, r.attributes + "\n"]
  }

  /** A row as a line of the file: its columns tab-separated, then a line break. */
  function RowLine(r: Row): string {
    Join(Columns(r), "\t") + "\n"
  }

  function RowLines(rows: seq<Row>): (lines: seq<string>)
    ensures |lines| == |rows|
    ensures forall i :: 0 <= i < |rows| ==> lines[i] == RowLine(rows[i])
  {
    seq(|rows|, i requires 0 <= i < |rows| => RowLine(rows[i]))
  }

  /** A column that holds neither a tab nor a line break. */
  predicate Cell(s: string) {
    '\t' !in s && '\n' !in s
  }

  predicate CleanCells(r: Row) {
    && Cell(r.seqname) && Cell(r.source) && Cell(r.feature) && Cell(r.start) && Cell(r.end)
    && Cell(r.score) && Cell(r.strand) && Cell(r.frame) && Cell(r.attributes)
  }

  predicate IsExon(r: Row) {
    r.feature == "exon"
  }

  /** The transcript id of a row (the empty string when it has none). */
  function TxId(r: Row): string {
    Attribute(r.attributes, TranscriptIdKey).GetOr("")
  }

  /** A row the conversion accepts: clean columns, and for an exon integer
      coordinates, a transcript id and a gene id. */
  predicate WellFormed(r: Row) {
    && CleanCells(r)
    && (IsExon(r) ==>
          && ParseInt(r.start).Some? && ParseInt(r.end).Some?
          && Attribute(r.attributes, TranscriptIdKey).Some?
          && Attribute(r.attributes, GeneIdKey).Some?)
  }

  /** A line before the rows (a `#!` comment, say): it has no tab. */
  predicate Preamble(line: string) {
    '\t' !in line
  }

  // ---------------------------------------------------------------------------
  // Exons and their runs.
  // ---------------------------------------------------------------------------

  /** The exon rows, in file order. */
  function Exons(rows: seq<Row>): (e: seq<Row>)
    ensures |e| <= |rows|
    decreases |rows|
  {
    if rows == [] then []
    else Exons(rows[..|rows| - 1]) + (if IsExon(rows[|rows| - 1]) then [rows[|rows| - 1]] else [])
  }

  /** The list cut into maximal runs of consecutive elements with the same
      key as the run's first element. */
  function Groups<T, K(==)>(xs: seq<T>, key: T -> K): (gs: seq<seq<T>>)
    ensures (gs == []) == (xs == [])
    ensures forall i :: 0 <= i < |gs| ==> gs[i] != []
    decreases |xs|
  {
    if xs == [] then [] else Push(Groups(xs[..|xs| - 1], key), xs[|xs| - 1], key)
  }

  /** `x` has the key of the last run. */
  predicate Joins<T, K(==)>(gs: seq<seq<T>>, x: T, key: T -> K) {
    gs != [] && gs[|gs| - 1] != [] && key(gs[|gs| - 1][0]) == key(x)
  }

  /** One more element extends the last run when it has that run's key, and
      starts a run of its own otherwise. */
  function Push<T, K(==)>(gs: seq<seq<T>>, x: T, key: T -> K): (r: seq<seq<T>>)
    ensures r != [] && |r| >= |gs|
    ensures (forall i :: 0 <= i < |gs| ==> gs[i] != []) ==> forall i :: 0 <= i < |r| ==> r[i] != []
  {
    if Joins(gs, x, key) then gs[..|gs| - 1] + [gs[|gs| - 1] + [x]] else gs + [[x]]
  }

  function Flatten<T>(gs: seq<seq<T>>): seq<T>
    decreases |gs|
  {
    if gs == [] then [] else Flatten(gs[..|gs| - 1]) + gs[|gs| - 1]
  }

  /** Every element of a group has its first element's key. */
  ghost predicate Uniform<T, K>(g: seq<T>, key: T -> K) {
    forall i :: 0 <= i < |g| ==> key(g[i]) == key(g[0])
  }

  /** Runs: the groups put the list back together in order, each holds one
      key, and neighbouring groups differ in key. */
  ghost predicate Runs<T, K>(gs: seq<seq<T>>, xs: seq<T>, key: T -> K) {
    && Flatten(gs) == xs
    && (forall i :: 0 <= i < |gs| ==> gs[i] != [] && Uniform(gs[i], key))
    && (forall i :: 0 < i < |gs| ==> key(gs[i - 1][0]) != key(gs[i][0]))
  }

  /** The runs of a longer list are those of the shorter one, pushed. */
  lemma GroupsSnoc<T, K>(xs: seq<T>, x: T, key: T -> K)
    ensures Groups(xs + [x], key) == Push(Groups(xs, key), x, key)
  {
    assert (xs + [x])[..|xs|] == xs;
  }

  /** One element makes one run. */
  lemma GroupsOne<T, K>(x: T, key: T -> K)
    ensures Groups([x], key) == [[x]]
  {
    assert [x][..0] == [];
  }

  lemma FlattenSnoc<T>(gs: seq<seq<T>>, g: seq<T>)
    ensures Flatten(gs + [g]) == Flatten(gs) + g
  {
    assert (gs + [g])[..|gs|] == gs;
  }

  /** Adding to the last group adds to the end of the flattened list. */
  lemma FlattenExtend<T>(gs: seq<seq<T>>, x: T)
    requires gs != []
    ensures Flatten(gs[..|gs| - 1] + [gs[|gs| - 1] + [x]]) == Flatten(gs) + [x]
  {
    var init, last := gs[..|gs| - 1], gs[|gs| - 1];
    FlattenSnoc(init, last + [x]);
    assert Flatten(gs) == Flatten(init) + last;
    AppendAssoc(Flatten(init), last, [x]);
  }

  /** An element of the last run's key extends that run. */
  lemma RunsExtend<T, K>(gs: seq<seq<T>>, xs: seq<T>, x: T, key: T -> K)
    requires Runs(gs, xs, key) && Joins(gs, x, key)
    ensures Runs(gs[..|gs| - 1] + [gs[|gs| - 1] + [x]], xs + [x], key)
  {
    var n := |gs|;
    var last := gs[n - 1] + [x];
    var gs' := gs[..n - 1] + [last];
    FlattenExtend(gs, x);
    assert Uniform(last, key) by {
      forall i | 0 <= i < |last| ensures key(last[i]) == key(last[0]) {
        if i < |gs[n - 1]| {
          assert last[i] == gs[n - 1][i];
        }
      }
    }
    forall i | 0 <= i < n ensures gs'[i] != [] && Uniform(gs'[i], key) {
      if i < n - 1 {
        assert gs'[i] == gs[i];
      }
    }
    forall i | 0 < i < n ensures key(gs'[i - 1][0]) != key(gs'[i][0]) {
      assert gs'[i - 1][0] == gs[i - 1][0] && gs'[i][0] == gs[i][0];
    }
  }

  /** An element of another key starts a new run. */
  lemma RunsStart<T, K>(gs: seq<seq<T>>, xs: seq<T>, x: T, key: T -> K)
    requires Runs(gs, xs, key) && !Joins(gs, x, key)
    ensures Runs(gs + [[x]], xs + [x], key)
  {
    var gs' := gs + [[x]];
    FlattenSnoc(gs, [x]);
    forall i | 0 <= i < |gs'| ensures gs'[i] != [] && Uniform(gs'[i], key) {
      if i < |gs| {
        assert gs'[i] == gs[i];
      }
    }
    forall i | 0 < i < |gs'| ensures key(gs'[i - 1][0]) != key(gs'[i][0]) {
      if i < |gs| {
        assert gs'[i - 1] == gs[i - 1] && gs'[i] == gs[i];
      }
    }
  }

  /** Pushing one more element keeps the runs. */
  lemma PushRuns<T, K>(gs: seq<seq<T>>, xs: seq<T>, x: T, key: T -> K)
    requires Runs(gs, xs, key)
    ensures Runs(Push(gs, x, key), xs + [x], key)
  {
    if Joins(gs, x, key) {
      RunsExtend(gs, xs, x, key);
    } else {
      RunsStart(gs, xs, x, key);
    }
  }

  /** The grouping makes runs. */
  lemma {:induction false} GroupsAreRuns<T, K>(xs: seq<T>, key: T -> K)
    ensures Runs(Groups(xs, key), xs, key)
    decreases |xs|
  {
    if xs != [] {
      var init, x := xs[..|xs| - 1], xs[|xs| - 1];
      GroupsAreRuns(init, key);
      PushRuns(Groups(init, key), init, x, key);
      assert xs == init + [x];
    }
  }

  /** `p` holds of every element of every group. */
  ghost predicate Each<T>(gs: seq<seq<T>>, p: T -> bool) {
    forall i, j :: 0 <= i < |gs| && 0 <= j < |gs[i]| ==> p(gs[i][j])
  }

  lemma EachPush<T, K>(gs: seq<seq<T>>, x: T, key: T -> K, p: T -> bool)
    requires Each(gs, p) && p(x)
    ensures Each(Push(gs, x, key), p)
  {
    var gs' := Push(gs, x, key);
    if Joins(gs, x, key) {
      var n := |gs|;
      forall i, j | 0 <= i < |gs'| && 0 <= j < |gs'[i]| ensures p(gs'[i][j]) {
        if i < n - 1 {
          assert gs'[i] == gs[i];
        } else if j < |gs[n - 1]| {
          assert gs'[i][j] == gs[n - 1][j];
        }
      }
    } else {
      forall i, j | 0 <= i < |gs'| && 0 <= j < |gs'[i]| ensures p(gs'[i][j]) {
        if i < |gs| {
          assert gs'[i] == gs[i];
        }
      }
    }
  }

  /** A property of every element is one of every element of every group. */
  lemma {:induction false} GroupsKeep<T, K>(xs: seq<T>, key: T -> K, p: T -> bool)
    requires forall i :: 0 <= i < |xs| ==> p(xs[i])
    ensures Each(Groups(xs, key), p)
    decreases |xs|
  {
    if xs != [] {
      var init, x := xs[..|xs| - 1], xs[|xs| - 1];
      GroupsKeep(init, key, p);
      EachPush(Groups(init, key), x, key, p);
    }
  }

  // ---------------------------------------------------------------------------
  // What each run becomes.
  // ---------------------------------------------------------------------------

  /** The exon rows, well formed. */
  predicate GoodExon(r: Row) {
    WellFormed(r) && IsExon(r)
  }

  /** A run of well-formed exon rows. */
  predicate GoodRun(g: seq<Row>) {
    forall j :: 0 <= j < |g| ==> GoodExon(g[j])
  }

  /** The last of runs of well-formed exons is one. */
  lemma LastGood(gs: seq<seq<Row>>)
    requires gs != [] && Each(gs, GoodExon)
    ensures GoodRun(gs[|gs| - 1])
  {
  }

  function Starts(g: seq<Row>): (s: seq<string>)
    ensures |s| == |g| && forall i :: 0 <= i < |g| ==> s[i] == g[i].start
  {
    seq(|g|, i requires 0 <= i < |g| => g[i].start)
  }

  function Stops(g: seq<Row>): (s: seq<string>)
    ensures |s| == |g| && forall i :: 0 <= i < |g| ==> s[i] == g[i].end
  {
    seq(|g|, i requires 0 <= i < |g| => g[i].end)
  }

  /** The transcript a run describes: chromosome, strand and ids from its
      first row, the coordinates of all its rows in file order. */
  function TranscriptOf(g: seq<Row>): Transcript
    requires g != []
  {
    TranscriptFrom(g[0], Starts(g), Stops(g))
  }

  /** A transcript described by its first row, with the given coordinates;
      the gene name and biotype are `"None"` when absent. */
  function TranscriptFrom(first: Row, starts: seq<string>, stops: seq<string>): (t: Transcript)
    ensures t.chrom == first.seqname && t.id == TxId(first) && t.starts == starts && t.stops == stops
  {
    var a := first.attributes;
    Transcript(first.seqname, first.strand, TxId(first), Attribute(a, GeneIdKey).GetOr(""),
               Attribute(a, GeneNameKey).GetOr("None"), Attribute(a, BiotypeKey).GetOr("None"), starts, stops)
  }

  /** The annotation line of a run: its transcript with both coordinate
      lists sorted by value. */
  function RecordOf(g: seq<Row>): string
    requires g != []
  {
    AnnotLine(RecordValues(TranscriptOf(g), SortInts(Starts(g)), SortInts(Stops(g))))
  }

  /** The annotation lines of the runs, in order. */
  function Records(gs: seq<seq<Row>>): string
    requires forall i :: 0 <= i < |gs| ==> gs[i] != []
    decreases |gs|
  {
    if gs == [] then "" else Records(gs[..|gs| - 1]) + RecordOf(gs[|gs| - 1])
  }

  /** The chromosomes of the runs' first rows. */
  function Chromosomes(gs: seq<seq<Row>>): set<string>
    requires forall i :: 0 <= i < |gs| ==> gs[i] != []
    decreases |gs|
  {
    if gs == [] then {} else Chromosomes(gs[..|gs| - 1]) + {gs[|gs| - 1][0].seqname}
  }

  /** The chromosomes are exactly those of the runs' first rows. */
  lemma {:induction false} ChromosomesAre(gs: seq<seq<Row>>)
    requires forall i :: 0 <= i < |gs| ==> gs[i] != []
    ensures forall c :: c in Chromosomes(gs) <==> exists i :: 0 <= i < |gs| && gs[i][0].seqname == c
    decreases |gs|
  {
    if gs != [] {
      ChromosomesAre(gs[..|gs| - 1]);
      forall c | c in Chromosomes(gs) ensures exists i :: 0 <= i < |gs| && gs[i][0].seqname == c {
        var init := gs[..|gs| - 1];
        if c != gs[|gs| - 1][0].seqname {
          assert c in Chromosomes(init);
          var i :| 0 <= i < |init| && init[i][0].seqname == c;
          assert gs[i] == init[i];
        }
      }
      forall c | exists i :: 0 <= i < |gs| && gs[i][0].seqname == c ensures c in Chromosomes(gs) {
        var i :| 0 <= i < |gs| && gs[i][0].seqname == c;
        if i < |gs| - 1 {
          assert gs[..|gs| - 1][i] == gs[i];
        }
      }
    }
  }

  // ---------------------------------------------------------------------------
  // Splitting a row's line.
  // ---------------------------------------------------------------------------

  lemma CleanColumns(r: Row)
    requires CleanCells(r)
    ensures forall i :: 0 <= i < 9 ==> Cell(Columns(r)[i])
  {
  }

  /** The columns of a row line come back from the tab split, after the
      trailing line break is stripped. */
  lemma RowLineStripped(r: Row)
    requires CleanCells(r)
    ensures Split(RStrip(RowLine(r), {'\n'}), "\t") == Columns(r)
  {
    var c := Columns(r);
    var body := Join(c, "\t");
    CleanColumns(r);
    JoinAvoids(c, "\t", '\n');
    assert body == [] || body[|body| - 1] !in {'\n'} by {
      if body != [] {
        assert body[|body| - 1] in body;
      }
    }
    RStripSuffix(body, "\n", {'\n'});
    assert "\t"[0] == '\t';
    JoinThenSplit(c, "\t");
  }

  /** Unstripped, the last column keeps the line break. */
  lemma RowLineUnstripped(r: Row)
    requires CleanCells(r)
    ensures Split(RowLine(r), "\t") == Unstripped(r)
  {
    var c := Columns(r);
    var c' := Unstripped(r);
    CleanColumns(r);
    JoinAppendLast(c, "\t", "\n");
    assert c' == c[..8] + [r.attributes + "\n"];
    assert "\t"[0] == '\t';
    assert forall i :: 0 <= i < 9 ==> '\t' !in c'[i] by {
      forall i | 0 <= i < 9 ensures '\t' !in c'[i] {
        if i < 8 {
          assert c'[i] == c[i];
        }
      }
    }
    JoinThenSplit(c', "\t");
  }

  /** A preamble line is one column. */
  lemma PreambleColumns(line: string)
    requires Preamble(line)
    ensures Split(line, "\t") == [line]
  {
    assert "\t"[0] == '\t';
    JoinThenSplit([line], "\t");
  }

  // ---------------------------------------------------------------------------
  // Exons and transcripts, one row at a time.
  // ---------------------------------------------------------------------------

  lemma ExonsSnoc(rows: seq<Row>, r: Row)
    ensures Exons(rows + [r]) == Exons(rows) + (if IsExon(r) then [r] else [])
  {
    assert (rows + [r])[..|rows|] == rows;
  }

  /** The exons of a prefix one row longer. */
  lemma ExonsTake(rows: seq<Row>, k: nat, n: nat)
    requires n == k + 1 && n <= |rows|
    ensures Exons(rows[..n]) == Exons(rows[..k]) + (if IsExon(rows[k]) then [rows[k]] else [])
  {
    assert rows[..n][..k] == rows[..k];
  }

  /** The exons of well-formed rows are well-formed exons. */
  lemma {:induction false} ExonsGood(rows: seq<Row>)
    requires forall i :: 0 <= i < |rows| ==> WellFormed(rows[i])
    ensures forall i :: 0 <= i < |Exons(rows)| ==> GoodExon(Exons(rows)[i])
    decreases |rows|
  {
    if rows != [] {
      var init := rows[..|rows| - 1];
      ExonsGood(init);
      ExonsSnoc(init, rows[|rows| - 1]);
      assert rows == init + [rows[|rows| - 1]];
    }
  }

  /** No exon among the rows. */
  lemma {:induction false} ExonsNone(rows: seq<Row>)
    requires forall i :: 0 <= i < |rows| ==> !IsExon(rows[i])
    ensures Exons(rows) == []
    decreases |rows|
  {
    if rows != [] {
      ExonsNone(rows[..|rows| - 1]);
    }
  }

  /** Rows with an exon have a first one. */
  lemma {:induction false} FirstExon(rows: seq<Row>) returns (j: nat)
    requires Exons(rows) != []
    ensures j < |rows| && IsExon(rows[j]) && forall i :: 0 <= i < j ==> !IsExon(rows[i])
    decreases |rows|
  {
    var init := rows[..|rows| - 1];
    if Exons(init) != [] {
      j := FirstExon(init);
    } else {
      j := |rows| - 1;
      forall i | 0 <= i < j ensures !IsExon(rows[i]) {
        if IsExon(rows[i]) {
          ExonsHas(init, i);
        }
      }
    }
  }

  /** An exon row appears among the exons. */
  lemma {:induction false} ExonsHas(rows: seq<Row>, i: nat)
    requires i < |rows| && IsExon(rows[i])
    ensures Exons(rows) != []
    decreases |rows|
  {
    if i < |rows| - 1 {
      ExonsHas(rows[..|rows| - 1], i);
    }
  }

  /** A row's own transcript: loading its columns gives the transcript of
      the run it starts. */
  lemma LoadRow(r: Row)
    requires GoodExon(r)
    ensures Load(Columns(r), TxId(r)) == Success(TranscriptOf([r]))
  {
    LoadFound(Columns(r), TxId(r), Attribute(r.attributes, GeneIdKey).value);
    StartsOne(r);
  }

  lemma StartsOne(r: Row)
    ensures [r][0] == r && Starts([r]) == [r.start] && Stops([r]) == [r.end]
  {
    assert Starts([r]) == [r.start];
    assert Stops([r]) == [r.end];
  }

  /** The same from the unstripped columns the first exon line is primed from. */
  lemma LoadRowNewline(r: Row)
    requires GoodExon(r)
    ensures Attribute(Unstripped(r)[8], TranscriptIdKey) == Some(TxId(r))
    ensures Load(Unstripped(r), TxId(r)) == Success(TranscriptOf([r]))
  {
    AttributeNewline(r.attributes, TranscriptIdKey);
    LoadNewline(Unstripped(r), Columns(r), TxId(r));
    LoadRow(r);
  }

  /** Another row of the same run adds its coordinates to the transcript. */
  lemma TranscriptSnoc(g: seq<Row>, r: Row)
    requires g != []
    ensures TranscriptOf(g + [r]) == AddExon(TranscriptOf(g), Columns(r))
  {
    StartsSnoc(g, r);
    AddExonFrom(g[0], Starts(g), Stops(g), Columns(r));
  }

  lemma StartsSnoc(g: seq<Row>, r: Row)
    requires g != []
    ensures (g + [r])[0] == g[0]
    ensures Starts(g + [r]) == Starts(g) + [r.start] && Stops(g + [r]) == Stops(g) + [r.end]
  {
    assert Starts(g + [r]) == Starts(g) + [r.start];
    assert Stops(g + [r]) == Stops(g) + [r.end];
  }

  lemma AddExonFrom(first: Row, starts: seq<string>, stops: seq<string>, columns: seq<string>)
    requires |columns| >= 9
    ensures AddExon(TranscriptFrom(first, starts, stops), columns)
            == TranscriptFrom(first, starts + [columns[3]], stops + [columns[4]])
  {
  }

  /** A run of well-formed exons is written as its line. */
  lemma FlushRun(g: seq<Row>)
    requires g != [] && GoodRun(g)
    ensures Flush(TranscriptOf(g)) == Success(RecordOf(g))
  {
    var t := TranscriptOf(g);
    assert AllInts(t.starts) && AllInts(t.stops);
    FlushAllInts(t);
  }
}
