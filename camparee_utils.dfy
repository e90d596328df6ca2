/** The small text rules of the pipeline's utility class: the mode rule of
    `open_file` and the parser of one line of a variant file, with the
    exceptions the Python code raises as the error side of a `Result`. */
module CampareeUtils {
  import opened Common
  import opened Text

  /** The Python exceptions the utilities can end in. */
  datatype PyError =
    | ValueError
    | IndexError
    | AttributeError
    | CampareeUtilsException(message: string)

  /** Text mode unless the caller asked for binary or text explicitly: a `t`
      is appended exactly when the lower-cased mode has neither `b` nor `t`,
      so the result always names one of them. */
  function TextMode(mode: string): (r: string)
    ensures mode <= r && |r| <= |mode| + 1
    ensures 'b' in Lower(r) || 't' in Lower(r)
    ensures r == mode <==> ('b' in Lower(mode) || 't' in Lower(mode))
  {
    if 'b' !in Lower(mode) && 't' !in Lower(mode) then
      assert Lower(mode + "t")[|mode|] == 't';
      mode + "t"
    else mode
  }

  /** A lower-case letter is in the lower-cased string exactly when it or its
      upper-case form is in the string. */
  lemma LowerContains(s: string, c: char)
    requires 'a' <= c <= 'z'
    ensures c in Lower(s) <==> (c in s || UpperChar(c) in s)
  {
    if c in Lower(s) {
      var i :| 0 <= i < |s| && Lower(s)[i] == c;
      assert s[i] == c || s[i] == UpperChar(c);
    }
    if c in s {
      var i :| 0 <= i < |s| && s[i] == c;
      assert Lower(s)[i] == c;
    }
    if UpperChar(c) in s {
      var i :| 0 <= i < |s| && s[i] == UpperChar(c);
      assert Lower(s)[i] == c;
    }
  }

  /** The rule in the mode's own letters: `b`, `B`, `t` or `T` anywhere keeps
      the mode; otherwise a `t` is appended. `TextMode` is idempotent. */
  lemma TextModeRule(mode: string)
    ensures TextMode(mode) == if 'b' in mode || 'B' in mode || 't' in mode || 'T' in mode then mode else mode + "t"
    ensures TextMode(TextMode(mode)) == TextMode(mode)
  {
    LowerContains(mode, 'b');
    LowerContains(mode, 't');
  }

  /** The three values a variant line is parsed into. */
  datatype VariantLine = VariantLine(chromosome: string, position: int, variants: map<string, int>)

  /** What an empty line (the end of the file) parses to. */
  const Done: VariantLine := VariantLine("DONE", 0, map[])

  /** A `base:count` token: two fields around `:`, the second an integer. */
  predicate CountToken(t: string) {
    |Split(t, ":")| == 2 && ParseInt(Split(t, ":")[1]).Some?
  }

  /** The `base:count` tokens into a base-to-count map, later tokens for the
      same base overwriting earlier ones; a token that is not two fields
      around `:` or whose count is not an integer is a `ValueError`. */
  function VariantCounts(tokens: seq<string>): (r: Result<map<string, int>, PyError>)
    ensures r.Failure? ==> r.error == ValueError
    ensures r.Success? ==> |r.value| <= |tokens|
    decreases |tokens|
  {
    if tokens == [] then Success(map[])
    else
      var init, last := tokens[..|tokens| - 1], tokens[|tokens| - 1];
      var counts :- VariantCounts(init);
      if !CountToken(last) then Failure(ValueError)
      else
        var pair := Split(last, ":");
        Success(counts[pair[0] := ParseInt(pair[1]).value])
  }

  /** One token more parses exactly when the tokens before it do and it is a `base:count` token. */
  lemma VariantCountsStep(tokens: seq<string>)
    requires tokens != []
    ensures VariantCounts(tokens).Success? <==>
              VariantCounts(tokens[..|tokens| - 1]).Success? && CountToken(tokens[|tokens| - 1])
  {
  }

  /** Every token is a `base:count` token. */
  predicate AllCountTokens(tokens: seq<string>) {
    forall i :: 0 <= i < |tokens| ==> CountToken(tokens[i])
  }

  /** All tokens are `base:count` tokens exactly when those before the last are and the last is. */
  lemma AllCountTokensStep(tokens: seq<string>)
    requires tokens != []
    ensures AllCountTokens(tokens) <==>
              AllCountTokens(tokens[..|tokens| - 1]) && CountToken(tokens[|tokens| - 1])
  {
    var init := tokens[..|tokens| - 1];
    if AllCountTokens(init) {
      forall i | 0 <= i < |tokens| - 1 ensures CountToken(tokens[i]) {
        assert init[i] == tokens[i];
      }
    }
  }

  /** The variants parse exactly when every token is a `base:count` token. */
  lemma {:induction false} VariantCountsSucceeds(tokens: seq<string>)
    ensures VariantCounts(tokens).Success? <==> forall i :: 0 <= i < |tokens| ==> CountToken(tokens[i])
    decreases |tokens|
  {
    if tokens != [] {
      VariantCountsSucceeds(tokens[..|tokens| - 1]);
      VariantCountsStep(tokens);
      AllCountTokensStep(tokens);
    }
  }

  /** The base of a token: the text before its first `:`. */
  function TokenBase(t: string): string {
    Split(t, ":")[0]
  }

  /** The last token of a parsed list sets its base to its count over the map of the tokens before it. */
  lemma VariantCountsLast(tokens: seq<string>)
    requires tokens != [] && VariantCounts(tokens).Success?
    ensures VariantCounts(tokens[..|tokens| - 1]).Success?
    ensures VariantCounts(tokens).value.Keys == VariantCounts(tokens[..|tokens| - 1]).value.Keys + {TokenBase(tokens[|tokens| - 1])}
  {
  }

  /** Every base of the tokens is a key of the parsed map, and every key is some token's base. */
  lemma {:induction false} VariantCountsKeys(tokens: seq<string>)
    requires VariantCounts(tokens).Success?
    ensures forall i :: 0 <= i < |tokens| ==> TokenBase(tokens[i]) in VariantCounts(tokens).value
    ensures forall b :: b in VariantCounts(tokens).value ==>
              exists i :: 0 <= i < |tokens| && TokenBase(tokens[i]) == b
    decreases |tokens|
  {
    if tokens != [] {
      var n := |tokens|;
      var init := tokens[..n - 1];
      VariantCountsLast(tokens);
      VariantCountsKeys(init);
      var keys, front := VariantCounts(tokens).value.Keys, VariantCounts(init).value.Keys;
      forall i | 0 <= i < n ensures TokenBase(tokens[i]) in keys {
        if i < n - 1 {
          assert init[i] == tokens[i];
        }
      }
      forall b | b in keys ensures exists i :: 0 <= i < n && TokenBase(tokens[i]) == b {
        if b in front {
          var i :| 0 <= i < n - 1 && TokenBase(init[i]) == b;
          assert init[i] == tokens[i];
        } else {
          assert TokenBase(tokens[n - 1]) == b;
        }
      }
    }
  }

  /** A variant line: four tab-separated fields, the first being the
      location `chrom:pos` and the variants `base:count`, all separated by
      `" | "`. The empty line is `Done`; any other shape is a `ValueError`. */
  function ParseVariantLine(line: string): (r: Result<VariantLine, PyError>)
    ensures line == "" ==> r == Success(Done)
    ensures r.Failure? ==> r.error == ValueError
    ensures line != "" && |Split(line, "\t")| != 4 ==> r == Failure(ValueError)
    ensures line != "" && |Split(line, "\t")| == 4 ==>
              var tokens := Split(Split(line, "\t")[0], " | ");
              var location := Split(tokens[0], ":");
              && (r.Success? <==> |location| == 2 && ParseInt(location[1]).Some? && AllCountTokens(tokens[1..]))
              && (r.Success? ==>
                    && r.value.chromosome == location[0] && ':' !in r.value.chromosome
                    && ParseInt(location[1]) == Some(r.value.position)
                    && VariantCounts(tokens[1..]) == Success(r.value.variants)
                    && |r.value.variants| <= |tokens| - 1)
  {
    if line == "" then Success(Done)
    else
      var entries := Split(line, "\t");
      if |entries| != 4 then Failure(ValueError)
      else
        var tokens := Split(entries[0], " | ");
        var location := Split(tokens[0], ":");
        if |location| != 2 then Failure(ValueError)
        else
          match ParseInt(location[1])
          case None => Failure(ValueError)
          case Some(position) =>
            VariantCountsSucceeds(tokens[1..]);
            var variants :- VariantCounts(tokens[1..]);
            assert ':' !in location[0] by {
              SplitPiecesAvoid(tokens[0], ':');
            }
            Success(VariantLine(location[0], position, variants))
  }

  /** No piece of a split on one character contains that character. */
  lemma {:induction false} SplitPiecesAvoid(s: string, c: char)
    ensures forall i :: 0 <= i < |Split(s, [c])| ==> c !in Split(s, [c])[i]
    decreases |s|
  {
    var sep := [c];
    match Find(s, sep, 0)
    case None =>
      forall j | 0 <= j < |s| ensures s[j] != c {
        assert !OccursAt(s, sep, j) && s[j..j + 1] == [s[j]];
      }
    case Some(k) =>
      SplitPiecesAvoid(s[k + 1..], c);
      forall j | 0 <= j < k ensures s[j] != c {
        assert !OccursAt(s, sep, j) && s[j..j + 1] == [s[j]];
      }
  }

  /** No tab, space or colon: a field that survives every split of a variant line. */
  predicate Plain(s: string) {
    '\t' !in s && ' ' !in s && ':' !in s
  }

  /** `base:count` for one variant (and `chrom:pos` for the location). */
  function VariantToken(base: string, count: int): string {
    Join([base, IntToString(count)], ":")
  }

  function VariantTokens(variants: seq<(string, int)>): (r: seq<string>)
    ensures |r| == |variants|
    ensures forall i :: 0 <= i < |variants| ==> r[i] == VariantToken(variants[i].0, variants[i].1)
  {
    seq(|variants|, i requires 0 <= i < |variants| => VariantToken(variants[i].0, variants[i].1))
  }

  /** The line a variant file holds for one location: the location and the
      variants separated by `" | "`, then the total, the fractions and the
      entropy, tab-separated. */
  function FormatVariantLine(chromosome: string, position: int, variants: seq<(string, int)>,
                             total: string, fractions: string, entropy: string): string
  {
    Join([Join([VariantToken(chromosome, position)] + VariantTokens(variants), " | "), total, fractions, entropy], "\t")
  }

  /** A character absent from the parts and from the separator is absent from the join. */
  lemma {:induction false} JoinAvoids(parts: seq<string>, sep: string, c: char)
    requires c !in sep && forall i :: 0 <= i < |parts| ==> c !in parts[i]
    ensures c !in Join(parts, sep)
    decreases |parts|
  {
    if |parts| > 1 {
      JoinAvoids(parts[1..], sep, c);
    }
  }

  /** The text of an integer holds no separator of a variant line. */
  lemma IntTextPlain(i: int)
    ensures Plain(IntToString(i))
  {
    IntToStringChars(i);
  }

  /** One variant token is split back into its base and its count. */
  lemma VariantTokenSplits(base: string, count: int)
    requires Plain(base)
    ensures Split(VariantToken(base, count), ":") == [base, IntToString(count)]
    ensures '\t' !in VariantToken(base, count) && ' ' !in VariantToken(base, count)
  {
    IntTextPlain(count);
    JoinThenSplit([base, IntToString(count)], ":");
    JoinAvoids([base, IntToString(count)], ":", '\t');
    JoinAvoids([base, IntToString(count)], ":", ' ');
  }

  /** Parsing the tokens of a variant list gives its map. */
  lemma {:induction false} VariantCountsOfTokens(variants: seq<(string, int)>)
    requires forall i :: 0 <= i < |variants| ==> Plain(variants[i].0)
    ensures VariantCounts(VariantTokens(variants)) == Success(MapOfPairs(variants))
    decreases |variants|
  {
    if variants != [] {
      var n := |variants|;
      var tokens := VariantTokens(variants);
      var init, last := variants[..n - 1], variants[n - 1];
      assert tokens[..n - 1] == VariantTokens(init);
      VariantCountsOfTokens(init);
      VariantTokenSplits(last.0, last.1);
      ParseIntRoundTrip(last.1);
      assert VariantCounts(tokens) == Success(MapOfPairs(init)[last.0 := last.1]);
    }
  }

  /** The first field of a formatted line: its tokens come back from the
      `" | "` split, and it has no tab. */
  lemma LocationFieldSplits(chromosome: string, position: int, variants: seq<(string, int)>)
    requires Plain(chromosome)
    requires forall i :: 0 <= i < |variants| ==> Plain(variants[i].0)
    ensures var tokens := [VariantToken(chromosome, position)] + VariantTokens(variants);
            Split(Join(tokens, " | "), " | ") == tokens && '\t' !in Join(tokens, " | ")
  {
    var tokens := [VariantToken(chromosome, position)] + VariantTokens(variants);
    forall i | 0 <= i < |tokens| ensures '\t' !in tokens[i] && ' ' !in tokens[i] {
      if i == 0 {
        VariantTokenSplits(chromosome, position);
      } else {
        VariantTokenSplits(variants[i - 1].0, variants[i - 1].1);
      }
    }
    JoinAvoids(tokens, " | ", '\t');
    JoinThenSplit(tokens, " | ");
  }

  /** The parser's success path, one split at a time. */
  lemma ParseVariantLineSteps(line: string, tokens: seq<string>, position: int, variants: map<string, int>)
    requires line != "" && |Split(line, "\t")| == 4
    requires Split(Split(line, "\t")[0], " | ") == tokens
    requires |Split(tokens[0], ":")| == 2 && ParseInt(Split(tokens[0], ":")[1]) == Some(position)
    requires VariantCounts(tokens[1..]) == Success(variants)
    ensures ParseVariantLine(line) == Success(VariantLine(Split(tokens[0], ":")[0], position, variants))
  {
  }

  /** Four tab-free fields come back from the tab split of their join. */
  lemma TabFieldsSplit(first: string, total: string, fractions: string, entropy: string)
    requires '\t' !in first && '\t' !in total && '\t' !in fractions && '\t' !in entropy
    ensures Split(Join([first, total, fractions, entropy], "\t"), "\t") == [first, total, fractions, entropy]
    ensures Join([first, total, fractions, entropy], "\t") != ""
  {
    var fields := [first, total, fractions, entropy];
    assert "\t"[0] == '\t';
    JoinThenSplit(fields, "\t");
    assert Join(fields, "\t") == first + "\t" + Join(fields[1..], "\t");
  }

  /** Parsing a formatted variant line gives back its location and its
      base-to-count map, whatever the other three fields hold. */
  lemma VariantLineRoundTrip(chromosome: string, position: int, variants: seq<(string, int)>,
                             total: string, fractions: string, entropy: string)
    requires Plain(chromosome)
    requires forall i :: 0 <= i < |variants| ==> Plain(variants[i].0)
    requires '\t' !in total && '\t' !in fractions && '\t' !in entropy
    ensures ParseVariantLine(FormatVariantLine(chromosome, position, variants, total, fractions, entropy))
            == Success(VariantLine(chromosome, position, MapOfPairs(variants)))
  {
    var tokens := [VariantToken(chromosome, position)] + VariantTokens(variants);
    var first := Join(tokens, " | ");
    LocationFieldSplits(chromosome, position, variants);
    TabFieldsSplit(first, total, fractions, entropy);
    VariantTokenSplits(chromosome, position);
    ParseIntRoundTrip(position);
    assert tokens[1..] == VariantTokens(variants);
    VariantCountsOfTokens(variants);
    ParseVariantLineSteps(Join([first, total, fractions, entropy], "\t"), tokens, position, MapOfPairs(variants));
  }
}
