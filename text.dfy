/** The few Python `str` operations the text transforms are built from:
    `split`/`join` on a separator, `rstrip`/`strip`, ASCII `upper`/`lower`,
    `int()` on a decimal string and `str()` of an integer. */
module Text {
  import opened Common

  /** The characters for which `str.isspace()` holds, which are also the
      characters `\s` matches in a `str` regular expression. */
  const Whitespace: set<char> := {
    '\t', '\n', '\U{0B}', '\U{0C}', '\r', '\U{1C}', '\U{1D}', '\U{1E}', '\U{1F}', ' ',
    '\U{85}', '\U{A0}', '\U{1680}', '\U{2000}', '\U{2001}', '\U{2002}', '\U{2003}',
    '\U{2004}', '\U{2005}', '\U{2006}', '\U{2007}', '\U{2008}', '\U{2009}', '\U{200A}',
    '\U{2028}', '\U{2029}', '\U{202F}', '\U{205F}', '\U{3000}'
  }

  /** No character of `s` is in `chars`. */
  predicate Avoids(s: string, chars: set<char>) {
    forall i :: 0 <= i < |s| ==> s[i] !in chars
  }

  /** Concatenation is associative. */
  lemma AppendAssoc<T>(a: seq<T>, b: seq<T>, c: seq<T>)
    ensures a + b + c == a + (b + c)
  {
  }

  /** A prefix one element longer. */
  lemma TakeOneMore<T>(s: seq<T>, k: nat, n: nat)
    requires n == k + 1 && n <= |s|
    ensures s[..n] == s[..k] + [s[k]]
  {
  }

  /** `s.rstrip(chars)`: the longest prefix of `s` that does not end in one of `chars`. */
  function RStrip(s: string, chars: set<char>): (r: string)
    ensures r <= s
    ensures r == [] || r[|r| - 1] !in chars
    ensures forall i :: |r| <= i < |s| ==> s[i] in chars
    decreases |s|
  {
    if s != [] && s[|s| - 1] in chars then RStrip(s[..|s| - 1], chars) else s
  }

  /** How many characters at the start of `s` are in `chars`. */
  function LeadingIn(s: string, chars: set<char>): (n: nat)
    ensures n <= |s| && (n == |s| || s[n] !in chars)
    ensures forall i :: 0 <= i < n ==> s[i] in chars
    decreases |s|
  {
    if s != [] && s[0] in chars then
      var m := LeadingIn(s[1..], chars);
      assert forall i :: 1 <= i < m + 1 ==> s[i] == s[1..][i - 1];
      m + 1
    else 0
  }

  /** `s.lstrip(chars)`: the longest suffix of `s` that does not start with one of `chars`. */
  function LStrip(s: string, chars: set<char>): (r: string)
    ensures |r| <= |s| && r == s[|s| - |r|..]
    ensures r == [] || r[0] !in chars
    ensures forall i :: 0 <= i < |s| - |r| ==> s[i] in chars
  {
    s[LeadingIn(s, chars)..]
  }

  /** Stripping characters a string does not contain changes nothing. */
  lemma StripNothing(s: string, chars: set<char>)
    requires Avoids(s, chars)
    ensures RStrip(s, chars) == s && LStrip(s, chars) == s
  {
  }

  /** Stripping a string that ends in characters of `chars` after a last
      character that is not one of them gives that string back. */
  lemma {:induction false} RStripSuffix(s: string, tail: string, chars: set<char>)
    requires s == [] || s[|s| - 1] !in chars
    requires forall i :: 0 <= i < |tail| ==> tail[i] in chars
    ensures RStrip(s + tail, chars) == s
    decreases |tail|
  {
    if tail == [] {
      assert s + tail == s;
    } else {
      assert (s + tail)[..|s + tail| - 1] == s + tail[..|tail| - 1];
      RStripSuffix(s, tail[..|tail| - 1], chars);
    }
  }

  /** The longest prefix of `s` with no character of `chars`: what a
      regular-expression run `[^...]*` consumes. */
  function TakeUntil(s: string, chars: set<char>): (r: string)
    ensures r <= s && Avoids(r, chars)
    ensures |r| < |s| ==> s[|r|] in chars
    decreases |s|
  {
    if s == [] || s[0] in chars then [] else [s[0]] + TakeUntil(s[1..], chars)
  }

  /** The run stops exactly where a character of `chars` follows a clean prefix. */
  lemma {:induction false} TakeUntilPrefix(s: string, t: string, chars: set<char>)
    requires Avoids(s, chars) && (t == [] || t[0] in chars)
    ensures TakeUntil(s + t, chars) == s
    decreases |s|
  {
    if s != [] {
      assert (s + t)[1..] == s[1..] + t;
      TakeUntilPrefix(s[1..], t, chars);
    } else {
      assert s + t == t;
    }
  }

  /** A run that stops inside `a` stops at the same place in `a + b`; one that
      consumes all of `a` goes on into `b`. */
  lemma {:induction false} TakeUntilAppend(a: string, b: string, chars: set<char>)
    ensures TakeUntil(a + b, chars) ==
            if |TakeUntil(a, chars)| < |a| then TakeUntil(a, chars) else a + TakeUntil(b, chars)
    decreases |a|
  {
    if a == [] {
      assert a + b == b;
    } else if a[0] !in chars {
      assert (a + b)[1..] == a[1..] + b;
      TakeUntilAppend(a[1..], b, chars);
      if |TakeUntil(a[1..], chars)| == |a[1..]| {
        AppendAssoc([a[0]], a[1..], TakeUntil(b, chars));
        assert [a[0]] + a[1..] == a;
      }
    }
  }

  /** Appending to the last part of a join appends to the join. */
  lemma {:induction false} JoinAppendLast(parts: seq<string>, sep: string, t: string)
    requires |parts| >= 1
    ensures Join(parts[..|parts| - 1] + [parts[|parts| - 1] + t], sep) == Join(parts, sep) + t
    decreases |parts|
  {
    var longer := parts[..|parts| - 1] + [parts[|parts| - 1] + t];
    if |parts| > 1 {
      JoinAppendLast(parts[1..], sep, t);
      assert longer[1..] == parts[1..][..|parts| - 2] + [parts[|parts| - 1] + t];
      AppendAssoc(parts[0] + sep, Join(parts[1..], sep), t);
    }
  }

  /** A line break is whitespace. */
  lemma NewlineIsWhitespace()
    ensures '\n' in Whitespace
  {
  }

  /** `c.upper()` on ASCII letters; every other character is kept. */
  function UpperChar(c: char): char {
    if 'a' <= c <= 'z' then (c as int - 32) as char else c
  }

  /** `c.lower()` on ASCII letters; every other character is kept. */
  function LowerChar(c: char): char {
    if 'A' <= c <= 'Z' then (c as int + 32) as char else c
  }

  /** `s.upper()`, character by character. */
  function Upper(s: string): (r: string)
    ensures |r| == |s| && forall i :: 0 <= i < |s| ==> r[i] == UpperChar(s[i])
  {
    seq(|s|, i requires 0 <= i < |s| => UpperChar(s[i]))
  }

  /** `s.lower()`, character by character. */
  function Lower(s: string): (r: string)
    ensures |r| == |s| && forall i :: 0 <= i < |s| ==> r[i] == LowerChar(s[i])
  {
    seq(|s|, i requires 0 <= i < |s| => LowerChar(s[i]))
  }

  /** Uppercasing leaves no lower-case ASCII letter, is idempotent and
      distributes over concatenation. */
  lemma UpperProperties(a: string, b: string)
    ensures forall i :: 0 <= i < |Upper(a)| ==> !('a' <= Upper(a)[i] <= 'z')
    ensures Upper(Upper(a)) == Upper(a)
    ensures Upper(a + b) == Upper(a) + Upper(b)
  {
    UpperAppend(a, b);
  }

  lemma UpperAppend(a: string, b: string)
    ensures Upper(a + b) == Upper(a) + Upper(b)
  {
    forall i | 0 <= i < |a + b| ensures Upper(a + b)[i] == (Upper(a) + Upper(b))[i] {
      if i >= |a| {
        assert (a + b)[i] == b[i - |a|];
      }
    }
  }

  /** `sep` starts at index `k` of `s`. */
  predicate OccursAt(s: string, sep: string, k: nat) {
    k + |sep| <= |s| && s[k..k + |sep|] == sep
  }

  /** `s.find(sep, start)` for a non-negative answer: the leftmost occurrence at
      or after `start`. */
  function Find(s: string, sep: string, start: nat): (r: Option<nat>)
    ensures r.Some? ==> start <= r.value && OccursAt(s, sep, r.value)
    ensures r.Some? ==> forall j :: start <= j < r.value ==> !OccursAt(s, sep, j)
    ensures r.None? ==> forall j :: start <= j ==> !OccursAt(s, sep, j)
    decreases |s| - start
  {
    if start + |sep| > |s| then None
    else if OccursAt(s, sep, start) then Some(start)
    else Find(s, sep, start + 1)
  }

  /** The leftmost occurrence is found from any start before it. */
  lemma {:induction false} FindLeftmost(s: string, sep: string, start: nat, k: nat)
    requires start <= k && OccursAt(s, sep, k)
    requires forall j :: start <= j < k ==> !OccursAt(s, sep, j)
    ensures Find(s, sep, start) == Some(k)
    decreases k - start
  {
    if start < k {
      FindLeftmost(s, sep, start + 1, k);
    }
  }

  /** `s.split(sep)` for a non-empty separator: cut at each leftmost
      occurrence, left to right. */
  function Split(s: string, sep: string): (r: seq<string>)
    requires |sep| > 0
    ensures |r| >= 1
    decreases |s|
  {
    match Find(s, sep, 0)
    case None => [s]
    case Some(k) => [s[..k]] + Split(s[k + |sep|..], sep)
  }

  /** `sep.join(parts)`. */
  function Join(parts: seq<string>, sep: string): string
    decreases |parts|
  {
    if |parts| == 0 then ""
    else if |parts| == 1 then parts[0]
    else parts[0] + sep + Join(parts[1..], sep)
  }

  /** Joining the pieces of a split gives the string back. */
  lemma {:induction false} SplitThenJoin(s: string, sep: string)
    requires |sep| > 0
    ensures Join(Split(s, sep), sep) == s
    decreases |s|
  {
    match Find(s, sep, 0)
    case None =>
    case Some(k) =>
      var rest := Split(s[k + |sep|..], sep);
      SplitThenJoin(s[k + |sep|..], sep);
      assert ([s[..k]] + rest)[1..] == rest;
      assert s == s[..k] + sep + s[k + |sep|..] by {
        assert s[k..k + |sep|] == sep;
        assert s == s[..k] + s[k..k + |sep|] + s[k + |sep|..];
      }
  }

  /** Splitting a join gives the parts back when no part contains the
      separator's first character. */
  lemma {:induction false} JoinThenSplit(parts: seq<string>, sep: string)
    requires |parts| >= 1 && |sep| > 0
    requires forall i :: 0 <= i < |parts| ==> sep[0] !in parts[i]
    ensures Split(Join(parts, sep), sep) == parts
    decreases |parts|
  {
    var p := parts[0];
    if |parts| == 1 {
      forall j | 0 <= j < |p| ensures !OccursAt(p, sep, j) {
        assert p[j] in p;
      }
    } else {
      var rest := Join(parts[1..], sep);
      var s := p + sep + rest;
      forall j | 0 <= j < |p| ensures !OccursAt(s, sep, j) {
        assert s[j] == p[j] && p[j] in p;
      }
      assert s[|p|..|p| + |sep|] == sep;
      FindLeftmost(s, sep, 0, |p|);
      assert s[..|p|] == p && s[|p| + |sep|..] == rest;
      JoinThenSplit(parts[1..], sep);
      assert [p] + parts[1..] == parts;
    }
  }

  predicate IsDigit(c: char) { '0' <= c <= '9' }

  predicate AllDigits(s: string) {
    forall i :: 0 <= i < |s| ==> IsDigit(s[i])
  }

  /** The value of a string of decimal digits. */
  function DigitsValue(s: string): nat
    requires AllDigits(s)
    decreases |s|
  {
    if s == [] then 0 else DigitsValue(s[..|s| - 1]) * 10 + (s[|s| - 1] as int - '0' as int)
  }

  /** `int(s)` on an optionally signed decimal numeral between optional
      whitespace; anything else is Python's `ValueError`. */
  function ParseInt(s: string): Option<int> {
    Numeral(RStrip(LStrip(s, Whitespace), Whitespace))
  }

  /** The value of an optionally signed decimal numeral. */
  function Numeral(t: string): Option<int> {
    var signed := |t| > 0 && (t[0] == '-' || t[0] == '+');
    var digits := if signed then t[1..] else t;
    if |digits| > 0 && AllDigits(digits) then
      Some(if signed && t[0] == '-' then -(DigitsValue(digits) as int) else DigitsValue(digits))
    else None
  }

  /** `str(n)` for a natural number. */
  function NatToString(n: nat): (r: string)
    ensures |r| >= 1 && AllDigits(r)
  {
    var d := [(n % 10 + '0' as int) as char];
    if n < 10 then d else NatToString(n / 10) + d
  }

  /** `str(i)`. */
  function IntToString(i: int): string {
    if i < 0 then "-" + NatToString(-i) else NatToString(i)
  }

  lemma {:induction false} NatToStringValue(n: nat)
    ensures DigitsValue(NatToString(n)) == n
  {
    var s := NatToString(n);
    assert s[..|s| - 1] == if n < 10 then [] else NatToString(n / 10);
    if n >= 10 {
      NatToStringValue(n / 10);
    }
  }

  /** A digit or a minus sign is neither whitespace nor a separator. */
  lemma NumeralChar(c: char)
    requires IsDigit(c) || c == '-'
    ensures c !in Whitespace + {',', ':', '|'}
  {
  }

  /** A numeral, signed or not, contains no whitespace and no separator. */
  lemma NumeralAvoids(s: string)
    requires forall i :: 0 <= i < |s| ==> IsDigit(s[i]) || s[i] == '-'
    ensures Avoids(s, Whitespace + {',', ':', '|'})
    ensures Avoids(s, Whitespace)
  {
    forall i | 0 <= i < |s| ensures s[i] !in Whitespace + {',', ':', '|'} {
      NumeralChar(s[i]);
    }
  }

  /** A minus sign before digits is read as the negated value of the digits. */
  lemma NumeralNegative(t: string, digits: string)
    requires |digits| > 0 && AllDigits(digits)
    requires |t| > 0 && t[0] == '-' && t[1..] == digits
    ensures Numeral(t) == Some(-(DigitsValue(digits) as int))
  {
  }

  /** A plain numeral, unsigned or with a minus sign, has its decimal value. */
  lemma NumeralValue(digits: string)
    requires |digits| > 0 && AllDigits(digits)
    ensures Numeral(digits) == Some(DigitsValue(digits) as int)
    ensures Numeral("-" + digits) == Some(-(DigitsValue(digits) as int))
  {
    var t := "-" + digits;
    assert |t| > 0 && t[0] == '-' && t[1..] == digits;
    NumeralNegative(t, digits);
  }

  /** `int(str(i)) == i`. */
  lemma ParseIntRoundTrip(i: int)
    ensures ParseInt(IntToString(i)) == Some(i)
  {
    var n: nat := if i < 0 then -i else i;
    NatToStringValue(n);
    NumeralValue(NatToString(n));
    NumeralAvoids(IntToString(i));
    StripNothing(IntToString(i), Whitespace);
  }

  /** `str(i)` is digits after an optional minus sign. */
  lemma IntToStringChars(i: int)
    ensures forall k :: 0 <= k < |IntToString(i)| ==> IsDigit(IntToString(i)[k]) || IntToString(i)[k] == '-'
  {
  }
}
