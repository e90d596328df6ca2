/** `list.sort(key=int)` on a list of coordinate strings: every element is
    converted first (a string that is not an integer numeral is a
    `ValueError`), then the list is sorted stably by the integer values, so
    elements with equal values, such as `"7"` and `" 7"`, keep their order. */
module IntSort {
  import opened Common
  import opened Text
  import opened CampareeUtils

  /** The sort key `int(s)`; only consulted for strings that parse. */
  function IntKey(s: string): int {
    ParseInt(s).GetOr(0)
  }

  /** Every element converts with `int`. */
  predicate AllInts(xs: seq<string>) {
    forall i :: 0 <= i < |xs| ==> ParseInt(xs[i]).Some?
  }

  predicate SortedByKey<T>(xs: seq<T>, key: T -> int) {
    forall i, j :: 0 <= i < j < |xs| ==> key(xs[i]) <= key(xs[j])
  }

  /** Put `x` after every element whose key does not exceed its own. */
  function Insert<T>(x: T, xs: seq<T>, key: T -> int): (r: seq<T>)
    ensures |r| == |xs| + 1
    decreases |xs|
  {
    if xs == [] then [x]
    else if key(x) < key(xs[0]) then [x] + xs
    else [xs[0]] + Insert(x, xs[1..], key)
  }

  /** Stable insertion sort by `key`, taking the elements left to right. */
  function SortBy<T>(xs: seq<T>, key: T -> int): (r: seq<T>)
    ensures |r| == |xs|
    decreases |xs|
  {
    if xs == [] then [] else Insert(xs[|xs| - 1], SortBy(xs[..|xs| - 1], key), key)
  }

  /** The stable sort by integer value. */
  function SortInts(xs: seq<string>): seq<string> {
    SortBy(xs, IntKey)
  }

  /** `xs.sort(key=int)`: a `ValueError` as soon as one element is not an
      integer numeral (even in a one-element list, whose keys are still
      computed), otherwise the stable sort. */
  function SortByInt(xs: seq<string>): (r: Result<seq<string>, PyError>)
    ensures r.Failure? <==> !AllInts(xs)
    ensures r.Failure? ==> r.error == ValueError
  {
    if AllInts(xs) then Success(SortInts(xs)) else Failure(ValueError)
  }

  /** The elements whose key is `k`, in order. */
  function KeyRun<T>(xs: seq<T>, key: T -> int, k: int): seq<T>
    decreases |xs|
  {
    if xs == [] then [] else (if key(xs[0]) == k then [xs[0]] else []) + KeyRun(xs[1..], key, k)
  }

  /** No key of `xs` is below `b`. */
  predicate KeysFrom<T>(xs: seq<T>, key: T -> int, b: int) {
    forall i :: 0 <= i < |xs| ==> b <= key(xs[i])
  }

  /** A bound on every key stays a bound after inserting an element above it. */
  lemma {:induction false} InsertKeysFrom<T>(x: T, xs: seq<T>, key: T -> int, b: int)
    requires KeysFrom(xs, key, b) && b <= key(x)
    ensures KeysFrom(Insert(x, xs, key), key, b)
    decreases |xs|
  {
    if xs != [] && key(x) >= key(xs[0]) {
      InsertKeysFrom(x, xs[1..], key, b);
    }
  }

  lemma {:induction false} InsertSorted<T>(x: T, xs: seq<T>, key: T -> int)
    requires SortedByKey(xs, key)
    ensures SortedByKey(Insert(x, xs, key), key)
    decreases |xs|
  {
    if xs != [] && key(x) >= key(xs[0]) {
      InsertSorted(x, xs[1..], key);
      InsertKeysFrom(x, xs[1..], key, key(xs[0]));
    }
  }

  lemma {:induction false} InsertPermutes<T>(x: T, xs: seq<T>, key: T -> int)
    ensures multiset(Insert(x, xs, key)) == multiset(xs) + multiset{x}
    decreases |xs|
  {
    if xs != [] && key(x) >= key(xs[0]) {
      InsertPermutes(x, xs[1..], key);
      assert xs == [xs[0]] + xs[1..];
    }
  }

  /** The sort orders by key and keeps every element: a sorted permutation. */
  lemma {:induction false} SortBySorted<T>(xs: seq<T>, key: T -> int)
    ensures SortedByKey(SortBy(xs, key), key)
    ensures multiset(SortBy(xs, key)) == multiset(xs)
    decreases |xs|
  {
    if xs != [] {
      var init := xs[..|xs| - 1];
      SortBySorted(init, key);
      InsertSorted(xs[|xs| - 1], SortBy(init, key), key);
      InsertPermutes(xs[|xs| - 1], SortBy(init, key), key);
      assert xs == init + [xs[|xs| - 1]];
    }
  }

  /** A sorted list whose first key exceeds `k` has no element of key `k`. */
  lemma {:induction false} KeyRunAbove<T>(xs: seq<T>, key: T -> int, k: int)
    requires SortedByKey(xs, key) && xs != [] && k < key(xs[0])
    ensures KeyRun(xs, key, k) == []
    decreases |xs|
  {
    if |xs| > 1 {
      KeyRunAbove(xs[1..], key, k);
    }
  }

  lemma {:induction false} KeyRunAppend<T>(a: seq<T>, b: seq<T>, key: T -> int, k: int)
    ensures KeyRun(a + b, key, k) == KeyRun(a, key, k) + KeyRun(b, key, k)
    decreases |a|
  {
    if a == [] {
      assert a + b == b;
    } else {
      assert (a + b)[1..] == a[1..] + b;
      KeyRunAppend(a[1..], b, key, k);
      AppendAssoc(if key(a[0]) == k then [a[0]] else [], KeyRun(a[1..], key, k), KeyRun(b, key, k));
    }
  }

  /** Inserting `x` puts it after the elements of equal key. */
  lemma {:induction false} InsertKeyRun<T>(x: T, xs: seq<T>, key: T -> int, k: int)
    requires SortedByKey(xs, key)
    ensures KeyRun(Insert(x, xs, key), key, k) == KeyRun(xs, key, k) + KeyRun([x], key, k)
    decreases |xs|
  {
    if xs == [] {
    } else if key(x) < key(xs[0]) {
      KeyRunAppend([x], xs, key, k);
      if key(x) == k {
        KeyRunAbove(xs, key, k);
      }
    } else {
      InsertKeyRun(x, xs[1..], key, k);
      var head := if key(xs[0]) == k then [xs[0]] else [];
      AppendAssoc(head, KeyRun(xs[1..], key, k), KeyRun([x], key, k));
    }
  }

  /** The sort is stable: for every key, the elements with that key appear
      in the sorted list in their original order. */
  lemma {:induction false} SortByStable<T>(xs: seq<T>, key: T -> int, k: int)
    ensures KeyRun(SortBy(xs, key), key, k) == KeyRun(xs, key, k)
    decreases |xs|
  {
    if xs != [] {
      var init, last := xs[..|xs| - 1], xs[|xs| - 1];
      SortByStable(init, key, k);
      SortBySorted(init, key);
      InsertKeyRun(last, SortBy(init, key), key, k);
      assert xs == init + [last];
      KeyRunAppend(init, [last], key, k);
    }
  }

  /** The first element of the sorted list has the smallest key of the list
      and the last one the largest, and both come from the list. */
  lemma SortByEnds<T>(xs: seq<T>, key: T -> int)
    requires xs != []
    ensures var s := SortBy(xs, key);
            |s| == |xs| && s[0] in xs && s[|s| - 1] in xs
            && forall i :: 0 <= i < |xs| ==> key(s[0]) <= key(xs[i]) <= key(s[|s| - 1])
  {
    var s := SortBy(xs, key);
    SortBySorted(xs, key);
    assert s[0] in multiset(xs) && s[|s| - 1] in multiset(xs);
    forall i | 0 <= i < |xs| ensures key(s[0]) <= key(xs[i]) <= key(s[|s| - 1]) {
      assert xs[i] in multiset(s);
      var j :| 0 <= j < |s| && s[j] == xs[i];
    }
  }

  /** What `sort(key=int)` promises: a successful sort is a permutation
      ordered by integer value, stable among equal values. */
  lemma SortByIntSpec(xs: seq<string>)
    ensures SortByInt(xs).Success? ==>
              var s := SortByInt(xs).value;
              && multiset(s) == multiset(xs)
              && SortedByKey(s, IntKey)
              && forall k :: KeyRun(s, IntKey, k) == KeyRun(xs, IntKey, k)
  {
    SortBySorted(xs, IntKey);
    forall k ensures KeyRun(SortInts(xs), IntKey, k) == KeyRun(xs, IntKey, k) {
      SortByStable(xs, IntKey, k);
    }
  }
}
