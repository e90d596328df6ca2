/** Small shared vocabulary: optional values, results with an error path, and
    the lookup and increment rules of Python's `collections.Counter`. */
module Common {

  datatype Option<T> = None | Some(value: T) {
    function GetOr(default: T): T {
      match this
      case Some(v) => v
      case None => default
    }
  }

  datatype Result<T, E> = Success(value: T) | Failure(error: E) {
    predicate IsFailure() { Failure? }
    function PropagateFailure<U>(): Result<U, E>
      requires Failure?
    {
      Failure(error)
    }
    function Extract(): T
      requires Success?
    {
      value
    }
  }

  /** `counter[k]` on a Counter of integers: a missing key reads as 0 (and is not inserted). */
  function Count<K>(m: map<K, nat>, k: K): nat {
    if k in m then m[k] else 0
  }

  /** `counter[k]` on a Counter of floats, modelled over the reals. */
  function RealCount<K>(m: map<K, real>, k: K): real {
    if k in m then m[k] else 0.0
  }

  /** `for k in keys: counter[k] += 1` for a set of distinct keys. */
  function Bump<K>(m: map<K, nat>, keys: set<K>): (r: map<K, nat>)
    ensures r.Keys == m.Keys + keys
    ensures forall k :: k in keys ==> Count(r, k) == Count(m, k) + 1
    ensures forall k :: k in m && k !in keys ==> r[k] == m[k]
  {
    map k | k in m.Keys + keys :: Count(m, k) + (if k in keys then 1 else 0)
  }

  /** Adding one more key to a bump is one more `+= 1`. */
  lemma BumpOneMore<K>(m: map<K, nat>, keys: set<K>, k: K)
    requires k !in keys
    ensures Bump(m, keys + {k}) == Bump(m, keys)[k := Count(Bump(m, keys), k) + 1]
  {
    var lhs := Bump(m, keys + {k});
    var rhs := Bump(m, keys)[k := Count(Bump(m, keys), k) + 1];
    assert lhs.Keys == rhs.Keys;
    forall j | j in lhs.Keys ensures lhs[j] == rhs[j] {
      assert Count(lhs, j) == lhs[j];
    }
  }

  /** Bumping no key changes nothing. */
  lemma BumpNothing<K>(m: map<K, nat>)
    ensures Bump(m, {}) == m
  {
  }

  /** The entries of `m` whose keys are in `keys`. */
  function Restrict<K, V>(m: map<K, V>, keys: set<K>): map<K, V> {
    map k | k in m.Keys * keys :: m[k]
  }

  /** Writing the entries of `m` over `o` one key at a time. */
  lemma RestrictOneMore<K, V>(o: map<K, V>, m: map<K, V>, keys: set<K>, k: K)
    ensures k in m ==> o + Restrict(m, keys + {k}) == (o + Restrict(m, keys))[k := m[k]]
    ensures k !in m ==> o + Restrict(m, keys + {k}) == o + Restrict(m, keys)
  {
    if k in m {
      assert (o + Restrict(m, keys + {k})).Keys == (o + Restrict(m, keys))[k := m[k]].Keys;
    } else {
      assert Restrict(m, keys + {k}) == Restrict(m, keys);
    }
  }

  lemma RestrictAll<K, V>(o: map<K, V>, m: map<K, V>, keys: set<K>)
    ensures o + Restrict(m, {}) == o
    ensures m.Keys <= keys ==> Restrict(m, keys) == m
  {
    assert Restrict(m, {}) == map[];
    assert o + map[] == o;
  }

  /** A counter every key of which was created by `+= 1` holds only positive values. */
  ghost predicate PositiveCounter<K>(m: map<K, nat>) {
    forall k :: k in m ==> m[k] > 0
  }

  /** `dict(pairs)` (or a loop of `d[k] = v`): the later of two pairs with the same key wins. */
  function MapOfPairs<K, V>(pairs: seq<(K, V)>): map<K, V>
    decreases |pairs|
  {
    if pairs == [] then map[]
    else MapOfPairs(pairs[..|pairs| - 1])[pairs[|pairs| - 1].0 := pairs[|pairs| - 1].1]
  }

  /** The map holds, for each key, the value of its last pair. */
  lemma {:induction false} MapOfPairsLastWins<K, V>(pairs: seq<(K, V)>, i: nat)
    requires i < |pairs|
    requires forall j :: i < j < |pairs| ==> pairs[j].0 != pairs[i].0
    ensures pairs[i].0 in MapOfPairs(pairs) && MapOfPairs(pairs)[pairs[i].0] == pairs[i].1
    decreases |pairs|
  {
    if i < |pairs| - 1 {
      MapOfPairsLastWins(pairs[..|pairs| - 1], i);
    }
  }

  /** The keys of the map are the keys of the pairs. */
  lemma {:induction false} MapOfPairsKeys<K, V>(pairs: seq<(K, V)>)
    ensures MapOfPairs(pairs).Keys == set i | 0 <= i < |pairs| :: pairs[i].0
    decreases |pairs|
  {
    if pairs != [] {
      var init := pairs[..|pairs| - 1];
      MapOfPairsKeys(init);
      assert forall i :: 0 <= i < |init| ==> init[i] == pairs[i];
    }
  }
}
