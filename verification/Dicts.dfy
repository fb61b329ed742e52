/** Python's dict, as the list of its entries in insertion order. */
module Dicts {
  import opened Wrappers

  ghost predicate DistinctKeys<K, V>(d: seq<(K, V)>) {
    forall i, j :: 0 <= i < j < |d| ==> d[i].0 != d[j].0
  }

  ghost predicate HasKey<K, V>(d: seq<(K, V)>, key: K) { exists i :: 0 <= i < |d| && d[i].0 == key }

  /** `d.get(key)`. */
  function Find<K(==), V>(d: seq<(K, V)>, key: K): Option<V> {
    if d == [] then None
    else if d[0].0 == key then Some(d[0].1)
    else Find(d[1..], key)
  }

  /** `d[key] = value`: an existing key keeps its place, a new one goes to the end. */
  function Put<K(==), V>(d: seq<(K, V)>, key: K, value: V): seq<(K, V)> {
    if d == [] then [(key, value)]
    else if d[0].0 == key then [(key, value)] + d[1..]
    else [d[0]] + Put(d[1..], key, value)
  }

  lemma {:induction false} PutNew<K, V>(d: seq<(K, V)>, key: K, value: V)
    requires !HasKey(d, key)
    ensures Put(d, key, value) == d + [(key, value)]
  {
    if d != [] {
      assert d[0].0 != key;
      forall i | 0 <= i < |d[1..]| ensures d[1..][i].0 != key { assert d[i + 1].0 != key; }
      PutNew(d[1..], key, value);
    }
  }

  /** Writing to a key that stands in the middle changes its value and nothing else. */
  lemma {:induction false} PutPresent<K, V>(before: seq<(K, V)>, key: K, held: V, value: V, after: seq<(K, V)>)
    requires !HasKey(before, key)
    ensures Put(before + [(key, held)] + after, key, value) == before + [(key, value)] + after
  {
    var d := before + [(key, held)] + after;
    if before == [] {
      assert d[1..] == after;
    } else {
      assert before[0].0 != key;
      forall i | 0 <= i < |before[1..]| ensures before[1..][i].0 != key { assert before[i + 1].0 != key; }
      PutPresent(before[1..], key, held, value, after);
      assert d[1..] == before[1..] + [(key, held)] + after;
    }
  }
}
