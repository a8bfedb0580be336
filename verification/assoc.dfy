/** A JavaScript object (or `Map`) with string keys, used as a dictionary:
    a list of entries in insertion order, each key once. */
module Assoc {
  import opened Base

  type Entries<V> = seq<(string, V)>

  function Keys<V>(m: Entries<V>): (r: seq<string>)
    ensures |r| == |m|
    ensures forall i :: 0 <= i < |m| ==> r[i] == m[i].0
  {
    if m == [] then [] else [m[0].0] + Keys(m[1..])
  }

  /** `m[k]`, absent when there is no such key. */
  function Find<V>(m: Entries<V>, k: string): Option<V> {
    if m == [] then None
    else if m[0].0 == k then Some(m[0].1)
    else Find(m[1..], k)
  }

  /** `m[k] = v`: an existing key keeps its place, a new key goes last. */
  function Put<V>(m: Entries<V>, k: string, v: V): Entries<V>
    decreases |m|
  {
    if m == [] then [(k, v)]
    else if m[0].0 == k then [(k, v)] + m[1..]
    else [m[0]] + Put(m[1..], k, v)
  }

  lemma {:induction false} FindKeys<V>(m: Entries<V>, k: string)
    ensures Find(m, k).None? <==> k !in Keys(m)
  {
    if m != [] {
      FindKeys(m[1..], k);
      assert Keys(m) == [m[0].0] + Keys(m[1..]);
    }
  }

  lemma {:induction false} PutKeys<V>(m: Entries<V>, k: string, v: V)
    ensures Keys(Put(m, k, v)) == if k in Keys(m) then Keys(m) else Keys(m) + [k]
    decreases |m|
  {
    if m != [] {
      assert Keys(m) == [m[0].0] + Keys(m[1..]);
      if m[0].0 != k {
        PutKeys(m[1..], k, v);
      }
    }
  }

  lemma {:induction false} PutFind<V>(m: Entries<V>, k: string, v: V, j: string)
    ensures Find(Put(m, k, v), j) == if j == k then Some(v) else Find(m, j)
    decreases |m|
  {
    if m != [] && m[0].0 != k {
      PutFind(m[1..], k, v, j);
    }
  }
}
