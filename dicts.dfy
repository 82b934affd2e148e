/** A JavaScript object used as a dictionary (`Record<string, V>`): string keys with
    values, enumerated by `Object.entries`/`Object.values` in the order the keys were
    first assigned. */
module Dicts {
  import opened Wrappers
  import Seqs

  datatype Entry<V> = Entry(key: string, value: V)

  type Dict<V> = seq<Entry<V>>

  /** No key is listed twice, as in every JavaScript object. */
  ghost predicate DistinctKeys<V>(d: Dict<V>) {
    forall i, j :: 0 <= i < j < |d| ==> d[i].key != d[j].key
  }

  /** The position of key `k`, if it is present. */
  function Find<V>(d: Dict<V>, k: string): (r: Option<nat>)
    ensures r.Some? ==> r.value < |d| && d[r.value].key == k
    ensures r.Some? ==> forall i :: 0 <= i < r.value ==> d[i].key != k
    ensures r.None? ==> forall i :: 0 <= i < |d| ==> d[i].key != k
  {
    if d == [] then None
    else if d[0].key == k then Some(0)
    else match Find(d[1..], k)
      case None => None
      case Some(i) => Some(i + 1)
  }

  /** `d[k]`, with `undefined` rendered as `None`. */
  function Get<V>(d: Dict<V>, k: string): (r: Option<V>)
    ensures r.None? <==> forall i :: 0 <= i < |d| ==> d[i].key != k
    ensures DistinctKeys(d) ==> forall i :: 0 <= i < |d| && d[i].key == k ==> r == Some(d[i].value)
  {
    match Find(d, k)
    case None => None
    case Some(i) => Some(d[i].value)
  }

  /** `d[k] = v`: an existing key keeps its place and takes the new value; a new key
      goes last. */
  function Put<V>(d: Dict<V>, k: string, v: V): (r: Dict<V>)
    ensures Get(r, k) == Some(v)
    ensures forall k' :: k' != k ==> Get(r, k') == Get(d, k')
    ensures DistinctKeys(d) ==> DistinctKeys(r)
    ensures Get(d, k).Some? ==> |r| == |d|
    ensures Get(d, k).None? ==> |r| == |d| + 1
    ensures forall i :: 0 <= i < |d| ==> r[i].key == d[i].key
    ensures Get(d, k).None? ==> r[|d|] == Entry(k, v)
  {
    match Find(d, k)
    case Some(i) =>
      var r := d[i := Entry(k, v)];
      assert forall k' :: Find(r, k') == Find(d, k') by {
        forall k' ensures Find(r, k') == Find(d, k') {
          FindSameKeys(r, d, k');
        }
      }
      r
    case None =>
      var r := d + [Entry(k, v)];
      assert r[|d|].key == k;
      assert Find(r, k) == Some(|d|);
      assert forall k' :: k' != k ==> Find(r, k') == Find(d, k') by {
        forall k' | k' != k ensures Find(r, k') == Find(d, k') {
          FindSameKeys(r[..|d|], d, k');
          FindInExtension(d, Entry(k, v), k');
        }
      }
      r
  }

  /** Two dictionaries listing the same keys in the same order find every key at the
      same place. */
  lemma {:induction false} FindSameKeys<V>(a: Dict<V>, b: Dict<V>, k: string)
    requires |a| == |b| && forall i :: 0 <= i < |a| ==> a[i].key == b[i].key
    ensures Find(a, k) == Find(b, k)
    decreases |a|
  {
    if a != [] && a[0].key != k {
      FindSameKeys(a[1..], b[1..], k);
    }
  }

  /** Appending an entry with another key does not change where `k` is found. */
  lemma {:induction false} FindInExtension<V>(d: Dict<V>, e: Entry<V>, k: string)
    requires e.key != k
    ensures Find(d + [e], k) == Find(d, k)
    decreases |d|
  {
    if d != [] && d[0].key != k {
      assert (d + [e])[1..] == d[1..] + [e];
      FindInExtension(d[1..], e, k);
    }
  }

  /** `Object.values(d)`. */
  function Values<V>(d: Dict<V>): (vs: seq<V>)
    ensures |vs| == |d|
    ensures forall i :: 0 <= i < |d| ==> vs[i] == d[i].value
  {
    seq(|d|, i requires 0 <= i < |d| => d[i].value)
  }

  /** The sum of `f` over the values. */
  function SumValues<V>(d: Dict<V>, f: V -> int): int {
    Seqs.SumOf(Values(d), f)
  }

  /** Assigning `d[k] = v` changes a sum over the values by what `v` adds and what
      the value it replaces took away. */
  lemma SumValuesPut<V>(d: Dict<V>, k: string, v: V, f: V -> int)
    requires DistinctKeys(d)
    ensures SumValues(Put(d, k, v), f)
      == SumValues(d, f) + f(v) - (match Get(d, k) case Some(prev) => f(prev) case None => 0)
  {
    match Find(d, k)
    case Some(i) =>
      assert Values(Put(d, k, v)) == Values(d)[i := v];
      Seqs.SumOfUpdate(Values(d), i, v, f);
    case None =>
      assert Values(Put(d, k, v)) == Values(d) + [v];
      Seqs.SumOfAppend(Values(d), [v], f);
  }
}
