/**
 * Python dictionaries with string keys, as association lists kept in
 * insertion order (the order `dict.items()` yields them in).
 */
module Dicts {

  type Dict<V> = seq<(string, V)>

  /** The keys of `d`, in insertion order. */
  function Keys<V>(d: Dict<V>): (ks: seq<string>)
    ensures |ks| == |d|
    ensures forall i :: 0 <= i < |d| ==> ks[i] == d[i].0
  {
    seq(|d|, i requires 0 <= i < |d| => d[i].0)
  }

  /** No key occurs twice: what every real Python dict satisfies. */
  predicate DistinctKeys<V>(d: Dict<V>)
  {
    forall i, j :: 0 <= i < j < |d| ==> d[i].0 != d[j].0
  }

  /** Where `k` sits in `d`: the first entry with that key. */
  function IndexOf<V>(d: Dict<V>, k: string): (i: nat)
    requires k in Keys(d)
    ensures i < |d| && d[i].0 == k
    ensures forall j :: 0 <= j < i ==> d[j].0 != k
  {
    if d[0].0 == k then 0
    else
      assert k in Keys(d[1..]) by {
        var p :| 0 <= p < |d| && Keys(d)[p] == k;
        assert Keys(d[1..])[p - 1] == k;
      }
      1 + IndexOf(d[1..], k)
  }

  /**
   * `d[k] = v`: a present key keeps its position and gets the new value,
   * a new key is appended at the end.
   */
  function Put<V>(d: Dict<V>, k: string, v: V): (r: Dict<V>)
    ensures k !in Keys(d) ==> r == d + [(k, v)]
    ensures k in Keys(d) ==> |r| == |d| && Keys(r) == Keys(d)
    ensures DistinctKeys(d) ==> DistinctKeys(r)
  {
    if k in Keys(d) then
      var i := IndexOf(d, k);
      assert Keys(d[i := (k, v)]) == Keys(d);
      d[i := (k, v)]
    else
      d + [(k, v)]
  }

  /** Assigning to a present key changes that entry's value and nothing else. */
  lemma PutReplaces<V>(d: Dict<V>, k: string, v: V, i: nat)
    requires k in Keys(d) && DistinctKeys(d) && i < |d|
    ensures Put(d, k, v)[i] == if d[i].0 == k then (k, v) else d[i]
  {
    var p := IndexOf(d, k);
    assert d[i].0 == k ==> i == p;
  }
}
