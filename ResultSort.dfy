/**
 * `sort_analysis_results`: the items of a result dictionary in descending
 * order of their value, ties kept in dictionary order (Python's `sorted`
 * with `reverse=True` is stable). Scores are sorted by the score itself;
 * n-gram statistics by one of their fields, and come out flattened to
 * `(term, count, density)`.
 */
module ResultSort {
  import opened Dicts
  import opened Sorting
  import opened NGramDensity

  /** `item[1]`: the score of a TF-IDF item. */
  function Score(item: (string, real)): real
  {
    item.1
  }

  /** `sort_analysis_results(data_dict)`: items by descending score. */
  function SortByScore(d: Dict<real>): (r: seq<(string, real)>)
    ensures |r| == |d| && multiset(r) == multiset(d)
    ensures SortedDesc(r, Score)
  {
    if d == [] then [] else SortDesc(d, Score)
  }

  /** Items with equal scores keep their dictionary order. */
  lemma SortByScoreStable(d: Dict<real>, v: real)
    ensures WithKey(SortByScore(d), Score, v) == WithKey(d, Score, v)
  {
    SortDescStable(d, Score, v);
  }

  /** `stats.get(field, 0)`: a field that is neither "count" nor "density" reads as 0. */
  function FieldValue(stat: Stat, field: string): real
  {
    if field == "count" then stat.count as real
    else if field == "density" then stat.density
    else 0.0
  }

  /** The sort key of an n-gram item. */
  function ItemKey(field: string): ((string, Stat)) -> real
  {
    (item: (string, Stat)) => FieldValue(item.1, field)
  }

  /** `(term, data['count'], data['density'])`. */
  function Flatten(item: (string, Stat)): (string, nat, real)
  {
    (item.0, item.1.count, item.1.density)
  }

  /** The same field, read off a flattened item. */
  function RowKey(field: string): ((string, nat, real)) -> real
  {
    (row: (string, nat, real)) => if field == "count" then row.1 as real else if field == "density" then row.2 else 0.0
  }

  /**
   * `sort_analysis_results(data_dict, sort_by_key=field)`: the items sorted
   * by the field, then flattened. The result is the flattened items, each
   * once, in descending order of the field.
   */
  function SortByField(d: Dict<Stat>, field: string): (r: seq<(string, nat, real)>)
    ensures |r| == |d|
    ensures multiset(r) == multiset(MapSeq(d, Flatten))
    ensures SortedDesc(r, RowKey(field))
  {
    if d == [] then []
    else
      SortDescMap(d, ItemKey(field), Flatten, RowKey(field));
      MapSeq(SortDesc(d, ItemKey(field)), Flatten)
  }

  /** Items with the same value of the field keep their dictionary order. */
  lemma SortByFieldStable(d: Dict<Stat>, field: string, v: real)
    ensures WithKey(SortByField(d, field), RowKey(field), v) == WithKey(MapSeq(d, Flatten), RowKey(field), v)
  {
    SortDescMap(d, ItemKey(field), Flatten, RowKey(field));
    SortDescStable(MapSeq(d, Flatten), RowKey(field), v);
  }

  /** Sorting by a field the statistics do not have leaves the dictionary order. */
  lemma SortByUnknownField(d: Dict<Stat>, field: string)
    requires field != "count" && field != "density"
    ensures SortByField(d, field) == MapSeq(d, Flatten)
  {
    SortDescOfSorted(d, ItemKey(field));
  }

  /** Each sorted item is an item of the dictionary. */
  lemma SortByScoreMember(d: Dict<real>, p: nat) returns (q: nat)
    requires p < |SortByScore(d)|
    ensures q < |d| && SortByScore(d)[p] == d[q]
  {
    var r := SortByScore(d);
    assert r[p] in multiset(d);
    q :| 0 <= q < |d| && d[q] == r[p];
  }

  /** Each sorted row is the flattened form of an item of the dictionary. */
  lemma SortByFieldMember(d: Dict<Stat>, field: string, p: nat) returns (q: nat)
    requires p < |SortByField(d, field)|
    ensures q < |d| && SortByField(d, field)[p] == Flatten(d[q])
  {
    var r := SortByField(d, field);
    assert r[p] in multiset(MapSeq(d, Flatten));
    q :| 0 <= q < |d| && MapSeq(d, Flatten)[q] == r[p];
  }
}
