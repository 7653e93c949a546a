/**
 * `_get_ngram_density`: for each n-gram order 1 to 4, the count of each of
 * the document's 50 most frequent n-grams and its density (count over the
 * number of n-grams of that order in the document). The tokenizer and the
 * English stop-word list are parameters; the n-grams of order n are the
 * runs of n consecutive tokens left after stop-word removal, joined by
 * single spaces. `round(_, 5)` is a parameter too.
 */
module NGramDensity {
  import opened Wrappers
  import opened Dicts
  import opened Sorting

  /** How many n-grams per order `_get_ngram_density` looks at. */
  const TopNgrams: nat := 50

  /** Count and density of one n-gram. */
  datatype Stat = Stat(count: nat, density: real)

  /** The tokens that are not stop words, in order. */
  function WithoutStopWords(tokens: seq<string>, isStopWord: string -> bool): (words: seq<string>)
    ensures |words| <= |tokens|
  {
    if tokens == [] then []
    else (if isStopWord(tokens[0]) then [] else [tokens[0]]) + WithoutStopWords(tokens[1..], isStopWord)
  }

  /** Words joined by single spaces: how the vectorizer names an n-gram. */
  function JoinWords(words: seq<string>): string
  {
    if words == [] then ""
    else if |words| == 1 then words[0]
    else words[0] + " " + JoinWords(words[1..])
  }

  /** The n-grams of order `n`, one per position, in document order. */
  function NGrams(words: seq<string>, n: nat): (g: seq<string>)
    requires n >= 1
    ensures |g| == if |words| >= n then |words| - n + 1 else 0
  {
    if |words| < n then []
    else seq(|words| - n + 1, i requires 0 <= i <= |words| - n => JoinWords(words[i..i + n]))
  }

  /** The dictionary key of order `n`: `f"{n}gram"`. */
  function OrderKey(n: nat): string
    requires 1 <= n <= 9
  {
    [('0' as int + n) as char] + "gram"
  }

  /** Different orders get different keys. */
  lemma OrderKeyInjective(n: nat, m: nat)
    requires 1 <= n <= 9 && 1 <= m <= 9
    ensures OrderKey(n) == OrderKey(m) <==> n == m
  {
    if OrderKey(n) == OrderKey(m) {
      assert OrderKey(n)[0] == OrderKey(m)[0];
    }
  }

  /** How often `t` occurs in `g`. */
  function Occurrences(g: seq<string>, t: string): nat
  {
    if g == [] then 0
    else Occurrences(g[..|g| - 1], t) + (if g[|g| - 1] == t then 1 else 0)
  }

  /** The distinct n-grams of the document, in order of first occurrence. */
  function Vocabulary(g: seq<string>): (v: seq<string>)
    ensures Distinct(v)
    ensures forall t :: t in v <==> t in g
  {
    if g == [] then []
    else
      var prev := Vocabulary(g[..|g| - 1]);
      var last := g[|g| - 1];
      assert g == g[..|g| - 1] + [last];
      if last in prev then prev else prev + [last]
  }

  /** The document's row of the document-term matrix: the count of each vocabulary entry. */
  function Row(v: seq<string>, g: seq<string>): (row: seq<nat>)
    ensures |row| == |v| && forall i :: 0 <= i < |v| ==> row[i] == Occurrences(g, v[i])
  {
    if v == [] then [] else Row(v[..|v| - 1], g) + [Occurrences(g, v[|v| - 1])]
  }

  /** `row.sum()`. */
  function Sum(s: seq<nat>): nat
  {
    if s == [] then 0 else Sum(s[..|s| - 1]) + s[|s| - 1]
  }

  function AsReals(s: seq<nat>): (r: seq<real>)
    ensures |r| == |s| && forall i :: 0 <= i < |s| ==> r[i] == s[i] as real
  {
    seq(|s|, i requires 0 <= i < |s| => s[i] as real)
  }

  /** The vocabulary of a single-document corpus with that document's counts. */
  datatype CountRow = CountRow(features: seq<string>, counts: seq<nat>)

  /** What the count vectorizer guarantees of its output for the document `g`. */
  ghost predicate IsCountRowOf(row: CountRow, g: seq<string>)
  {
    && |row.features| == |row.counts|
    && Distinct(row.features)
    && (forall t :: t in row.features <==> t in g)
    && (forall i :: 0 <= i < |row.counts| ==> row.counts[i] == Occurrences(g, row.features[i]) > 0)
    && Sum(row.counts) == |g|
  }

  /**
   * `CountVectorizer(ngram_range=(n, n)).fit_transform([text])[0]`: `None`
   * is the ValueError it raises when the document has no n-gram of that
   * order (an empty vocabulary).
   */
  function CountVectorize(g: seq<string>): (r: Option<CountRow>)
    ensures r.None? <==> g == []
    ensures r.Some? ==> r.value == DocumentRow(g) && IsCountRowOf(r.value, g)
  {
    if g == [] then None
    else
      var v := Vocabulary(g);
      TotalIsNGramCount(g);
      forall i | 0 <= i < |v| ensures Occurrences(g, v[i]) > 0 {
        OccurrencesPositive(g, v[i]);
      }
      Some(DocumentRow(g))
  }

  /** The vocabulary of the document `g` with its counts. */
  function DocumentRow(g: seq<string>): CountRow
  {
    CountRow(Vocabulary(g), Row(Vocabulary(g), g))
  }

  /** `round(count / total_ngrams, 5) if total_ngrams > 0 else 0`. */
  function Density(count: nat, total: nat, round5: real -> real): (r: real)
    ensures total == 0 ==> r == 0.0
    ensures count <= total && (forall x :: 0.0 <= x <= 1.0 ==> 0.0 <= round5(x) <= 1.0) ==> 0.0 <= r <= 1.0
  {
    if total > 0 then
      FractionOf(count, total);
      round5(count as real / total as real)
    else 0.0
  }

  /** A count out of a larger positive total is a fraction in [0, 1]. */
  lemma FractionOf(count: nat, total: nat)
    requires total > 0
    ensures count <= total ==> 0.0 <= count as real / total as real <= 1.0
  {
    if count <= total {
      Fraction(count as real, total as real);
    }
  }

  predicate InRange(row: CountRow, idx: seq<nat>)
  {
    forall p :: 0 <= p < |idx| ==> idx[p] < |row.features| && idx[p] < |row.counts|
  }

  /**
   * What the loop over `idx` leaves in the dictionary: each n-gram with a
   * positive count, with that count and its rounded density, in `idx` order.
   */
  function Selected(row: CountRow, idx: seq<nat>, round5: real -> real): (d: Dict<Stat>)
    requires InRange(row, idx)
    ensures |d| <= |idx|
    decreases |idx|
  {
    if idx == [] then []
    else
      var prev := Selected(row, idx[..|idx| - 1], round5);
      var i := idx[|idx| - 1];
      var count := row.counts[i];
      var total := Sum(row.counts);
      if count > 0 then
        prev + [(row.features[i], Stat(count, Density(count, total, round5)))]
      else prev
  }

  /** The result for one order, given the vectorizer's row: the kept entries of some top-50 selection. */
  ghost predicate IsDensitySelection(row: CountRow, round5: real -> real, stats: Dict<Stat>)
  {
    && |row.features| == |row.counts|
    && exists idx :: IsTopIndices(AsReals(row.counts), idx, TopNgrams) && stats == Selected(row, idx, round5)
  }

  /** The result for one order: `{}` when the vectorizer raised, else a density selection. */
  ghost predicate IsOrderDensity(g: seq<string>, round5: real -> real, stats: Dict<Stat>)
  {
    if g == [] then stats == [] else IsDensitySelection(DocumentRow(g), round5, stats)
  }

  /** The body of the `try` for one order, after `fit_transform`. */
  method OrderStats(row: CountRow, round5: real -> real) returns (stats: Dict<Stat>)
    requires |row.features| == |row.counts| && Distinct(row.features)
    ensures IsDensitySelection(row, round5, stats)
  {
    var idx := ArgTop(AsReals(row.counts), TopNgrams);
    assert InRange(row, idx) && Distinct(idx);
    stats := SelectStats(row, idx, round5);
  }

  /** The loop of `OrderStats` over the selected positions. */
  method SelectStats(row: CountRow, idx: seq<nat>, round5: real -> real) returns (stats: Dict<Stat>)
    requires InRange(row, idx) && Distinct(idx) && Distinct(row.features)
    ensures stats == Selected(row, idx, round5)
  {
    var total := Sum(row.counts);
    stats := [];
    for i := 0 to |idx|
      invariant stats == Selected(row, idx[..i], round5)
    {
      SelectedStep(row, idx, i, round5);
      var count := row.counts[idx[i]];
      if count > 0 {
        var term := row.features[idx[i]];
        var density := Density(count, total, round5);
        stats := Put(stats, term, Stat(count, density));
      }
    }
    assert idx[..|idx|] == idx;
  }

  /**
   * One turn of the loop in `SelectStats`: the dictionary assignment adds a
   * new key, so it appends the entry that `Selected` adds.
   */
  lemma SelectedStep(row: CountRow, idx: seq<nat>, i: nat, round5: real -> real)
    requires InRange(row, idx) && Distinct(idx) && Distinct(row.features) && i < |idx|
    ensures
      var count := row.counts[idx[i]];
      var total := Sum(row.counts);
      Selected(row, idx[..i + 1], round5) ==
        if count > 0 then
          Put(Selected(row, idx[..i], round5), row.features[idx[i]],
              Stat(count, Density(count, total, round5)))
        else Selected(row, idx[..i], round5)
  {
    assert idx[..i + 1][..i] == idx[..i];
    var prev := Selected(row, idx[..i], round5);
    forall p | 0 <= p < |prev| ensures prev[p].0 != row.features[idx[i]] {
      var q := SelectedEntry(row, idx[..i], round5, p);
      assert idx[q] != idx[i];
    }
  }

  /**
   * `_get_ngram_density`: one entry per order, keyed "1gram" to "4gram" in
   * that order; an order whose vectorizer raises gets `{}` and leaves the
   * other orders as they are.
   */
  method DensityByOrder(tokens: seq<string>, isStopWord: string -> bool, round5: real -> real)
    returns (results: Dict<Dict<Stat>>)
    ensures Keys(results) == [OrderKey(1), OrderKey(2), OrderKey(3), OrderKey(4)]
    ensures forall i :: 0 <= i < |results| ==>
      IsOrderDensity(NGrams(WithoutStopWords(tokens, isStopWord), i + 1), round5, results[i].1)
  {
    var words := WithoutStopWords(tokens, isStopWord);
    results := [];
    for n := 1 to 5
      invariant |results| == n - 1 && OrdersDone(words, round5, results)
    {
      var stats := OrderDensity(words, n, round5);
      OrderKeyFresh(results, n);
      OrdersDoneStep(words, round5, results, stats);
      results := Put(results, OrderKey(n), stats);
    }
    OrderKeysInOrder(results);
  }

  /** The orders 1 to |results| are done, each under its own key. */
  ghost predicate OrdersDone(words: seq<string>, round5: real -> real, results: Dict<Dict<Stat>>)
  {
    forall i :: 0 <= i < |results| ==>
      i + 1 <= 9 && results[i].0 == OrderKey(i + 1) && IsOrderDensity(NGrams(words, i + 1), round5, results[i].1)
  }

  lemma OrdersDoneStep(words: seq<string>, round5: real -> real, results: Dict<Dict<Stat>>, stats: Dict<Stat>)
    requires |results| < 9 && OrdersDone(words, round5, results)
    requires IsOrderDensity(NGrams(words, |results| + 1), round5, stats)
    ensures OrdersDone(words, round5, results + [(OrderKey(|results| + 1), stats)])
  {
    var r := results + [(OrderKey(|results| + 1), stats)];
    forall i | 0 <= i < |r|
      ensures i + 1 <= 9 && r[i].0 == OrderKey(i + 1) && IsOrderDensity(NGrams(words, i + 1), round5, r[i].1)
    {
      OrderDoneAt(words, round5, results, stats, r, i);
    }
  }

  lemma OrderDoneAt(words: seq<string>, round5: real -> real, results: Dict<Dict<Stat>>, stats: Dict<Stat>, r: Dict<Dict<Stat>>, i: nat)
    requires |results| < 9 && OrdersDone(words, round5, results)
    requires IsOrderDensity(NGrams(words, |results| + 1), round5, stats)
    requires r == results + [(OrderKey(|results| + 1), stats)] && i < |r|
    ensures i + 1 <= 9 && r[i].0 == OrderKey(i + 1) && IsOrderDensity(NGrams(words, i + 1), round5, r[i].1)
  {
    if i < |results| {
      OrderDoneBefore(words, round5, results, r, i);
    } else {
      OrderDoneLast(words, round5, stats, r, i);
    }
  }

  lemma OrderDoneBefore(words: seq<string>, round5: real -> real, results: Dict<Dict<Stat>>, r: Dict<Dict<Stat>>, i: nat)
    requires OrdersDone(words, round5, results) && i < |results| <= |r| && r[..|results|] == results
    ensures i + 1 <= 9 && r[i].0 == OrderKey(i + 1) && IsOrderDensity(NGrams(words, i + 1), round5, r[i].1)
  {
    assert r[i] == results[i];
  }

  lemma OrderDoneLast(words: seq<string>, round5: real -> real, stats: Dict<Stat>, r: Dict<Dict<Stat>>, i: nat)
    requires i < 9 && i + 1 == |r| && r[i] == (OrderKey(i + 1), stats)
    requires IsOrderDensity(NGrams(words, i + 1), round5, stats)
    ensures i + 1 <= 9 && r[i].0 == OrderKey(i + 1) && IsOrderDensity(NGrams(words, i + 1), round5, r[i].1)
  {
  }

  /** `OrderKey(n)` is new after the orders below it: those keys start with a smaller digit. */
  lemma OrderKeyFresh(d: Dict<Dict<Stat>>, n: nat)
    requires 1 <= n <= 4 && |d| == n - 1
    requires forall i :: 0 <= i < |d| ==> i + 1 <= 9 && d[i].0 == OrderKey(i + 1)
    ensures OrderKey(n) !in Keys(d)
  {
    forall i | 0 <= i < |d| ensures Keys(d)[i] != OrderKey(n) {
      assert Keys(d)[i][0] != OrderKey(n)[0];
    }
  }

  lemma OrderKeysInOrder<V>(d: Dict<V>)
    requires |d| == 4 && forall i :: 0 <= i < |d| ==> d[i].0 == OrderKey(i + 1)
    ensures Keys(d) == [OrderKey(1), OrderKey(2), OrderKey(3), OrderKey(4)]
  {
    var ks := Keys(d);
    assert ks[0] == OrderKey(1) && ks[1] == OrderKey(2) && ks[2] == OrderKey(3) && ks[3] == OrderKey(4);
  }

  /** "1gram" to "4gram" are four different keys. */
  lemma OrderKeysDistinct<V>(d: Dict<V>)
    requires Keys(d) == [OrderKey(1), OrderKey(2), OrderKey(3), OrderKey(4)]
    ensures DistinctKeys(d)
  {
    var orders := [OrderKey(1), OrderKey(2), OrderKey(3), OrderKey(4)];
    forall p, q | 0 <= p < q < |d| ensures d[p].0 != d[q].0 {
      assert d[p].0 == orders[p] && d[q].0 == orders[q];
      assert orders[p][0] != orders[q][0];
    }
  }

  /**
   * The body of the loop in `_get_ngram_density` for one order `n`: a
   * vectorizer that raises (no n-gram of that order) leaves `{}`.
   */
  method OrderDensity(words: seq<string>, n: nat, round5: real -> real) returns (stats: Dict<Stat>)
    requires n >= 1
    ensures IsOrderDensity(NGrams(words, n), round5, stats)
  {
    var g := NGrams(words, n);
    match CountVectorize(g) {
      case None =>
        stats := [];
      case Some(row) =>
        stats := OrderStats(row, round5);
    }
  }

  // ---------------------------------------------------------------------
  // Counting

  lemma {:induction false} OccurrencesPositive(g: seq<string>, t: string)
    ensures Occurrences(g, t) > 0 <==> t in g
  {
    if g != [] {
      OccurrencesPositive(g[..|g| - 1], t);
      assert g == g[..|g| - 1] + [g[|g| - 1]];
    }
  }

  lemma {:induction false} RowSumStep(v: seq<string>, g: seq<string>, x: string)
    requires Distinct(v)
    ensures Sum(Row(v, g + [x])) == Sum(Row(v, g)) + (if x in v then 1 else 0)
  {
    if v != [] {
      var init := v[..|v| - 1];
      var y := v[|v| - 1];
      assert v == init + [y];
      assert Distinct(init);
      RowSumStep(init, g, x);
      assert (g + [x])[..|g|] == g;
      assert Occurrences(g + [x], y) == Occurrences(g, y) + (if x == y then 1 else 0);
      assert x in v <==> x in init || x == y;
      assert x == y ==> x !in init;
    }
  }

  /** `total` is the number of n-grams of the document: the counts add up to it. */
  lemma {:induction false} TotalIsNGramCount(g: seq<string>)
    ensures Sum(Row(Vocabulary(g), g)) == |g|
  {
    if g != [] {
      var init := g[..|g| - 1];
      var x := g[|g| - 1];
      assert g == init + [x];
      TotalIsNGramCount(init);
      var prev := Vocabulary(init);
      RowSumStep(prev, init, x);
      if x !in prev {
        var v := prev + [x];
        assert v[..|v| - 1] == prev;
        OccurrencesPositive(init, x);
        assert Occurrences(g, x) == Occurrences(init, x) + 1;
      }
    }
  }

  lemma {:induction false} ElementAtMostSum(s: seq<nat>, i: nat)
    requires i < |s|
    ensures s[i] <= Sum(s)
  {
    if i < |s| - 1 {
      ElementAtMostSum(s[..|s| - 1], i);
    }
  }

  // ---------------------------------------------------------------------
  // The entries kept for one order

  /** Each kept entry comes from a position in `idx` with a positive count. */
  lemma {:induction false} SelectedEntry(row: CountRow, idx: seq<nat>, round5: real -> real, p: nat) returns (q: nat)
    requires InRange(row, idx) && p < |Selected(row, idx, round5)|
    ensures q < |idx|
    ensures Selected(row, idx, round5)[p].0 == row.features[idx[q]]
    ensures Selected(row, idx, round5)[p].1.count == row.counts[idx[q]] > 0
    ensures Selected(row, idx, round5)[p].1.density ==
      Density(row.counts[idx[q]], Sum(row.counts), round5)
    decreases |idx|
  {
    var init := idx[..|idx| - 1];
    if p < |Selected(row, init, round5)| {
      q := SelectedEntry(row, init, round5, p);
    } else {
      q := |idx| - 1;
    }
  }

  /** Every position of `idx` with a positive count is kept. */
  lemma {:induction false} SelectedContains(row: CountRow, idx: seq<nat>, round5: real -> real, q: nat)
    requires InRange(row, idx) && q < |idx| && row.counts[idx[q]] > 0
    ensures row.features[idx[q]] in Keys(Selected(row, idx, round5))
    decreases |idx|
  {
    var init := idx[..|idx| - 1];
    if q < |idx| - 1 {
      SelectedContains(row, init, round5, q);
      var p :| 0 <= p < |Selected(row, init, round5)| && Keys(Selected(row, init, round5))[p] == row.features[idx[q]];
      assert Keys(Selected(row, idx, round5))[p] == row.features[idx[q]];
    } else {
      var d := Selected(row, idx, round5);
      assert Keys(d)[|d| - 1] == row.features[idx[q]];
    }
  }

  lemma {:induction false} SelectedDistinct(row: CountRow, idx: seq<nat>, round5: real -> real)
    requires InRange(row, idx) && Distinct(idx) && Distinct(row.features)
    ensures DistinctKeys(Selected(row, idx, round5))
    decreases |idx|
  {
    if idx != [] {
      var init := idx[..|idx| - 1];
      var last := idx[|idx| - 1];
      SelectedDistinct(row, init, round5);
      var prev := Selected(row, init, round5);
      forall p | 0 <= p < |prev| ensures prev[p].0 != row.features[last] {
        var q := SelectedEntry(row, init, round5, p);
        assert init[q] == idx[q] && idx[q] != last;
      }
    }
  }

  /** Kept entries follow `idx`, so they come in non-increasing order of count. */
  lemma {:induction false} SelectedDescending(row: CountRow, idx: seq<nat>, round5: real -> real)
    requires InRange(row, idx)
    requires forall p, q :: 0 <= p < q < |idx| ==> row.counts[idx[p]] >= row.counts[idx[q]]
    ensures forall p, q :: 0 <= p < q < |Selected(row, idx, round5)| ==>
      Selected(row, idx, round5)[p].1.count >= Selected(row, idx, round5)[q].1.count
    decreases |idx|
  {
    if idx != [] {
      var init := idx[..|idx| - 1];
      SelectedDescending(row, init, round5);
      var prev := Selected(row, init, round5);
      forall p | 0 <= p < |prev| ensures prev[p].1.count >= row.counts[idx[|idx| - 1]] {
        var q := SelectedEntry(row, init, round5, p);
        assert init[q] == idx[q];
      }
    }
  }

  // ---------------------------------------------------------------------
  // What one order's result promises

  lemma DocumentRowCounts(g: seq<string>)
    requires g != []
    ensures IsCountRowOf(DocumentRow(g), g)
  {
    assert CountVectorize(g).Some?;
  }

  /** With every count positive, every position of `idx` is kept, in `idx` order. */
  lemma {:induction false} SelectedAll(row: CountRow, idx: seq<nat>, round5: real -> real)
    requires InRange(row, idx)
    requires forall p :: 0 <= p < |idx| ==> row.counts[idx[p]] > 0
    ensures |Selected(row, idx, round5)| == |idx|
    ensures forall p :: 0 <= p < |idx| ==>
      Selected(row, idx, round5)[p].0 == row.features[idx[p]] &&
      Selected(row, idx, round5)[p].1.count == row.counts[idx[p]]
    decreases |idx|
  {
    if idx != [] {
      var init := idx[..|idx| - 1];
      assert forall p :: 0 <= p < |init| ==> init[p] == idx[p];
      SelectedAll(row, init, round5);
    }
  }

  /** Unfolds one order's result into the selection of vocabulary positions it keeps. */
  lemma OrderSelection(g: seq<string>, round5: real -> real, stats: Dict<Stat>) returns (idx: seq<nat>)
    requires IsOrderDensity(g, round5, stats) && g != []
    ensures IsCountRowOf(DocumentRow(g), g)
    ensures IsTopIndices(AsReals(DocumentRow(g).counts), idx, TopNgrams)
    ensures InRange(DocumentRow(g), idx) && stats == Selected(DocumentRow(g), idx, round5)
    ensures |stats| == |idx|
    ensures forall p :: 0 <= p < |idx| ==>
      stats[p].0 == DocumentRow(g).features[idx[p]] && stats[p].1.count == DocumentRow(g).counts[idx[p]]
  {
    DocumentRowCounts(g);
    idx := RowSelection(DocumentRow(g), round5, stats);
  }

  /** A density selection over a row of positive counts keeps every selected position. */
  lemma RowSelection(row: CountRow, round5: real -> real, stats: Dict<Stat>) returns (idx: seq<nat>)
    requires IsDensitySelection(row, round5, stats)
    requires forall i :: 0 <= i < |row.counts| ==> row.counts[i] > 0
    ensures IsTopIndices(AsReals(row.counts), idx, TopNgrams)
    ensures InRange(row, idx) && stats == Selected(row, idx, round5)
    ensures |stats| == |idx|
    ensures forall p :: 0 <= p < |idx| ==>
      stats[p].0 == row.features[idx[p]] && stats[p].1.count == row.counts[idx[p]]
  {
    idx :| IsTopIndices(AsReals(row.counts), idx, TopNgrams) && stats == Selected(row, idx, round5);
    SelectedAll(row, idx, round5);
  }

  /**
   * Each entry of an order's result is one of the document's n-grams with
   * its number of occurrences, which is positive and at most the number of
   * n-grams, and its density: that count over the number of n-grams, rounded.
   */
  lemma DensityEntry(g: seq<string>, round5: real -> real, stats: Dict<Stat>, p: nat)
    requires IsOrderDensity(g, round5, stats) && p < |stats|
    ensures stats[p].0 in g
    ensures stats[p].1.count == Occurrences(g, stats[p].0) && 0 < stats[p].1.count <= |g|
    ensures stats[p].1.density == round5(stats[p].1.count as real / |g| as real)
  {
    var row := DocumentRow(g);
    var idx := OrderSelection(g, round5, stats);
    var q := SelectedEntry(row, idx, round5, p);
    ElementAtMostSum(row.counts, idx[q]);
    assert row.features[idx[q]] in row.features;
  }

  /** With `round(_, 5)` keeping fractions within [0, 1], every density is a fraction. */
  lemma DensityBounded(g: seq<string>, round5: real -> real, stats: Dict<Stat>, p: nat)
    requires IsOrderDensity(g, round5, stats) && p < |stats|
    requires forall x :: 0.0 <= x <= 1.0 ==> 0.0 <= round5(x) <= 1.0
    ensures 0.0 <= stats[p].1.density <= 1.0
  {
    DensityEntry(g, round5, stats, p);
    Fraction(stats[p].1.count as real, |g| as real);
  }

  lemma Fraction(c: real, n: real)
    requires 0.0 <= c <= n && n > 0.0
    ensures 0.0 <= c / n <= 1.0
  {
    assert c / n * n == c;
  }

  /**
   * An order's result as a whole: empty exactly when the document has no
   * n-gram of that order, at most 50 entries, no n-gram twice, and the
   * entries in non-increasing order of count.
   */
  lemma DensityShape(g: seq<string>, round5: real -> real, stats: Dict<Stat>)
    requires IsOrderDensity(g, round5, stats)
    ensures stats == [] <==> g == []
    ensures |stats| <= TopNgrams
    ensures DistinctKeys(stats)
    ensures forall p, q :: 0 <= p < q < |stats| ==> stats[p].1.count >= stats[q].1.count
  {
    if g != [] {
      var row := DocumentRow(g);
      var idx := OrderSelection(g, round5, stats);
      assert g[0] in row.features;
      assert Distinct(idx);
      SelectedDistinct(row, idx, round5);
      forall p, q | 0 <= p < q < |stats| ensures stats[p].1.count >= stats[q].1.count {
        assert AsReals(row.counts)[idx[p]] >= AsReals(row.counts)[idx[q]];
      }
    }
  }

  /** An n-gram of the document that was left out occurs no more often than any kept one. */
  lemma DensityIsTop(g: seq<string>, round5: real -> real, stats: Dict<Stat>, t: string, u: string)
    requires IsOrderDensity(g, round5, stats)
    requires t in g && t !in Keys(stats) && u in Keys(stats)
    ensures Occurrences(g, t) <= Occurrences(g, u)
  {
    var row := DocumentRow(g);
    var idx := OrderSelection(g, round5, stats);
    var j := LeftOutPosition(g, round5, stats, idx, t);
    var p :| 0 <= p < |stats| && Keys(stats)[p] == u;
    assert AsReals(row.counts)[j] <= AsReals(row.counts)[idx[p]];
  }

  /** An n-gram of the document is left out only when 50 others were kept. */
  lemma DensityComplete(g: seq<string>, round5: real -> real, stats: Dict<Stat>, t: string)
    requires IsOrderDensity(g, round5, stats)
    requires t in g && t !in Keys(stats)
    ensures |stats| == TopNgrams < |Vocabulary(g)|
  {
    var idx := OrderSelection(g, round5, stats);
    var j := LeftOutPosition(g, round5, stats, idx, t);
  }

  /** The counts of an order's result, in its order. */
  function Counts(stats: Dict<Stat>): seq<nat>
  {
    seq(|stats|, p requires 0 <= p < |stats| => stats[p].1.count)
  }

  /**
   * The kept counts add up to at most the number of n-grams, and to exactly
   * that number when the document has no more than 50 distinct n-grams of
   * the order: then nothing is cut off and the densities add up to one,
   * up to rounding.
   */
  lemma DensityCountsSum(words: seq<string>, n: nat, round5: real -> real, stats: Dict<Stat>)
    requires n >= 1 && IsOrderDensity(NGrams(words, n), round5, stats)
    ensures Sum(Counts(stats)) <= |NGrams(words, n)|
    ensures |Vocabulary(NGrams(words, n))| <= TopNgrams ==> Sum(Counts(stats)) == |NGrams(words, n)|
  {
    var g := NGrams(words, n);
    DensityShape(g, round5, stats);
    var ks := Keys(stats);
    forall p | 0 <= p < |stats| ensures Counts(stats)[p] == Row(ks, g)[p] {
      DensityEntry(g, round5, stats, p);
    }
    assert Counts(stats) == Row(ks, g);
    CoveredCount(ks, g);
    if |Vocabulary(g)| <= TopNgrams {
      forall t | t in g ensures t in ks {
        if t !in ks {
          DensityComplete(g, round5, stats, t);
        }
      }
    }
  }

  /**
   * Summing the occurrences of distinct n-grams counts each position of the
   * document at most once, and every position when they cover the document.
   */
  lemma {:induction false} CoveredCount(ts: seq<string>, g: seq<string>)
    requires Distinct(ts)
    ensures Sum(Row(ts, g)) <= |g|
    ensures (forall t :: t in g ==> t in ts) ==> Sum(Row(ts, g)) == |g|
  {
    if g == [] {
      NoOccurrences(ts);
    } else {
      var init := g[..|g| - 1];
      var x := g[|g| - 1];
      assert g == init + [x];
      CoveredCount(ts, init);
      RowSumStep(ts, init, x);
    }
  }

  lemma {:induction false} NoOccurrences(ts: seq<string>)
    ensures Sum(Row(ts, [])) == 0
  {
    if ts != [] {
      NoOccurrences(ts[..|ts| - 1]);
    }
  }

  /** The vocabulary position of a left-out n-gram lies outside the selection. */
  lemma LeftOutPosition(g: seq<string>, round5: real -> real, stats: Dict<Stat>, idx: seq<nat>, t: string)
    returns (j: nat)
    requires g != [] && IsCountRowOf(DocumentRow(g), g)
    requires |stats| == |idx| && InRange(DocumentRow(g), idx)
    requires forall p :: 0 <= p < |idx| ==> stats[p].0 == DocumentRow(g).features[idx[p]]
    requires t in g && t !in Keys(stats)
    ensures j < |DocumentRow(g).features| && DocumentRow(g).features[j] == t && j !in idx
    ensures DocumentRow(g).counts[j] == Occurrences(g, t)
  {
    var row := DocumentRow(g);
    j :| 0 <= j < |row.features| && row.features[j] == t;
    forall p | 0 <= p < |idx| ensures idx[p] != j {
      assert Keys(stats)[p] == stats[p].0;
    }
  }

  /** An order gets `{}` exactly when fewer words than the order remain after stop-word removal. */
  lemma OrderEmptyIff(words: seq<string>, n: nat, round5: real -> real, stats: Dict<Stat>)
    requires n >= 1 && IsOrderDensity(NGrams(words, n), round5, stats)
    ensures stats == [] <==> |words| < n
  {
    DensityShape(NGrams(words, n), round5, stats);
  }
}
