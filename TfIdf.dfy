/**
 * `_get_tfidf_scores`: keeps the 50 best-scoring terms of the document with
 * their rounded scores, dropping those whose rounded score is not positive.
 * The TF-IDF weights themselves are an input (the vectorizer's row for the
 * single-document corpus), and so is `round(_, 4)`.
 */
module TfIdf {
  import opened Wrappers
  import opened Dicts
  import opened Sorting

  /** How many terms `_get_tfidf_scores` looks at. */
  const TopTerms: nat := 50

  /** The vectorizer's row for the document: feature names and scores, position by position. */
  datatype TermVector = TermVector(features: seq<string>, scores: seq<real>)

  /** What the vectorizer guarantees of its row. */
  predicate WellFormed(v: TermVector)
  {
    |v.features| == |v.scores| && Distinct(v.features)
  }

  predicate InRange(v: TermVector, idx: seq<nat>)
  {
    forall p :: 0 <= p < |idx| ==> idx[p] < |v.features| && idx[p] < |v.scores|
  }

  /**
   * What the loop over `idx` leaves in the dictionary: each term with its
   * rounded score, in `idx` order, when the rounded score is positive.
   */
  function Kept(v: TermVector, idx: seq<nat>, round4: real -> real): (d: Dict<real>)
    requires InRange(v, idx)
    ensures |d| <= |idx|
    decreases |idx|
  {
    if idx == [] then []
    else
      var last := idx[|idx| - 1];
      var prev := Kept(v, idx[..|idx| - 1], round4);
      if round4(v.scores[last]) > 0.0 then prev + [(v.features[last], round4(v.scores[last]))] else prev
  }

  /**
   * `top` is what `_get_tfidf_scores` returns for the vectorizer outcome
   * `vec` (`None` when the vectorizer raised): `{}` on failure, otherwise the
   * kept entries of some top-50 selection of the scores.
   */
  ghost predicate IsSelection(vec: Option<TermVector>, round4: real -> real, top: Dict<real>)
  {
    match vec
    case None => top == []
    case Some(v) =>
      WellFormed(v) && exists idx :: IsTopIndices(v.scores, idx, TopTerms) && top == Kept(v, idx, round4)
  }

  /** `_get_tfidf_scores`, from the vectorizer's outcome on. */
  method TopScores(vec: Option<TermVector>, round4: real -> real) returns (top: Dict<real>)
    requires vec.Some? ==> WellFormed(vec.value)
    ensures IsSelection(vec, round4, top)
  {
    if vec.None? {
      return [];
    }
    var v := vec.value;
    var idx := ArgTop(v.scores, TopTerms);
    assert InRange(v, idx) && Distinct(idx);
    top := [];
    for i := 0 to |idx|
      invariant top == Kept(v, idx[..i], round4)
    {
      KeptStep(v, idx, i, round4);
      var term := v.features[idx[i]];
      var score := round4(v.scores[idx[i]]);
      if score > 0.0 {
        top := Put(top, term, score);
      }
    }
    assert idx[..|idx|] == idx;
  }

  /**
   * One turn of the loop in `TopScores`: the dictionary assignment adds a
   * new key, so it appends the entry that `Kept` adds.
   */
  lemma KeptStep(v: TermVector, idx: seq<nat>, i: nat, round4: real -> real)
    requires InRange(v, idx) && Distinct(idx) && Distinct(v.features) && i < |idx|
    ensures
      var score := round4(v.scores[idx[i]]);
      Kept(v, idx[..i + 1], round4) ==
        if score > 0.0 then Put(Kept(v, idx[..i], round4), v.features[idx[i]], score)
        else Kept(v, idx[..i], round4)
  {
    assert idx[..i + 1][..i] == idx[..i];
    var prev := Kept(v, idx[..i], round4);
    forall p | 0 <= p < |prev| ensures prev[p].0 != v.features[idx[i]] {
      var q := KeptEntry(v, idx[..i], round4, p);
      assert idx[q] != idx[i];
    }
  }

  /** Each kept entry comes from a position in `idx`, with its positive rounded score. */
  lemma {:induction false} KeptEntry(v: TermVector, idx: seq<nat>, round4: real -> real, p: nat) returns (q: nat)
    requires InRange(v, idx) && p < |Kept(v, idx, round4)|
    ensures q < |idx|
    ensures Kept(v, idx, round4)[p] == (v.features[idx[q]], round4(v.scores[idx[q]]))
    ensures round4(v.scores[idx[q]]) > 0.0
    decreases |idx|
  {
    var init := idx[..|idx| - 1];
    var prev := Kept(v, init, round4);
    if p < |prev| {
      q := KeptEntry(v, init, round4, p);
    } else {
      q := |idx| - 1;
    }
  }

  /** Every position of `idx` whose rounded score is positive is kept. */
  lemma {:induction false} KeptContains(v: TermVector, idx: seq<nat>, round4: real -> real, q: nat)
    requires InRange(v, idx) && q < |idx| && round4(v.scores[idx[q]]) > 0.0
    ensures (v.features[idx[q]], round4(v.scores[idx[q]])) in Kept(v, idx, round4)
    decreases |idx|
  {
    var init := idx[..|idx| - 1];
    if q < |idx| - 1 {
      KeptContains(v, init, round4, q);
    }
  }

  lemma {:induction false} KeptDistinct(v: TermVector, idx: seq<nat>, round4: real -> real)
    requires InRange(v, idx) && Distinct(idx) && Distinct(v.features)
    ensures DistinctKeys(Kept(v, idx, round4))
    decreases |idx|
  {
    if idx != [] {
      var init := idx[..|idx| - 1];
      var last := idx[|idx| - 1];
      KeptDistinct(v, init, round4);
      var prev := Kept(v, init, round4);
      forall p | 0 <= p < |prev| ensures prev[p].0 != v.features[last] {
        var q := KeptEntry(v, init, round4, p);
        assert init[q] == idx[q] && idx[q] != last;
      }
    }
  }

  /**
   * What the selection promises as a whole: at most 50 terms, no term
   * twice; a failed vectorizer gives no terms.
   */
  lemma SelectionSize(vec: Option<TermVector>, round4: real -> real, top: Dict<real>)
    requires IsSelection(vec, round4, top)
    ensures vec.None? ==> top == []
    ensures |top| <= TopTerms
    ensures DistinctKeys(top)
  {
    if vec.Some? {
      var v := vec.value;
      var idx :| IsTopIndices(v.scores, idx, TopTerms) && top == Kept(v, idx, round4);
      KeptDistinct(v, idx, round4);
    }
  }

  /**
   * Each kept entry is a term of the vectorizer's row paired with that
   * term's rounded score, which is positive.
   */
  lemma SelectionEntry(v: TermVector, round4: real -> real, top: Dict<real>, p: nat) returns (j: nat)
    requires IsSelection(Some(v), round4, top) && p < |top|
    ensures j < |v.features| && top[p] == (v.features[j], round4(v.scores[j]))
    ensures top[p].1 > 0.0
  {
    var idx :| IsTopIndices(v.scores, idx, TopTerms) && top == Kept(v, idx, round4);
    var q := KeptEntry(v, idx, round4, p);
    j := idx[q];
  }

  /**
   * No term with a positive rounded score is left out while a term with a
   * lower raw score was kept.
   */
  lemma SelectionIsTop(v: TermVector, round4: real -> real, top: Dict<real>, j: nat, k: nat)
    requires IsSelection(Some(v), round4, top)
    requires j < |v.features| && k < |v.features|
    requires round4(v.scores[j]) > 0.0 && v.features[j] !in Keys(top) && v.features[k] in Keys(top)
    ensures v.scores[j] <= v.scores[k]
  {
    var idx :| IsTopIndices(v.scores, idx, TopTerms) && top == Kept(v, idx, round4);
    KeptOutside(v, idx, round4, j);
    var p :| 0 <= p < |top| && Keys(top)[p] == v.features[k];
    var q := KeptEntry(v, idx, round4, p);
    assert idx[q] == k;
  }

  /** With at most 50 features, every term whose rounded score is positive is kept. */
  lemma SelectionComplete(v: TermVector, round4: real -> real, top: Dict<real>, j: nat)
    requires IsSelection(Some(v), round4, top)
    requires |v.features| <= TopTerms && j < |v.features| && round4(v.scores[j]) > 0.0
    ensures v.features[j] in Keys(top)
  {
    var idx :| IsTopIndices(v.scores, idx, TopTerms) && top == Kept(v, idx, round4);
    assert j !in idx ==> |idx| == TopTerms < |v.scores|;
    assert j in idx;
    var q :| 0 <= q < |idx| && idx[q] == j;
    KeptContains(v, idx, round4, q);
  }

  /** A position whose term is missing despite a positive rounded score was not selected. */
  lemma KeptOutside(v: TermVector, idx: seq<nat>, round4: real -> real, j: nat)
    requires InRange(v, idx) && j < |v.features| && j < |v.scores|
    requires round4(v.scores[j]) > 0.0 && v.features[j] !in Keys(Kept(v, idx, round4))
    ensures j !in idx
  {
    forall q | 0 <= q < |idx| ensures idx[q] != j {
      if idx[q] == j {
        KeptContains(v, idx, round4, q);
      }
    }
  }
}
