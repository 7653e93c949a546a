/**
 * `analyze_content`: fetch a page, clean its text, score its terms and
 * n-grams, and return the sorted results, or an error record when there is
 * no page or no text. The network, the HTML parser and the scikit-learn
 * vectorizers are the collaborators passed in.
 */
module ContentAnalysis {
  import opened Wrappers
  import opened Dicts
  import opened Sorting
  import opened UrlScheme
  import opened TextNormalization
  import opened TfIdf
  import opened NGramDensity
  import opened ResultSort

  /** What `analyze_content` depends on but this model does not describe. */
  datatype Collaborators = Collaborators(
    /** `requests.get(url).text`, `None` on any failure (timeout, HTTP error status). */
    httpGet: string -> Option<string>,
    /** The HTML parser's text extraction, `None` when it raises. */
    extract: string -> Option<string>,
    /** The vectorizers' word tokenizer. */
    tokenize: string -> seq<string>,
    /** Membership in the English stop-word list. */
    isStopWord: string -> bool,
    /** The TF-IDF row of the single-document corpus, `None` when the vectorizer raises. */
    tfidf: string -> Option<TermVector>,
    /** `round(x, 4)` and `round(x, 5)`. */
    round4: real -> real,
    round5: real -> real)

  /** Either the error record or the success record of `analyze_content`. */
  datatype Analysis =
    | AnalysisError(message: string)
    | AnalysisSuccess(
        url: string,
        tfIdfTop: seq<(string, real)>,
        densityByCount: Dict<seq<(string, nat, real)>>)

  /** `fetch_content(url)`: the page body, `None` on failure. */
  function FetchContent(url: string, c: Collaborators): (r: Option<string>)
    ensures StartsWith(url, "http") ==> r == c.httpGet(url)
    ensures !StartsWith(url, "http") ==> r == c.httpGet("https://" + url)
  {
    c.httpGet(WithScheme(url))
  }

  /** One order's statistics sorted by count, as `analyze_content` stores them. */
  function ByCount(entry: (string, Dict<Stat>)): (string, seq<(string, nat, real)>)
  {
    (entry.0, SortByField(entry.1, "count"))
  }

  /**
   * The density part of a success record for the document `words`: one
   * sorted list per order 1 to 4, each the sorted form of that order's
   * statistics.
   */
  ghost predicate IsSortedDensity(words: seq<string>, round5: real -> real, sorted: Dict<seq<(string, nat, real)>>)
  {
    && Keys(sorted) == [OrderKey(1), OrderKey(2), OrderKey(3), OrderKey(4)]
    && forall i :: 0 <= i < |sorted| ==> IsSortedOrder(words, i + 1, round5, sorted[i].1)
  }

  /** `list` is the result for order `n`, sorted by count. */
  ghost predicate IsSortedOrder(words: seq<string>, n: nat, round5: real -> real, list: seq<(string, nat, real)>)
    requires n >= 1
  {
    exists stats :: IsOrderDensity(NGrams(words, n), round5, stats) && list == SortByField(stats, "count")
  }

  /** The words the n-gram counts run over: the cleaned text's tokens without stop words. */
  function Words(text: string, c: Collaborators): seq<string>
  {
    WithoutStopWords(c.tokenize(text), c.isStopWord)
  }

  /** What `analyze_content(url)` returns. */
  ghost predicate IsAnalysis(url: string, c: Collaborators, r: Analysis)
  {
    var raw := FetchContent(url, c);
    if raw.None? || raw.value == "" then
      r == AnalysisError("Could not fetch content for " + url)
    else
      var text := CleanText(raw.value, c.extract);
      if text == "" then
        r == AnalysisError("No extractable text found for " + url)
      else
        && r.AnalysisSuccess?
        && r.url == url
        && (exists top :: IsSelection(c.tfidf(text), c.round4, top) && r.tfIdfTop == SortByScore(top))
        && IsSortedDensity(Words(text, c), c.round5, r.densityByCount)
  }

  /** `analyze_content`. */
  method AnalyzeContent(url: string, c: Collaborators) returns (r: Analysis)
    requires forall text :: c.tfidf(text).Some? ==> WellFormed(c.tfidf(text).value)
    ensures IsAnalysis(url, c, r)
  {
    var raw := FetchContent(url, c);
    if raw.None? || raw.value == "" {
      return AnalysisError("Could not fetch content for " + url);
    }
    var text := CleanText(raw.value, c.extract);
    if text == "" {
      return AnalysisError("No extractable text found for " + url);
    }
    var top := TopScores(c.tfidf(text), c.round4);
    var density := DensityByOrder(c.tokenize(text), c.isStopWord, c.round5);
    var sortedTfIdf := SortByScore(top);
    OrderKeysDistinct(density);
    var sortedDensity := SortDensity(density);
    SortedDensityOf(Words(text, c), c.round5, density);
    r := AnalysisSuccess(url, sortedTfIdf, sortedDensity);
  }

  /** Sorting each order of a density result by count gives the density part of a success record. */
  lemma SortedDensityOf(words: seq<string>, round5: real -> real, density: Dict<Dict<Stat>>)
    requires Keys(density) == [OrderKey(1), OrderKey(2), OrderKey(3), OrderKey(4)]
    requires forall i :: 0 <= i < |density| ==> IsOrderDensity(NGrams(words, i + 1), round5, density[i].1)
    ensures IsSortedDensity(words, round5, MapSeq(density, ByCount))
  {
    var sorted := MapSeq(density, ByCount);
    assert Keys(sorted) == Keys(density);
    forall i | 0 <= i < |sorted| ensures IsSortedOrder(words, i + 1, round5, sorted[i].1) {
      var stats := density[i].1;
      assert IsOrderDensity(NGrams(words, i + 1), round5, stats) && sorted[i].1 == SortByField(stats, "count");
    }
  }

  /** The loop of `analyze_content` that sorts each order's statistics by count. */
  method SortDensity(density: Dict<Dict<Stat>>) returns (sorted: Dict<seq<(string, nat, real)>>)
    requires DistinctKeys(density)
    ensures sorted == MapSeq(density, ByCount)
  {
    sorted := [];
    for i := 0 to |density|
      invariant sorted == MapSeq(density[..i], ByCount)
    {
      var key := density[i].0;
      assert key !in Keys(sorted) by {
        forall p | 0 <= p < |sorted| ensures sorted[p].0 != key {
          assert sorted[p].0 == density[p].0;
        }
      }
      sorted := Put(sorted, key, SortByField(density[i].1, "count"));
      MapSeqSnoc(density, ByCount, i);
    }
    assert density[..|density|] == density;
  }

  // ---------------------------------------------------------------------
  // What a result promises

  /** The outcome is an error exactly when no page came back or its text has no letter. */
  lemma AnalysisErrorIff(url: string, c: Collaborators, r: Analysis)
    requires IsAnalysis(url, c, r)
    ensures r.AnalysisError? <==>
      || FetchContent(url, c).None?
      || FetchContent(url, c).value == ""
      || c.extract(FetchContent(url, c).value).None?
      || Letters(c.extract(FetchContent(url, c).value).value) == ""
  {
    var raw := FetchContent(url, c);
    if raw.Some? && raw.value != "" {
      CleanTextEmptyIff(raw.value, c.extract);
    }
  }

  /**
   * The TF-IDF list of a success record: at most 50 terms, in descending
   * order of score, each with a positive score, and each the rounded score
   * of a term of the cleaned text's TF-IDF row.
   */
  lemma SuccessScores(url: string, c: Collaborators, r: Analysis, p: nat)
    requires IsAnalysis(url, c, r) && r.AnalysisSuccess? && p < |r.tfIdfTop|
    ensures |r.tfIdfTop| <= TopTerms
    ensures SortedDesc(r.tfIdfTop, Score)
    ensures r.tfIdfTop[p].1 > 0.0
    ensures
      var text := CleanText(FetchContent(url, c).value, c.extract);
      && c.tfidf(text).Some?
      && exists j :: 0 <= j < |c.tfidf(text).value.features| &&
           r.tfIdfTop[p] == (c.tfidf(text).value.features[j], c.round4(c.tfidf(text).value.scores[j]))
  {
    var text := CleanText(FetchContent(url, c).value, c.extract);
    var top :| IsSelection(c.tfidf(text), c.round4, top) && r.tfIdfTop == SortByScore(top);
    SortedSelectionEntry(c.tfidf(text), c.round4, top, r.tfIdfTop, p);
  }

  /** One entry of a TF-IDF selection sorted by score. */
  lemma SortedSelectionEntry(vec: Option<TermVector>, round4: real -> real, top: Dict<real>, list: Dict<real>, p: nat)
    requires IsSelection(vec, round4, top) && list == SortByScore(top) && p < |list|
    ensures |list| <= TopTerms && SortedDesc(list, Score) && list[p].1 > 0.0
    ensures vec.Some? && exists j :: 0 <= j < |vec.value.features| && list[p] == (vec.value.features[j], round4(vec.value.scores[j]))
  {
    SelectionSize(vec, round4, top);
    var q := SortByScoreMember(top, p);
    var j := SelectionEntry(vec.value, round4, top, q);
  }

  /**
   * The n-gram list of order `i + 1` in a success record: at most 50
   * entries, in descending order of count, each an n-gram of the cleaned
   * text with its number of occurrences; empty exactly when fewer words than
   * the order remain once stop words are removed.
   */
  lemma SuccessDensity(url: string, c: Collaborators, r: Analysis, i: nat)
    requires IsAnalysis(url, c, r) && r.AnalysisSuccess? && i < |r.densityByCount|
    ensures
      var words := Words(CleanText(FetchContent(url, c).value, c.extract), c);
      var g := NGrams(words, i + 1);
      var list := r.densityByCount[i].1;
      && |list| <= TopNgrams
      && SortedDesc(list, RowKey("count"))
      && (list == [] <==> |words| < i + 1)
      && forall p :: 0 <= p < |list| ==> list[p].0 in g && list[p].1 == Occurrences(g, list[p].0) > 0
  {
    var words := Words(CleanText(FetchContent(url, c).value, c.extract), c);
    assert IsSortedOrder(words, i + 1, c.round5, r.densityByCount[i].1);
    SortedOrderEntry(words, i + 1, c.round5, r.densityByCount[i].1);
  }

  /** One order's statistics, sorted by count. */
  lemma SortedOrderEntry(words: seq<string>, n: nat, round5: real -> real, list: seq<(string, nat, real)>)
    requires n >= 1 && IsSortedOrder(words, n, round5, list)
    ensures
      var g := NGrams(words, n);
      && |list| <= TopNgrams
      && SortedDesc(list, RowKey("count"))
      && (list == [] <==> |words| < n)
      && forall p :: 0 <= p < |list| ==> list[p].0 in g && list[p].1 == Occurrences(g, list[p].0) > 0
  {
    var g := NGrams(words, n);
    var stats :| IsOrderDensity(g, round5, stats) && list == SortByField(stats, "count");
    DensityShape(g, round5, stats);
    OrderEmptyIff(words, n, round5, stats);
    forall p | 0 <= p < |list| ensures list[p].0 in g && list[p].1 == Occurrences(g, list[p].0) > 0 {
      var q := SortByFieldMember(stats, "count", p);
      DensityEntry(g, round5, stats, q);
    }
  }
}
