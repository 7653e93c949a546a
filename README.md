# Content term statistics and Web Vitals ratings, in Dafny

This project models the two pieces of the SEO-audit tools that hold logic of
their own, and proves what they promise.

The first is the content analysis of `tools/nlp_analyzer.py`. It fetches a
page, putting `https://` in front of the URL when the URL does not start
with `http`. It
cleans the page's text down to lower-case ASCII words separated by single
spaces. Then it scores the text:

- the 50 best TF-IDF terms of the page;
- for each n-gram order from 1 to 4, the 50 most frequent n-grams with their
  counts and densities.

Finally it sorts the results in descending order and returns a success
record or an error record.

The second is the Core Web Vitals classifier of `tools/web_vitals_fetcher.py`.
It rates a metric value GOOD, NEEDS_IMPROVEMENT or POOR against the
thresholds published on web.dev. The model also covers how a decoded
PageSpeed Insights response becomes lab data and real-user (CrUX) data.

Modules, leaves first:

- `Wrappers`: `Option`.
- `Dicts`: Python dictionaries as insertion-ordered association lists. `Put`
  is `d[k] = v`: a present key keeps its place, a new key goes at the end.
  The order matters, because the stable sorts keep ties in dictionary order.
- `Sorting`: a stable descending sort, which is Python's `sorted(...,
  reverse=True)`. It also holds top-k selection, which is numpy's
  `argsort()[-k:][::-1]`. The selection is specified as "some k largest
  positions, ties in any order" (`IsTopIndices`); `ArgTop` is one such
  selection.
- `UrlScheme`: the scheme prefixing in `fetch_content`.
- `TextNormalization`: `clean_text` after the HTML parser.
- `TfIdf`: `_get_tfidf_scores` from the vectorizer's row on.
- `NGramDensity`: `_get_ngram_density`, with n-grams, counts and the
  vectorizer's failure modelled.
- `ResultSort`: `sort_analysis_results` in both modes.
- `ContentAnalysis`: `analyze_content`.
- `WebVitals`: `_get_metric_rating`, and the shaping of the response in
  `_fetch_pagespeed_data`.

Several collaborators are parameters rather than parts of the model:

- the network;
- the HTML parser's text extraction;
- the vectorizers' tokenizer and English stop-word list;
- the TF-IDF weights;
- Python's `round`.

The imperative parts of the source are methods with loops. These are the
loops that fill the TF-IDF dictionary, the per-order and per-term
dictionaries of the n-gram density, and the sorted density dictionary.
Each method is proved against a specification predicate, and the
properties the source promises are proved as lemmas about that predicate.

## Model

| member | source | states |
|---|---|---|
| Dicts.Put | tools/nlp_analyzer.py:82 | assigning a new key appends the entry; a present key keeps the key order; distinct keys stay distinct |
| Dicts.PutReplaces | tools/nlp_analyzer.py:123-126 | assigning a present key changes that entry's value and no other entry |
| Sorting.SortDesc | tools/nlp_analyzer.py:152 | the result is a permutation of the input and non-increasing under the key |
| Sorting.SortDescStable | tools/nlp_analyzer.py:152 | elements with equal keys come out in their input order (stability under `reverse=True`) |
| Sorting.SortDescOfSorted | tools/nlp_analyzer.py:152 | an input already in descending order is returned unchanged |
| Sorting.SortDescMap | tools/nlp_analyzer.py:158-164 | sorting and then mapping each element equals mapping and then sorting by the mapped key |
| Sorting.ArgTop | tools/nlp_analyzer.py:75 | `argsort()[-k:][::-1]` picks min(k, n) distinct positions in non-increasing order of value, none left out larger than one taken, and leaves a position out only when k were taken |
| Sorting.PrefixOfSortedPositions | tools/nlp_analyzer.py:112 | a prefix of all positions sorted by value is such a top selection |
| UrlScheme.WithScheme | tools/nlp_analyzer.py:44-45 | the result starts with "http", ends with the whole URL, and is the URL or "https://" + URL |
| UrlScheme.WithSchemeKeepsHttp | tools/nlp_analyzer.py:44 | a URL starting with "http" is unchanged |
| UrlScheme.WithSchemeAddsHttps | tools/nlp_analyzer.py:45 | any other URL gets exactly "https://" in front |
| UrlScheme.WithSchemeIdempotent | tools/nlp_analyzer.py:44-45 | prefixing twice is prefixing once |
| TextNormalization.KeepLettersAndWhitespace | tools/nlp_analyzer.py:24 | only ASCII letters and whitespace remain, and the result is no longer than the input |
| TextNormalization.CleanText | tools/nlp_analyzer.py:9-33 | the result has only `a`-`z` and single spaces with no space at either end; a parser failure gives ""; otherwise its letters are the extracted text's ASCII letters, lower-cased |
| TextNormalization.CleanTextEmptyIff | tools/nlp_analyzer.py:13-33 | the result is "" exactly when the parser fails or the extracted text has no ASCII letter |
| TextNormalization.CollapseSingleSpaced | tools/nlp_analyzer.py:27 | collapsing `\s+` leaves no two spaces in a row, is empty only for empty input, and starts with a space exactly when the input starts with whitespace |
| TextNormalization.StripSingleSpaced | tools/nlp_analyzer.py:27 | `strip()` of single-spaced text stays single-spaced with no space at either end |
| TextNormalization.LowerNormalizes | tools/nlp_analyzer.py:27 | `lower()` of trimmed single-spaced letters is in normal form |
| TextNormalization.NormalizeIsNormalized | tools/nlp_analyzer.py:24-27 | the four clean-up steps always produce normal form |
| TextNormalization.KeepLetters | tools/nlp_analyzer.py:24 | the character filter drops no letter |
| TextNormalization.CollapseLetters | tools/nlp_analyzer.py:27 | collapsing whitespace drops no letter |
| TextNormalization.StripLetters | tools/nlp_analyzer.py:27 | `strip()` drops no letter |
| TextNormalization.LowerLetters | tools/nlp_analyzer.py:27 | `lower()` maps the letters one for one |
| TextNormalization.NormalizeKeepsLetters | tools/nlp_analyzer.py:24-27 | the letters of the cleaned text are those of the extracted text, lower-cased, in order |
| TextNormalization.NormalizeFixed | tools/nlp_analyzer.py:24-27 | text already in normal form is unchanged |
| TextNormalization.NormalizeIdempotent | tools/nlp_analyzer.py:24-27 | cleaning cleaned text changes nothing |
| TextNormalization.Normalize | tools/nlp_analyzer.py:24-27 | steps 3 and 4 of the clean-up in the source's order; it has no contract of its own, and the rows for NormalizeIsNormalized, NormalizeKeepsLetters, NormalizeSplit and NormalizeWord state what it produces |
| TextNormalization.IsWhitespace | tools/nlp_analyzer.py:24 | the `\s` class of `re` on str patterns, which is the set of code points of Python's `str.isspace()`; step 4 (tools/nlp_analyzer.py:27) uses the same class. It has no contract of its own, and KeepLettersAndWhitespace, NormalizeIsNormalized and NormalizeKeepsLetters state what filtering and collapsing by it produce |
| TextNormalization.IsAsciiLetter | tools/nlp_analyzer.py:24 | the class `[a-zA-Z]`; it has no contract of its own, and KeepLetters and NormalizeKeepsLetters state that the clean-up keeps exactly these characters, lower-cased |
| TextNormalization.SkipWhitespace | tools/nlp_analyzer.py:27 | the leading half of `strip()`: the result is a suffix of the input, everything dropped is whitespace, and the result does not start with whitespace |
| TextNormalization.DropTrailingWhitespace | tools/nlp_analyzer.py:27 | the trailing half of `strip()`: the result is a prefix of the input, everything dropped is whitespace, and the result does not end with whitespace |
| TextNormalization.Strip | tools/nlp_analyzer.py:27 | `strip()`; it has no contract of its own, and StripSlice, StripLetters, StripJoin, StripTrailingSpace and StripLeadingSpace state what it does |
| TextNormalization.StripSlice | tools/nlp_analyzer.py:27 | `strip()` returns a contiguous slice of its input |
| TextNormalization.CollapseWhitespace | tools/nlp_analyzer.py:27 | `re.sub(r'\s+', ' ', _)`; it has no contract of its own, and CollapseRun and CollapseSingleSpaced state what it does |
| TextNormalization.Lower | tools/nlp_analyzer.py:27 | `lower()`: the same length, each character mapped by the ASCII lower-casing |
| TextNormalization.KeepAppend | tools/nlp_analyzer.py:24 | the character filter works one character at a time: filtering a concatenation gives the concatenation of the filtered parts |
| TextNormalization.KeepWhitespace | tools/nlp_analyzer.py:24 | whitespace passes the character filter unchanged |
| TextNormalization.KeepWord | tools/nlp_analyzer.py:24 | text without whitespace keeps exactly its ASCII letters |
| TextNormalization.SkipRun | tools/nlp_analyzer.py:27 | skipping a whitespace run stops at the first character after it |
| TextNormalization.SkipPrefix | tools/nlp_analyzer.py:27 | once the text has a non-whitespace character, skipping never reaches what follows the text |
| TextNormalization.DropSuffix | tools/nlp_analyzer.py:27 | once the text has a non-whitespace character, dropping trailing whitespace never reaches what comes before it |
| TextNormalization.CollapseRun | tools/nlp_analyzer.py:27 | a maximal whitespace run between two pieces becomes exactly one space, and each side is collapsed on its own |
| TextNormalization.CollapseLast | tools/nlp_analyzer.py:27 | collapsing keeps a final character that is not whitespace |
| TextNormalization.CollapseFirst | tools/nlp_analyzer.py:27 | collapsing keeps a first character that is not whitespace |
| TextNormalization.CollapseWord | tools/nlp_analyzer.py:27 | collapsing leaves text without whitespace unchanged |
| TextNormalization.StripJoin | tools/nlp_analyzer.py:27 | `strip()` of two pieces joined by one space, with no whitespace next to that space, strips each piece and keeps the space |
| TextNormalization.StripTrailingSpace | tools/nlp_analyzer.py:27 | a space after a non-whitespace character disappears under `strip()` |
| TextNormalization.StripLeadingSpace | tools/nlp_analyzer.py:27 | a leading space disappears under `strip()` |
| TextNormalization.LowerAppend | tools/nlp_analyzer.py:27 | lower-casing works piece by piece |
| TextNormalization.CollapseStripJoin | tools/nlp_analyzer.py:27 | collapsing and then stripping text made of two letter-bearing pieces around a whitespace run gives the two pieces' results joined by one space |
| TextNormalization.NormalizeSplit | tools/nlp_analyzer.py:24-27 | word boundaries are kept: two pieces with letters, separated by any whitespace run, come out cleaned and joined by exactly one space |
| TextNormalization.NormalizeWord | tools/nlp_analyzer.py:24-27 | a piece without whitespace comes out as its ASCII letters, lower-cased |
| TfIdf.TopScores | tools/nlp_analyzer.py:56-88 | the dictionary is `{}` when the vectorizer raised; otherwise it is, in order, the terms of some top-50 selection of the scores whose rounded score is positive, each with that rounded score |
| TfIdf.KeptStep | tools/nlp_analyzer.py:77-82 | each turn of the loop adds a new key, so the assignment appends the entry for a positive rounded score |
| TfIdf.Kept | tools/nlp_analyzer.py:77-82 | the dictionary the loop builds, at most one entry per selected position; KeptEntry, KeptContains and KeptDistinct state which entries it holds |
| TfIdf.KeptEntry | tools/nlp_analyzer.py:78-82 | each kept entry is a selected term with its rounded score, which is positive |
| TfIdf.KeptContains | tools/nlp_analyzer.py:78-82 | each selected term with a positive rounded score is kept |
| TfIdf.KeptDistinct | tools/nlp_analyzer.py:77-82 | no term is kept twice |
| TfIdf.SelectionSize | tools/nlp_analyzer.py:75-88 | at most 50 terms, no term twice, and `{}` on failure |
| TfIdf.SelectionEntry | tools/nlp_analyzer.py:78-82 | each entry is a term of the row with its rounded score, which is positive |
| TfIdf.SelectionIsTop | tools/nlp_analyzer.py:75 | a term with a positive rounded score that was left out scores no higher than any kept term |
| TfIdf.SelectionComplete | tools/nlp_analyzer.py:75-82 | with at most 50 features, every term with a positive rounded score is kept |
| TfIdf.KeptOutside | tools/nlp_analyzer.py:78-82 | a missing term with a positive rounded score was not selected |
| NGramDensity.NGrams | tools/nlp_analyzer.py:104 | the n-grams of order n are the windows of n words; there are \|words\| - n + 1 of them, or none |
| NGramDensity.WithoutStopWords | tools/nlp_analyzer.py:104 | `stop_words='english'`: the tokens that are not stop words, in order, never more than there were tokens |
| NGramDensity.JoinWords | tools/nlp_analyzer.py:106 | a feature name is its n words joined by single spaces; it has no contract of its own, and NGrams uses it to name each window |
| NGramDensity.Vocabulary | tools/nlp_analyzer.py:104-106 | the vocabulary has no duplicates and holds exactly the n-grams of the document |
| NGramDensity.Row | tools/nlp_analyzer.py:108 | the row holds each vocabulary entry's number of occurrences |
| NGramDensity.CountVectorize | tools/nlp_analyzer.py:104-108 | it raises ValueError exactly when the document has no n-gram of the order; otherwise it gives distinct features, each with its positive count, and the counts add up to the number of n-grams |
| NGramDensity.TotalIsNGramCount | tools/nlp_analyzer.py:109 | `row.sum()` is the number of n-grams in the document |
| NGramDensity.Sum | tools/nlp_analyzer.py:109 | `row.sum()`; it has no contract of its own, and TotalIsNGramCount and ElementAtMostSum state what it adds up to |
| NGramDensity.OccurrencesPositive | tools/nlp_analyzer.py:117-118 | a count is positive exactly for an n-gram of the document |
| NGramDensity.Occurrences | tools/nlp_analyzer.py:105 | the count `fit_transform` stores for an n-gram; it has no contract of its own, and OccurrencesPositive, TotalIsNGramCount and DensityEntry state that it is positive exactly for n-grams of the document, that the counts add up to the number of n-grams, and that it is each entry's count |
| NGramDensity.ElementAtMostSum | tools/nlp_analyzer.py:109 | each count is at most the total |
| NGramDensity.OrderStats | tools/nlp_analyzer.py:108-126 | the per-order dictionary is the kept entries of some top-50 selection of the counts |
| NGramDensity.SelectStats | tools/nlp_analyzer.py:114-126 | the loop over the selected positions leaves each n-gram with a positive count, with its count and density, in selection order |
| NGramDensity.SelectedStep | tools/nlp_analyzer.py:116-126 | each turn of the loop adds a new key, so the assignment appends the entry for a positive count |
| NGramDensity.Selected | tools/nlp_analyzer.py:114-126 | the dictionary the loop builds, at most one entry per selected position; SelectedEntry, SelectedContains, SelectedDistinct and SelectedDescending state which entries it holds |
| NGramDensity.Density | tools/nlp_analyzer.py:121 | the density is 0 when the document has no n-gram, and lies in [0, 1] when the count is at most the total and rounding keeps [0, 1] inside [0, 1] |
| NGramDensity.SelectedEntry | tools/nlp_analyzer.py:117-126 | each kept entry is a selected n-gram with its positive count and its density, `round(count / total, 5)` |
| NGramDensity.SelectedContains | tools/nlp_analyzer.py:117-126 | each selected n-gram with a positive count is kept |
| NGramDensity.SelectedDistinct | tools/nlp_analyzer.py:114-126 | no n-gram is kept twice |
| NGramDensity.SelectedDescending | tools/nlp_analyzer.py:112-126 | kept entries are in non-increasing order of count |
| NGramDensity.OrderDensity | tools/nlp_analyzer.py:102-133 | one order's result is `{}` when the vectorizer raised, else a density selection |
| NGramDensity.DensityByOrder | tools/nlp_analyzer.py:91-135 | the keys are exactly "1gram" to "4gram" in that order, and each holds its own order's result, whatever happened at the other orders |
| NGramDensity.OrdersDoneStep | tools/nlp_analyzer.py:99-133 | each turn of the loop over the orders adds the next order's result under its own key and keeps the results before it |
| NGramDensity.OrderKeyFresh | tools/nlp_analyzer.py:100 | the key of order n is not among the keys of the orders before it, so `density_results[ngram_key] = ...` appends |
| NGramDensity.OrderKeysDistinct | tools/nlp_analyzer.py:99-100 | the four order keys are different |
| NGramDensity.OrderKey | tools/nlp_analyzer.py:100 | `f"{n}gram"` for an order from 1 to 9; it has no contract of its own, and OrderKeyInjective and OrderKeysDistinct state that it tells the orders apart |
| NGramDensity.OrderKeyInjective | tools/nlp_analyzer.py:100 | two orders get the same key exactly when they are the same order |
| NGramDensity.DocumentRowCounts | tools/nlp_analyzer.py:104-109 | the document's row meets the vectorizer's guarantees |
| NGramDensity.DocumentRow | tools/nlp_analyzer.py:108 | `dtm[0].toarray()[0]` with the feature names; it has no contract of its own, and DocumentRowCounts states the vectorizer's guarantees about it: distinct features that are exactly the document's n-grams, each with its positive count, adding up to the number of n-grams |
| NGramDensity.SelectedAll | tools/nlp_analyzer.py:116-126 | when every count is positive, every selected position is kept, in selection order |
| NGramDensity.RowSelection | tools/nlp_analyzer.py:112-126 | over a row of positive counts, every selected position is kept, in selection order |
| NGramDensity.OrderSelection | tools/nlp_analyzer.py:112-126 | one order's entries line up with a top-50 selection of vocabulary positions |
| NGramDensity.DensityEntry | tools/nlp_analyzer.py:116-126 | each entry is an n-gram of the document with its number of occurrences, which is between 1 and the total, and `round(count / total, 5)` as density |
| NGramDensity.Fraction | tools/nlp_analyzer.py:121 | a count over a total it does not exceed lies in [0, 1] |
| NGramDensity.DensityBounded | tools/nlp_analyzer.py:121 | with a rounding that keeps [0, 1], each density lies in [0, 1] |
| NGramDensity.DensityShape | tools/nlp_analyzer.py:112-133 | an order's result is empty exactly when the document has no n-gram of that order, has at most 50 entries, no n-gram twice, and non-increasing counts |
| NGramDensity.DensityIsTop | tools/nlp_analyzer.py:112 | an n-gram left out occurs no more often than any n-gram kept |
| NGramDensity.DensityComplete | tools/nlp_analyzer.py:112-118 | an n-gram is left out only when 50 were kept and the document has more than 50 distinct n-grams of that order |
| NGramDensity.DensityCountsSum | tools/nlp_analyzer.py:108-126 | the counts kept for an order add up to at most the number of n-grams (`total_ngrams`), and to exactly that number when the document has at most 50 distinct n-grams of the order, so nothing is cut off and the densities add up to 1 up to rounding |
| NGramDensity.CoveredCount | tools/nlp_analyzer.py:108-109 | the counts of distinct n-grams add up to at most the number of n-grams, and to all of them when those n-grams cover the document |
| NGramDensity.LeftOutPosition | tools/nlp_analyzer.py:112-118 | a left-out n-gram's vocabulary position lies outside the selection |
| NGramDensity.OrderEmptyIff | tools/nlp_analyzer.py:128-133 | an order gets `{}` exactly when fewer words than the order remain after stop-word removal |
| ResultSort.SortByScore | tools/nlp_analyzer.py:146-154 | the items come out as a permutation of the dictionary's items, in non-increasing order of score |
| ResultSort.Score | tools/nlp_analyzer.py:152 | the key `lambda item: item[1]`; it has no contract of its own, and SortByScore and SortByScoreStable state the order it gives |
| ResultSort.SortByScoreStable | tools/nlp_analyzer.py:152 | items with equal scores keep their dictionary order |
| ResultSort.SortByScoreMember | tools/nlp_analyzer.py:152 | each sorted item is an item of the dictionary |
| ResultSort.SortByField | tools/nlp_analyzer.py:156-165 | one `(term, count, density)` triple per item, a permutation of the flattened items, in non-increasing order of the field (a missing field reads as 0) |
| ResultSort.ItemKey | tools/nlp_analyzer.py:158 | the key `lambda item: item[1].get(sort_by_key, 0)`, where a field other than count or density reads as 0; it has no contract of its own, and SortByField and SortByFieldStable state the order it gives |
| ResultSort.SortByFieldStable | tools/nlp_analyzer.py:158 | items with equal values of the field keep their dictionary order |
| ResultSort.SortByUnknownField | tools/nlp_analyzer.py:158 | sorting by a field the statistics lack keeps the dictionary order |
| ResultSort.SortByFieldMember | tools/nlp_analyzer.py:158-164 | each sorted triple is the flattened form of an item of the dictionary |
| ResultSort.FieldValue | tools/nlp_analyzer.py:158 | `item[1].get(sort_by_key, 0)`: the count, the density, or 0 for any other key; it has no contract of its own, and SortByUnknownField states the consequence of the 0 |
| ResultSort.Flatten | tools/nlp_analyzer.py:161-164 | `(term, data['count'], data['density'])`; it has no contract of its own, and SortByFieldMember states that each output triple is an item flattened this way |
| ContentAnalysis.AnalyzeContent | tools/nlp_analyzer.py:168-212 | an error record with the source's message when nothing was fetched or no text remained; otherwise a success record with the URL, a TF-IDF selection sorted by score, and each order's density result sorted by count |
| ContentAnalysis.FetchContent | tools/nlp_analyzer.py:35-54 | a URL that starts with `http` is fetched as it is, any other URL with `https://` in front; `None` stands for a failed request |
| ContentAnalysis.SortDensity | tools/nlp_analyzer.py:200-203 | the loop maps each order's dictionary to its list sorted by count, under the same key, in the same order |
| ContentAnalysis.SortedDensityOf | tools/nlp_analyzer.py:200-203 | sorting each order's result by count gives the density part of a success record |
| ContentAnalysis.ByCount | tools/nlp_analyzer.py:203 | the value stored under an order's key: `sort_analysis_results(n_data, sort_by_key='count')`; it has no contract of its own, and SortDensity and SortedDensityOf state what it stores |
| ContentAnalysis.AnalysisErrorIff | tools/nlp_analyzer.py:174-180 | the result is an error exactly when the fetch failed or was empty, the parser failed, or the text has no ASCII letter |
| ContentAnalysis.SuccessScores | tools/nlp_analyzer.py:189-196 | a success record's TF-IDF list has at most 50 entries in non-increasing order of score; each entry is a term of the row with its rounded score, which is positive |
| ContentAnalysis.SortedSelectionEntry | tools/nlp_analyzer.py:74-82 | an entry of a TF-IDF selection sorted by score is a term of the row with its rounded, positive score, and the sorted list has at most 50 entries in non-increasing order of score |
| ContentAnalysis.SuccessDensity | tools/nlp_analyzer.py:190-203 | each order's list has at most 50 entries in non-increasing order of count, each an n-gram of the text with its number of occurrences; the list is empty exactly when too few words remain |
| ContentAnalysis.SortedOrderEntry | tools/nlp_analyzer.py:156-165 | one order's result, sorted by count, keeps its bound, its count order and its entries |
| WebVitals.MetricNamed | tools/web_vitals_fetcher.py:26-95 | the name test finds the metric with that name, or none exists |
| WebVitals.MetricRating | tools/web_vitals_fetcher.py:10-95 | it raises exactly for a value `float()` rejects with TypeError; it gives `None` for a missing value, a value rejected with ValueError, or an unknown name; otherwise it gives the metric's rating of the value |
| WebVitals.Thresholds | tools/web_vitals_fetcher.py:41-93 | the GOOD bound is positive and below the NEEDS_IMPROVEMENT bound |
| WebVitals.RatingFollowsThresholds | tools/web_vitals_fetcher.py:35-93 | a lower-is-better metric is GOOD up to and including its first bound, NEEDS_IMPROVEMENT up to and including its second bound, and POOR above it |
| WebVitals.PerformanceBands | tools/web_vitals_fetcher.py:26-33 | a performance score is GOOD from 90, NEEDS_IMPROVEMENT from 50 to below 90, and POOR below 50 |
| WebVitals.RateValue | tools/web_vitals_fetcher.py:26-93 | the threshold chains with the source's constants; it has no contract of its own, and PerformanceBands and RatingFollowsThresholds state the bands |
| WebVitals.LowerIsBetterMonotone | tools/web_vitals_fetcher.py:35-93 | a larger value of a lower-is-better metric never rates better |
| WebVitals.PerformanceMonotone | tools/web_vitals_fetcher.py:31-33 | a larger performance score never rates worse |
| WebVitals.KnownMetricIsRated | tools/web_vitals_fetcher.py:26-93 | a known name with a number always gets one of the three labels |
| WebVitals.Label | tools/web_vitals_fetcher.py:31-93 | the strings "GOOD", "NEEDS_IMPROVEMENT" and "POOR"; it has no contract of its own, and LabelInjective states that they tell the ratings apart |
| WebVitals.LabelInjective | tools/web_vitals_fetcher.py:31-93 | two ratings have the same label exactly when they are the same rating |
| WebVitals.Truncate | tools/web_vitals_fetcher.py:151 | `int()` truncates toward zero: it drops less than 1, toward zero |
| WebVitals.Get | tools/web_vitals_fetcher.py:130-131 | `get` gives the default for an absent key and a stored value otherwise |
| WebVitals.CruxValue | tools/web_vitals_fetcher.py:129-135 | a CrUX entry raises exactly when its percentile makes `float()` raise TypeError; otherwise it carries the stored percentile, and a missing percentile is unrated |
| WebVitals.AuditValue | tools/web_vitals_fetcher.py:154-163 | a lab entry raises exactly when its `numericValue` makes `float()` raise TypeError; otherwise it carries the stored `numericValue` and `displayValue`, and a missing value is unrated |
| WebVitals.ScoreValue | tools/web_vitals_fetcher.py:150-169 | the performance score is missing exactly when the raw score is; otherwise it is `int(raw_score * 100)`, truncated toward zero, and rated as a performance score; a missing score is unrated |
| WebVitals.ShapeResponse | tools/web_vitals_fetcher.py:121-184 | the report fails exactly when a rated value makes `float()` raise TypeError; otherwise every missing value is unrated, and `real_user_data` is "Not enough traffic data" exactly when there are no CrUX metrics |
| WebVitals.ReportRatingsConsistent | tools/web_vitals_fetcher.py:129-175 | every rating in a report is its metric's rating of that entry's own value, and `None` when that value is missing or not numeric |
| WebVitals.LabRatingsConsistent | tools/web_vitals_fetcher.py:154-175 | each of the five lab entries is rated on its own `numericValue` for its metric |
| WebVitals.CruxRatingsConsistent | tools/web_vitals_fetcher.py:129-142 | each of the three CrUX entries is rated on its own percentile for its metric |
| WebVitals.ReportCarriesValues | tools/web_vitals_fetcher.py:129-175 | each slot of a report holds the response value under its own key: the five audits' `numericValue` and `displayValue`, the performance score entry of the raw score, the three CrUX percentiles and the overall category |
| WebVitals.ShapeSlots | tools/web_vitals_fetcher.py:137-175 | each lab and CrUX slot of a report is the entry `get_audit_val` or `get_crux_val` produced for its key and name, and there is CrUX data exactly when the response has CrUX metrics |
| WebVitals.PerformanceScoreOfFraction | tools/web_vitals_fetcher.py:150-169 | a raw score in [0, 1] becomes the whole part of 100 times it, from 0 to 100, rated GOOD exactly from 0.9 and POOR exactly below 0.5 |

## Left out

- Network I/O is left out: `requests.get`, its headers, timeout and `raise_for_status` in `fetch_content`. The page fetch is the `httpGet` parameter, and `None` stands for any failure.
- The PageSpeed request and its parameters are left out, as are the non-200 branch with its "API Error" message, `response.json()` and the logging. `ShapeResponse` starts from the decoded response.
- `analyze_web_vitals` is left out. It reads the API key from the environment, stamps `datetime.now()` and makes two network calls.
- HTML parsing with BeautifulSoup (`decompose`, `get_text`) is the `extract` parameter. An exception inside `clean_text` is `None` from that parameter.
- The vectorizers' token pattern and English stop-word list are parameters.
- The TF-IDF weighting (idf and l2 normalisation) is an input: the row the vectorizer returns, or `None` when it raises.
- The vocabulary is in order of first occurrence, while scikit-learn orders it alphabetically. Since the selection allows any order among ties, both orders give the same set of possible results.
- numpy's `argsort` is not stable, so the order among equal scores or counts is left open. The top-50 selection is specified as "some 50 largest".
- `round(x, 4)` and `round(x, 5)` are parameters, and all values are exact reals, so binary floating point is not modelled. That covers the product in `int(raw_score * 100)` and the CLS comparison at 0.1.
- NaN and infinite values are not modelled.
- ContentAnalysis.AnalyzeContent: an exception other than ValueError escaping the count vectorizer is not modelled. Its `except` catches only ValueError, and the model's vectorizer fails only with ValueError, for an empty vocabulary.
- WebVitals.ShapeResponse: the decoded response is taken to have the documented JSON shape, so an error from a malformed structure is not modelled. The error's message `str(e)` is not modelled either.
- WebVitals.ShapeResponse: the performance score is a number or missing. A non-numeric score, which Python would multiply as a string, is not modelled.
- `analyze_content` analyses a single document, so the multi-document corpus is not modelled.
- The other tools (`sitemap_fetcher.py`, `ranking_monitor.py`), the agent wiring and output schemas under `agents/`, and the file and retry helpers under `utils/` are not part of this model. They are configuration for external frameworks, or disk and network I/O.
