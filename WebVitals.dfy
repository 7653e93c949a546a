/**
 * `_get_metric_rating` and the shaping of a PageSpeed Insights response in
 * `_fetch_pagespeed_data`: each Core Web Vitals or Lighthouse metric value
 * is rated GOOD, NEEDS_IMPROVEMENT or POOR against the thresholds published
 * on web.dev, and a response becomes lab data plus real-user (CrUX) data.
 * Values are exact reals; the HTTP request and JSON decoding are not part
 * of this model, the decoded response is the input.
 */
module WebVitals {
  import opened Wrappers
  import opened Dicts

  datatype Rating = Good | NeedsImprovement | Poor

  /** The string `_get_metric_rating` returns for a rating. */
  function Label(r: Rating): string
  {
    match r
    case Good => "GOOD"
    case NeedsImprovement => "NEEDS_IMPROVEMENT"
    case Poor => "POOR"
  }

  /** The three labels are different strings. */
  lemma LabelInjective(a: Rating, b: Rating)
    ensures Label(a) == Label(b) <==> a == b
  {
    if a != b {
      assert Label(a)[0] != Label(b)[0] || |Label(a)| != |Label(b)|;
    }
  }

  /** Better ratings rank lower. */
  function Rank(r: Rating): nat
  {
    match r
    case Good => 0
    case NeedsImprovement => 1
    case Poor => 2
  }

  /** The metrics `_get_metric_rating` knows. */
  datatype Metric = PerformanceScore | LCP | CLS | INP | FCP | SpeedIndex | TotalBlockingTime

  /** The name a caller passes for each metric. */
  function MetricName(m: Metric): string
  {
    match m
    case PerformanceScore => "performance_score"
    case LCP => "LCP"
    case CLS => "CLS"
    case INP => "INP"
    case FCP => "FCP"
    case SpeedIndex => "Speed_Index"
    case TotalBlockingTime => "Total_Blocking_Time"
  }

  /** The metric a name stands for; `None` for a name the chain of `elif`s does not test. */
  function MetricNamed(name: string): (r: Option<Metric>)
    ensures r.Some? ==> MetricName(r.value) == name
    ensures r.None? ==> forall m: Metric :: MetricName(m) != name
  {
    if name == "performance_score" then Some(PerformanceScore)
    else if name == "LCP" then Some(LCP)
    else if name == "CLS" then Some(CLS)
    else if name == "INP" then Some(INP)
    else if name == "FCP" then Some(FCP)
    else if name == "Speed_Index" then Some(SpeedIndex)
    else if name == "Total_Blocking_Time" then Some(TotalBlockingTime)
    else None
  }

  /**
   * The rating chain for a metric whose value converted to a float. The
   * performance score is higher-is-better with lower bounds; every other
   * metric is lower-is-better with inclusive upper bounds.
   */
  function RateValue(m: Metric, v: real): Rating
  {
    match m
    case PerformanceScore =>
      if v >= 90.0 then Good else if v >= 50.0 then NeedsImprovement else Poor
    case LCP =>
      if v <= 2500.0 then Good else if v <= 4000.0 then NeedsImprovement else Poor
    case CLS =>
      if v <= 0.1 then Good else if v <= 0.25 then NeedsImprovement else Poor
    case INP =>
      if v <= 200.0 then Good else if v <= 500.0 then NeedsImprovement else Poor
    case FCP =>
      if v <= 1800.0 then Good else if v <= 3000.0 then NeedsImprovement else Poor
    case SpeedIndex =>
      if v <= 3400.0 then Good else if v <= 5800.0 then NeedsImprovement else Poor
    case TotalBlockingTime =>
      if v <= 200.0 then Good else if v <= 600.0 then NeedsImprovement else Poor
  }

  /**
   * A decoded JSON value as `float()` sees it: JSON null, a value `float()`
   * accepts (a number, or a numeric string), one it rejects with ValueError
   * (any other string), or one it rejects with TypeError (an object or a list).
   */
  datatype RawValue = Null | Number(x: real) | NotNumeric | NotConvertible

  /** What a Python call produced: a value, or an exception that escaped it. */
  datatype Outcome<T> = Value(value: T) | Raised

  /**
   * `_get_metric_rating(name, value)`: `None` for a missing value, for a
   * value `float()` rejects with ValueError and for an unknown name; the
   * TypeError of `float()` is not caught and escapes.
   */
  function MetricRating(name: string, value: RawValue): (r: Outcome<Option<Rating>>)
    ensures r.Raised? <==> value.NotConvertible?
    ensures value.Null? || value.NotNumeric? ==> r == Value(None)
    ensures value.Number? ==> (r == Value(None) <==> MetricNamed(name).None?)
    ensures r.Value? && r.value.Some? ==>
      value.Number? && MetricNamed(name).Some? && r.value.value == RateValue(MetricNamed(name).value, value.x)
  {
    match value
    case Null => Value(None)
    case NotNumeric => Value(None)
    case NotConvertible => Raised
    case Number(v) =>
      match MetricNamed(name)
      case None => Value(None)
      case Some(m) => Value(Some(RateValue(m, v)))
  }

  // ---------------------------------------------------------------------
  // The published thresholds

  /** Every metric but the performance score is better when smaller. */
  predicate LowerIsBetter(m: Metric)
  {
    m != PerformanceScore
  }

  /**
   * The thresholds web.dev publishes for a lower-is-better metric: the
   * largest GOOD value and the largest NEEDS_IMPROVEMENT value.
   */
  function Thresholds(m: Metric): (t: (real, real))
    requires LowerIsBetter(m)
    ensures 0.0 < t.0 < t.1
  {
    match m
    case LCP => (2500.0, 4000.0)
    case CLS => (0.1, 0.25)
    case INP => (200.0, 500.0)
    case FCP => (1800.0, 3000.0)
    case SpeedIndex => (3400.0, 5800.0)
    case TotalBlockingTime => (200.0, 600.0)
  }

  /** A lower-is-better metric is rated by its published thresholds, both bounds inclusive. */
  lemma RatingFollowsThresholds(m: Metric, v: real)
    requires LowerIsBetter(m)
    ensures RateValue(m, v) == Good <==> v <= Thresholds(m).0
    ensures RateValue(m, v) == NeedsImprovement <==> Thresholds(m).0 < v <= Thresholds(m).1
    ensures RateValue(m, v) == Poor <==> Thresholds(m).1 < v
  {
  }

  /** Performance scores of 90 to 100 are GOOD, 50 to 89 NEEDS_IMPROVEMENT, below 50 POOR. */
  lemma PerformanceBands(v: real)
    ensures RateValue(PerformanceScore, v) == Good <==> v >= 90.0
    ensures RateValue(PerformanceScore, v) == NeedsImprovement <==> 50.0 <= v < 90.0
    ensures RateValue(PerformanceScore, v) == Poor <==> v < 50.0
  {
  }

  /** A larger value of a lower-is-better metric never gets a better rating. */
  lemma LowerIsBetterMonotone(m: Metric, v: real, w: real)
    requires LowerIsBetter(m) && v <= w
    ensures Rank(RateValue(m, v)) <= Rank(RateValue(m, w))
  {
    RatingFollowsThresholds(m, v);
    RatingFollowsThresholds(m, w);
  }

  /** A larger performance score never gets a worse rating. */
  lemma PerformanceMonotone(v: real, w: real)
    requires v <= w
    ensures Rank(RateValue(PerformanceScore, v)) >= Rank(RateValue(PerformanceScore, w))
  {
  }

  /** A known metric name with a number always gets one of the three labels. */
  lemma KnownMetricIsRated(m: Metric, v: real)
    ensures MetricRating(MetricName(m), Number(v)) == Value(Some(RateValue(m, v)))
    ensures Label(RateValue(m, v)) in {"GOOD", "NEEDS_IMPROVEMENT", "POOR"}
  {
    assert MetricNamed(MetricName(m)) == Some(m);
  }

  // ---------------------------------------------------------------------
  // Shaping a PageSpeed Insights response

  /** `int(x)` on a float: truncation toward zero. */
  function Truncate(x: real): (r: int)
    ensures x >= 0.0 ==> r as real <= x < r as real + 1.0
    ensures x < 0.0 ==> r as real - 1.0 < x <= r as real
  {
    if x >= 0.0 then x.Floor else -((-x).Floor)
  }

  /** One Lighthouse audit: `numericValue` and `displayValue` (a missing key reads as null). */
  datatype Audit = Audit(numericValue: RawValue, displayValue: Option<string>)

  /**
   * The parts of the decoded response `_fetch_pagespeed_data` reads:
   * `loadingExperience.metrics` as each CrUX metric's `percentile` (an
   * absent `metrics` is the empty dictionary), `overall_category`,
   * `lighthouseResult.audits` and `categories.performance.score`.
   */
  datatype PageSpeedData = PageSpeedData(
    cruxMetrics: Dict<RawValue>,
    overallCategory: Option<string>,
    audits: Dict<Audit>,
    performanceScore: Option<real>)

  /** `{"value": ..., "rating": ...}` of a CrUX metric. */
  datatype MetricReport = MetricReport(value: RawValue, rating: Option<Rating>)

  /** `{"displayValue": ..., "numericValue": ..., "rating": ...}` of a lab metric. */
  datatype AuditReport = AuditReport(displayValue: Option<string>, numericValue: RawValue, rating: Option<Rating>)

  /** `{"value": perf_score, "rating": ...}`. */
  datatype ScoreReport = ScoreReport(value: Option<int>, rating: Option<Rating>)

  datatype LabData = LabData(
    performance: ScoreReport,
    fcp: AuditReport, lcp: AuditReport, cls: AuditReport,
    speedIndex: AuditReport, totalBlockingTime: AuditReport)

  /** `real_user_data`: the CrUX metrics, or the string "Not enough traffic data". */
  datatype RealUserData =
    | NotEnoughTrafficData
    | CruxData(inp: MetricReport, lcp: MetricReport, cls: MetricReport, overallRating: Option<string>)

  /**
   * What `_fetch_pagespeed_data` returns once the response decoded: the
   * report, or the error dictionary of its `except` (whose message, `str(e)`,
   * is not modelled).
   */
  datatype StrategyResult =
    | StrategyReport(lab: LabData, realUser: RealUserData)
    | StrategyFailed

  /** `d.get(k, default)`. */
  function Get<V>(d: Dict<V>, k: string, default: V): (r: V)
    ensures k !in Keys(d) ==> r == default
    ensures k in Keys(d) ==> (k, r) in d
  {
    if d == [] then default
    else if d[0].0 == k then d[0].1
    else Get(d[1..], k, default)
  }

  /** `get_crux_val(key, name)`. */
  function CruxValue(metrics: Dict<RawValue>, key: string, name: string): (r: Outcome<MetricReport>)
    ensures r.Raised? <==> Get(metrics, key, Null).NotConvertible?
    ensures r.Value? ==> r.value.value == Get(metrics, key, Null)
    ensures r.Value? && r.value.value.Null? ==> r.value.rating.None?
  {
    var v := Get(metrics, key, Null);
    match MetricRating(name, v)
    case Raised => Raised
    case Value(rating) => Value(MetricReport(v, rating))
  }

  /** `get_audit_val(key, name)`. */
  function AuditValue(audits: Dict<Audit>, key: string, name: string): (r: Outcome<AuditReport>)
    ensures r.Raised? <==> Get(audits, key, Audit(Null, None)).numericValue.NotConvertible?
    ensures r.Value? ==> r.value.numericValue == Get(audits, key, Audit(Null, None)).numericValue
    ensures r.Value? ==> r.value.displayValue == Get(audits, key, Audit(Null, None)).displayValue
    ensures r.Value? && r.value.numericValue.Null? ==> r.value.rating.None?
  {
    var a := Get(audits, key, Audit(Null, None));
    match MetricRating(name, a.numericValue)
    case Raised => Raised
    case Value(rating) => Value(AuditReport(a.displayValue, a.numericValue, rating))
  }

  /** The performance score entry: `int(raw_score * 100)` rated as "performance_score". */
  function ScoreValue(score: Option<real>): (r: ScoreReport)
    ensures r.value.None? <==> score.None?
    ensures r.value.None? ==> r.rating.None?
    ensures score.Some? && score.value >= 0.0 ==>
      r.value.value as real <= score.value * 100.0 < r.value.value as real + 1.0
    ensures score.Some? && score.value < 0.0 ==>
      r.value.value as real - 1.0 < score.value * 100.0 <= r.value.value as real
    ensures r.value.Some? ==> r.rating == Some(RateValue(PerformanceScore, r.value.value as real))
  {
    assert MetricNamed("performance_score") == Some(PerformanceScore);
    var perf := if score.Some? then Some(Truncate(score.value * 100.0)) else None;
    var rating := MetricRating("performance_score", if perf.Some? then Number(perf.value as real) else Null);
    ScoreReport(perf, rating.value)
  }

  /** Some value the report rates makes `float()` raise TypeError. */
  predicate RaisesTypeError(data: PageSpeedData)
  {
    || (data.cruxMetrics != [] &&
         (|| Get(data.cruxMetrics, "INTERACTION_TO_NEXT_PAINT", Null).NotConvertible?
          || Get(data.cruxMetrics, "LARGEST_CONTENTFUL_PAINT", Null).NotConvertible?
          || Get(data.cruxMetrics, "CUMULATIVE_LAYOUT_SHIFT", Null).NotConvertible?))
    || Get(data.audits, "first-contentful-paint", Audit(Null, None)).numericValue.NotConvertible?
    || Get(data.audits, "largest-contentful-paint", Audit(Null, None)).numericValue.NotConvertible?
    || Get(data.audits, "cumulative-layout-shift", Audit(Null, None)).numericValue.NotConvertible?
    || Get(data.audits, "speed-index", Audit(Null, None)).numericValue.NotConvertible?
    || Get(data.audits, "total-blocking-time", Audit(Null, None)).numericValue.NotConvertible?
  }

  /** Every rating of a report is `None` when the value it rates is missing. */
  predicate MissingIsUnrated(lab: LabData, realUser: RealUserData)
  {
    && (lab.performance.value.None? ==> lab.performance.rating.None?)
    && (lab.fcp.numericValue.Null? ==> lab.fcp.rating.None?)
    && (lab.lcp.numericValue.Null? ==> lab.lcp.rating.None?)
    && (lab.cls.numericValue.Null? ==> lab.cls.rating.None?)
    && (lab.speedIndex.numericValue.Null? ==> lab.speedIndex.rating.None?)
    && (lab.totalBlockingTime.numericValue.Null? ==> lab.totalBlockingTime.rating.None?)
    && (realUser.CruxData? ==>
         && (realUser.inp.value.Null? ==> realUser.inp.rating.None?)
         && (realUser.lcp.value.Null? ==> realUser.lcp.rating.None?)
         && (realUser.cls.value.Null? ==> realUser.cls.rating.None?))
  }

  /** A lab entry holds the `numericValue` and `displayValue` of the audit under `key`. */
  predicate AuditCarries(a: AuditReport, audits: Dict<Audit>, key: string)
  {
    var stored := Get(audits, key, Audit(Null, None));
    a.numericValue == stored.numericValue && a.displayValue == stored.displayValue
  }

  /**
   * Each slot of a report holds the response value under its own key: the
   * five lab audits, the performance score, and the three CrUX percentiles
   * with the overall category.
   */
  predicate CarriesValues(data: PageSpeedData, lab: LabData, realUser: RealUserData)
  {
    && lab.performance == ScoreValue(data.performanceScore)
    && AuditCarries(lab.fcp, data.audits, "first-contentful-paint")
    && AuditCarries(lab.lcp, data.audits, "largest-contentful-paint")
    && AuditCarries(lab.cls, data.audits, "cumulative-layout-shift")
    && AuditCarries(lab.speedIndex, data.audits, "speed-index")
    && AuditCarries(lab.totalBlockingTime, data.audits, "total-blocking-time")
    && (realUser.CruxData? ==>
         && realUser.inp.value == Get(data.cruxMetrics, "INTERACTION_TO_NEXT_PAINT", Null)
         && realUser.lcp.value == Get(data.cruxMetrics, "LARGEST_CONTENTFUL_PAINT", Null)
         && realUser.cls.value == Get(data.cruxMetrics, "CUMULATIVE_LAYOUT_SHIFT", Null)
         && realUser.overallRating == data.overallCategory)
  }

  /**
   * The body of the `try` in `_fetch_pagespeed_data` after `response.json()`.
   * It fails exactly when a rated value makes `float()` raise TypeError;
   * otherwise missing values are unrated and `real_user_data` is "Not enough
   * traffic data" exactly when the response has no CrUX metrics.
   */
  function ShapeResponse(data: PageSpeedData): (r: StrategyResult)
    ensures r.StrategyFailed? <==> RaisesTypeError(data)
    ensures r.StrategyReport? ==> (r.realUser.NotEnoughTrafficData? <==> data.cruxMetrics == [])
    ensures r.StrategyReport? ==> MissingIsUnrated(r.lab, r.realUser)
  {
    var crux :=
      if data.cruxMetrics == [] then Value(NotEnoughTrafficData)
      else
        var inp := CruxValue(data.cruxMetrics, "INTERACTION_TO_NEXT_PAINT", "INP");
        var lcp := CruxValue(data.cruxMetrics, "LARGEST_CONTENTFUL_PAINT", "LCP");
        var cls := CruxValue(data.cruxMetrics, "CUMULATIVE_LAYOUT_SHIFT", "CLS");
        if inp.Raised? || lcp.Raised? || cls.Raised? then Raised
        else Value(CruxData(inp.value, lcp.value, cls.value, data.overallCategory));
    var fcp := AuditValue(data.audits, "first-contentful-paint", "FCP");
    var lcp := AuditValue(data.audits, "largest-contentful-paint", "LCP");
    var cls := AuditValue(data.audits, "cumulative-layout-shift", "CLS");
    var si := AuditValue(data.audits, "speed-index", "Speed_Index");
    var tbt := AuditValue(data.audits, "total-blocking-time", "Total_Blocking_Time");
    if crux.Raised? || fcp.Raised? || lcp.Raised? || cls.Raised? || si.Raised? || tbt.Raised? then
      StrategyFailed
    else
      StrategyReport(
        LabData(ScoreValue(data.performanceScore), fcp.value, lcp.value, cls.value, si.value, tbt.value),
        crux.value)
  }

  // ---------------------------------------------------------------------
  // What a report promises

  /** A lab entry's rating is the rating of its own numeric value for that metric. */
  predicate AuditRatedAs(a: AuditReport, m: Metric)
  {
    a.rating == if a.numericValue.Number? then Some(RateValue(m, a.numericValue.x)) else None
  }

  /** A CrUX entry's rating is the rating of its own percentile for that metric. */
  predicate CruxRatedAs(c: MetricReport, m: Metric)
  {
    c.rating == if c.value.Number? then Some(RateValue(m, c.value.x)) else None
  }

  /**
   * Every rating in a report agrees with the thresholds of its metric: each
   * entry is rated on its own value, and a missing or non-numeric value is
   * unrated.
   */
  lemma ReportRatingsConsistent(data: PageSpeedData)
    requires ShapeResponse(data).StrategyReport?
    ensures var r := ShapeResponse(data);
      && AuditRatedAs(r.lab.fcp, FCP)
      && AuditRatedAs(r.lab.lcp, LCP)
      && AuditRatedAs(r.lab.cls, CLS)
      && AuditRatedAs(r.lab.speedIndex, SpeedIndex)
      && AuditRatedAs(r.lab.totalBlockingTime, TotalBlockingTime)
      && (r.realUser.CruxData? ==>
           && CruxRatedAs(r.realUser.inp, INP)
           && CruxRatedAs(r.realUser.lcp, LCP)
           && CruxRatedAs(r.realUser.cls, CLS))
  {
    LabRatingsConsistent(data);
    CruxRatingsConsistent(data);
  }

  /** The lab half of `ReportRatingsConsistent`. */
  lemma LabRatingsConsistent(data: PageSpeedData)
    requires ShapeResponse(data).StrategyReport?
    ensures var r := ShapeResponse(data);
      && AuditRatedAs(r.lab.fcp, FCP)
      && AuditRatedAs(r.lab.lcp, LCP)
      && AuditRatedAs(r.lab.cls, CLS)
      && AuditRatedAs(r.lab.speedIndex, SpeedIndex)
      && AuditRatedAs(r.lab.totalBlockingTime, TotalBlockingTime)
  {
    assert MetricNamed("FCP") == Some(FCP);
    assert MetricNamed("LCP") == Some(LCP);
    assert MetricNamed("CLS") == Some(CLS);
    assert MetricNamed("Speed_Index") == Some(SpeedIndex);
    assert MetricNamed("Total_Blocking_Time") == Some(TotalBlockingTime);
  }

  /** The CrUX half of `ReportRatingsConsistent`. */
  lemma CruxRatingsConsistent(data: PageSpeedData)
    requires ShapeResponse(data).StrategyReport?
    ensures var r := ShapeResponse(data);
      r.realUser.CruxData? ==>
        && CruxRatedAs(r.realUser.inp, INP)
        && CruxRatedAs(r.realUser.lcp, LCP)
        && CruxRatedAs(r.realUser.cls, CLS)
  {
    assert MetricNamed("INP") == Some(INP);
    assert MetricNamed("LCP") == Some(LCP);
    assert MetricNamed("CLS") == Some(CLS);
  }

  /**
   * Each slot of a report holds the response value under its own key, so a
   * report is determined by the response it was shaped from.
   */
  lemma ReportCarriesValues(data: PageSpeedData)
    requires ShapeResponse(data).StrategyReport?
    ensures CarriesValues(data, ShapeResponse(data).lab, ShapeResponse(data).realUser)
  {
    ShapeSlots(data);
  }

  /** Each slot of a report is the entry its shaping call produced. */
  lemma ShapeSlots(data: PageSpeedData)
    requires ShapeResponse(data).StrategyReport?
    ensures var r := ShapeResponse(data);
      && AuditValue(data.audits, "first-contentful-paint", "FCP") == Value(r.lab.fcp)
      && AuditValue(data.audits, "largest-contentful-paint", "LCP") == Value(r.lab.lcp)
      && AuditValue(data.audits, "cumulative-layout-shift", "CLS") == Value(r.lab.cls)
      && AuditValue(data.audits, "speed-index", "Speed_Index") == Value(r.lab.speedIndex)
      && AuditValue(data.audits, "total-blocking-time", "Total_Blocking_Time") == Value(r.lab.totalBlockingTime)
      && (r.realUser.CruxData? <==> data.cruxMetrics != [])
      && (r.realUser.CruxData? ==>
           && CruxValue(data.cruxMetrics, "INTERACTION_TO_NEXT_PAINT", "INP") == Value(r.realUser.inp)
           && CruxValue(data.cruxMetrics, "LARGEST_CONTENTFUL_PAINT", "LCP") == Value(r.realUser.lcp)
           && CruxValue(data.cruxMetrics, "CUMULATIVE_LAYOUT_SHIFT", "CLS") == Value(r.realUser.cls))
  {
  }

  /**
   * A performance score in [0, 1] becomes a whole number from 0 to 100, and
   * it is rated GOOD exactly when the raw score is at least 0.9.
   */
  lemma PerformanceScoreOfFraction(score: real)
    requires 0.0 <= score <= 1.0
    ensures var s := ScoreValue(Some(score));
      && s.value.Some? && 0 <= s.value.value <= 100
      && s.value.value as real <= score * 100.0 < s.value.value as real + 1.0
      && (s.rating == Some(Good) <==> score >= 0.9)
      && (s.rating == Some(Poor) <==> score < 0.5)
  {
    var x := score * 100.0;
    var t := Truncate(x);
    assert t as real <= x < t as real + 1.0;
    assert MetricNamed("performance_score") == Some(PerformanceScore);
    assert t >= 90 <==> x >= 90.0;
    assert t >= 50 <==> x >= 50.0;
  }
}
