/** `generateReport` and `getInsights` of
    backend/src/controllers/report.controller.ts: one analytics run per
    requested metric with summary counts, and the rule-based insights drawn
    from one metric's stored analytics. */
module Reports {
  import opened Wrappers
  import opened Models
  import opened AnalyticsRun

  // ---------------------------------------------------------------------
  // generateReport

  /** One entry of a report: the metric and how its analytics run ended. */
  datatype MetricResult = MetricResult(metric: string, outcome: Result<Analytics, string>)

  datatype ReportSummary = ReportSummary(totalMetrics: nat, successfulMetrics: nat,
                                         failedMetrics: nat, totalAnomalies: nat)

  datatype Report = Report(datasetId: string, datasetName: string,
                           metrics: seq<MetricResult>, summary: ReportSummary)

  const MissingReportInput := "Dataset ID and metrics array are required"
  const ReportDatasetNotFound := "Dataset not found"

  function Succeeded(results: seq<MetricResult>): nat {
    if results == [] then 0
    else Succeeded(results[..|results| - 1]) + if results[|results| - 1].outcome.Success? then 1 else 0
  }

  function Failed(results: seq<MetricResult>): nat {
    if results == [] then 0
    else Failed(results[..|results| - 1]) + if results[|results| - 1].outcome.Failure? then 1 else 0
  }

  /** The anomalies found over the entries whose run succeeded. */
  function AnomalyTotal(results: seq<MetricResult>): nat {
    if results == [] then 0
    else
      var last := results[|results| - 1];
      AnomalyTotal(results[..|results| - 1])
        + if last.outcome.Success? then |last.outcome.value.anomalies| else 0
  }

  /** Every entry either succeeded or failed. */
  lemma {:induction false} SucceededPlusFailed(results: seq<MetricResult>)
    ensures Succeeded(results) + Failed(results) == |results|
  {
    if results != [] {
      SucceededPlusFailed(results[..|results| - 1]);
    }
  }

  /** The entries whose run succeeded. */
  function Successes(results: seq<MetricResult>): (r: seq<MetricResult>)
    ensures forall e :: e in r <==> e in results && e.outcome.Success?
  {
    if results == [] then []
    else
      var last := results[|results| - 1];
      Successes(results[..|results| - 1]) + if last.outcome.Success? then [last] else []
  }

  /** Failed entries add nothing to the anomaly total: it is the total over
      the successful entries alone, all of which count. */
  lemma {:induction false} AnomalyTotalOverSuccesses(results: seq<MetricResult>)
    ensures AnomalyTotal(results) == AnomalyTotal(Successes(results))
    ensures Succeeded(Successes(results)) == |Successes(results)| == Succeeded(results)
  {
    if results != [] {
      var front := results[..|results| - 1];
      var last := results[|results| - 1];
      AnomalyTotalOverSuccesses(front);
      assert results[..|results| - 1] == front;
      if last.outcome.Success? {
        var s := Successes(front) + [last];
        assert Successes(results) == s;
        assert s[..|s| - 1] == Successes(front) && s[|s| - 1] == last;
        assert AnomalyTotal(s) == AnomalyTotal(Successes(front)) + |last.outcome.value.anomalies|;
        assert Succeeded(s) == Succeeded(Successes(front)) + 1;
      } else {
        assert Successes(results) == Successes(front);
      }
    }
  }

  /** `generateReport`: `dataset` is what the ownership query found for the
      requested id, and `run` gives the outcome of the analytics run of each
      metric. */
  method GenerateReport(datasetId: Option<string>, metrics: Option<seq<string>>,
                        dataset: Option<Dataset>, run: string -> Result<Analytics, string>)
    returns (response: Response<Report>)
    ensures (datasetId.None? || datasetId == Some("") || metrics.None?)
            <==> response == BadRequest(MissingReportInput)
    ensures datasetId.Some? && datasetId != Some("") && metrics.Some? && dataset.None?
            ==> response == NotFound(ReportDatasetNotFound)
    ensures datasetId.Some? && datasetId != Some("") && metrics.Some? && dataset.Some? ==> response.Ok?
    ensures response.Ok? ==>
      var report := response.body;
      && datasetId.Some? && dataset.Some? && metrics.Some?
      && report.datasetId == datasetId.value
      && report.datasetName == dataset.value.datasetName
      && |report.metrics| == |metrics.value|
      && (forall k :: 0 <= k < |metrics.value|
            ==> report.metrics[k] == MetricResult(metrics.value[k], run(metrics.value[k])))
      && report.summary.totalMetrics == |metrics.value|
      && report.summary.successfulMetrics + report.summary.failedMetrics == |metrics.value|
      && report.summary.successfulMetrics == Succeeded(report.metrics)
      && report.summary.totalAnomalies == AnomalyTotal(Successes(report.metrics))
  {
    if datasetId.None? || datasetId.value == "" || metrics.None? {
      return BadRequest(MissingReportInput);
    }
    if dataset.None? {
      return NotFound(ReportDatasetNotFound);
    }
    var requested := metrics.value;
    var results: seq<MetricResult> := [];
    for i := 0 to |requested|
      invariant |results| == i
      invariant forall k :: 0 <= k < i ==> results[k] == MetricResult(requested[k], run(requested[k]))
    {
      var metric := requested[i];
      results := results + [MetricResult(metric, run(metric))];
    }
    SucceededPlusFailed(results);
    AnomalyTotalOverSuccesses(results);
    var summary := ReportSummary(|requested|, Succeeded(results), Failed(results), AnomalyTotal(results));
    response := Ok(Report(datasetId.value, dataset.value.datasetName, results, summary));
  }

  // ---------------------------------------------------------------------
  // getInsights

  datatype InsightType = SummaryInsight | AnomalyInsight | NormalInsight | TrendInsight

  /** The `info`, `medium` and `high` of an insight, named apart from the
      severities of anomalies. */
  datatype InsightSeverity = Info | Moderate | Critical

  /** The fixed titles an insight can carry. */
  datatype Title = StatisticalOverview | CriticalAnomalies | ModerateAnomalies
                 | NoAnomalies | UpwardTrend | DownwardTrend

  function TitleText(t: Title): string {
    match t
    case StatisticalOverview => "Statistical Overview"
    case CriticalAnomalies => "Critical Anomalies Detected"
    case ModerateAnomalies => "Moderate Anomalies"
    case NoAnomalies => "No Anomalies Detected"
    case UpwardTrend => "Upward Trend"
    case DownwardTrend => "Downward Trend"
  }

  /** One insight; the wording of its description is not modelled. */
  datatype Insight = Insight(kind: InsightType, title: Title, severity: InsightSeverity,
                             details: seq<Anomaly>)

  const MissingMetric := "Metric parameter is required"
  const AnalyticsNotFound := "Analytics not found. Please run analytics first."

  /** The anomalies of one severity, in their stored order. */
  function OfSeverity(anomalies: seq<Anomaly>, s: Severity): seq<Anomaly> {
    if anomalies == [] then []
    else (if anomalies[0].severity == s then [anomalies[0]] else []) + OfSeverity(anomalies[1..], s)
  }

  /** The filter keeps exactly the anomalies of the severity asked for. */
  lemma {:induction false} OfSeverityMembers(anomalies: seq<Anomaly>, s: Severity)
    ensures var r := OfSeverity(anomalies, s);
      && |r| <= |anomalies|
      && forall a :: a in r <==> a in anomalies && a.severity == s
  {
    if anomalies != [] {
      OfSeverityMembers(anomalies[1..], s);
      assert anomalies == [anomalies[0]] + anomalies[1..];
    }
  }

  /** At most the first three elements: `slice(0, 3)`. */
  function FirstThree(s: seq<Anomaly>): (r: seq<Anomaly>)
    ensures |r| <= 3 && r <= s
    ensures |s| <= 3 ==> r == s
  {
    if |s| <= 3 then s else s[..3]
  }

  /** A JavaScript number that may come out of a division by zero. */
  datatype Extended = Finite(x: real) | PosInfinity | NegInfinity | NaN

  /** `((last - first) / first) * 100` in floating-point terms: dividing by a
      zero first value gives an infinity of the sign of `last`, or NaN when
      `last` is zero too. */
  function PercentChange(first: real, last: real): (r: Extended)
    ensures first != 0.0 ==> r.Finite? && (r.x > 0.0 <==> (last - first) / first > 0.0)
    ensures first == 0.0 ==> (r.NaN? <==> last == 0.0) && (r == PosInfinity <==> last > 0.0)
  {
    if first != 0.0 then Finite((last - first) / first * 100.0)
    else if last > 0.0 then PosInfinity
    else if last < 0.0 then NegInfinity
    else NaN
  }

  /** `Math.abs(change) > bound`; NaN compares false. */
  predicate AbsAbove(change: Extended, bound: real) {
    match change
    case Finite(x) => x > bound || -x > bound
    case PosInfinity => true
    case NegInfinity => true
    case NaN => false
  }

  /** `change > 0`. */
  predicate Positive(change: Extended) {
    change == PosInfinity || (change.Finite? && change.x > 0.0)
  }

  predicate HasTitle(insights: seq<Insight>, title: Title) {
    exists i :: 0 <= i < |insights| && insights[i].title == title
  }

  /** The trend of a series of at least two points, if its first-to-last
      change is more than 10 percent either way: upward when the change is
      positive, critical above 50 percent. */
  function TrendOf(series: seq<DataPoint>): (r: Option<Insight>)
    ensures r.Some? <==> |series| > 1 && AbsAbove(PercentChange(series[0].value, series[|series| - 1].value), 10.0)
    ensures r.Some? ==>
      var change := PercentChange(series[0].value, series[|series| - 1].value);
      && r.value.kind == TrendInsight
      && (r.value.title == UpwardTrend <==> Positive(change))
      && (r.value.title == DownwardTrend <==> !Positive(change))
      && (r.value.severity == Critical <==> AbsAbove(change, 50.0))
      && (r.value.severity == Moderate <==> !AbsAbove(change, 50.0))
  {
    if |series| <= 1 then None
    else
      var change := PercentChange(series[0].value, series[|series| - 1].value);
      if AbsAbove(change, 10.0) then
        Some(Insight(TrendInsight,
                     if Positive(change) then UpwardTrend else DownwardTrend,
                     if AbsAbove(change, 50.0) then Critical else Moderate,
                     []))
      else None
  }

  lemma HasTitleConcat(a: seq<Insight>, b: seq<Insight>, t: Title)
    ensures HasTitle(a + b, t) <==> HasTitle(a, t) || HasTitle(b, t)
  {
    if HasTitle(b, t) {
      var i :| 0 <= i < |b| && b[i].title == t;
      assert (a + b)[|a| + i] == b[i];
    }
    if HasTitle(a, t) {
      var i :| 0 <= i < |a| && a[i].title == t;
      assert (a + b)[i] == a[i];
    }
    if HasTitle(a + b, t) {
      var i :| 0 <= i < |a + b| && (a + b)[i].title == t;
      if i >= |a| {
        assert b[i - |a|] == (a + b)[i];
      } else {
        assert a[i] == (a + b)[i];
      }
    }
  }

  /** An insight the anomaly step can push: an anomaly or "no anomalies"
      insight under one of the three anomaly titles, the critical one
      carrying the first three high anomalies. */
  predicate AnomalyInsightShape(x: Insight, anomalies: seq<Anomaly>) {
    && (x.kind == AnomalyInsight || x.kind == NormalInsight)
    && x.title in {CriticalAnomalies, ModerateAnomalies, NoAnomalies}
    && (x.title == CriticalAnomalies ==> x.severity == Critical && x.details == FirstThree(OfSeverity(anomalies, High)))
  }

  /** The insight pushed when the metric has no anomalies. */
  const NoAnomaliesInsight := Insight(NormalInsight, NoAnomalies, Info, [])

  /** The insight pushed when some anomaly is medium. */
  const ModerateInsight := Insight(AnomalyInsight, ModerateAnomalies, Moderate, [])

  /** The insight pushed when some anomaly is high: it lists the first three. */
  function CriticalInsight(anomalies: seq<Anomaly>): Insight {
    Insight(AnomalyInsight, CriticalAnomalies, Critical, FirstThree(OfSeverity(anomalies, High)))
  }

  /** The anomaly insights in the order they are pushed. */
  function AnomalyPart(anomalies: seq<Anomaly>): seq<Insight> {
    if anomalies == [] then [NoAnomaliesInsight]
    else
      (if |OfSeverity(anomalies, High)| > 0 then [CriticalInsight(anomalies)] else [])
      + (if |OfSeverity(anomalies, Medium)| > 0 then [ModerateInsight] else [])
  }

  /** The anomaly part holds at most two insights, "no anomalies" alone
      exactly when there are none, the critical insight exactly when some
      anomaly is high, the moderate one exactly when some is medium, and the
      critical one before the moderate one. */
  lemma AnomalyPartMeaning(anomalies: seq<Anomaly>)
    ensures var p := AnomalyPart(anomalies);
      && |p| <= 2
      && (p == [NoAnomaliesInsight] <==> anomalies == [])
      && (CriticalInsight(anomalies) in p <==> exists a :: a in anomalies && a.severity == High)
      && (ModerateInsight in p <==> exists a :: a in anomalies && a.severity == Medium)
      && (forall x :: x in p ==> x == NoAnomaliesInsight || x == ModerateInsight || x == CriticalInsight(anomalies))
      && (|p| == 2 ==> p == [CriticalInsight(anomalies), ModerateInsight])
  {
    if anomalies != [] {
      var p := AnomalyPart(anomalies);
      var critical, moderate := CriticalInsight(anomalies), ModerateInsight;
      var someHigh := |OfSeverity(anomalies, High)| > 0;
      var someMedium := |OfSeverity(anomalies, Medium)| > 0;
      OfSeverityNonEmpty(anomalies, High);
      OfSeverityNonEmpty(anomalies, Medium);
      if someHigh && someMedium {
        assert p == [critical, moderate];
      } else if someHigh {
        assert p == [critical];
      } else if someMedium {
        assert p == [moderate];
      } else {
        assert p == [];
      }
    }
  }

  /** The filter finds something exactly when some anomaly has the severity. */
  lemma OfSeverityNonEmpty(anomalies: seq<Anomaly>, s: Severity)
    ensures |OfSeverity(anomalies, s)| > 0 <==> exists a :: a in anomalies && a.severity == s
  {
    var r := OfSeverity(anomalies, s);
    OfSeverityMembers(anomalies, s);
    if |r| > 0 {
      assert r[0] in r;
    }
  }

  /** The anomaly part, read by title: "No Anomalies Detected" exactly when
      there are none, the critical title exactly when some anomaly is high,
      the moderate one exactly when some is medium. */
  lemma AnomalyPartTitles(anomalies: seq<Anomaly>)
    ensures var p := AnomalyPart(anomalies);
      && (HasTitle(p, NoAnomalies) <==> anomalies == [])
      && (HasTitle(p, CriticalAnomalies) <==> exists a :: a in anomalies && a.severity == High)
      && (HasTitle(p, ModerateAnomalies) <==> exists a :: a in anomalies && a.severity == Medium)
      && (forall i :: 0 <= i < |p| ==> AnomalyInsightShape(p[i], anomalies))
  {
    var p := AnomalyPart(anomalies);
    var critical, moderate := CriticalInsight(anomalies), ModerateInsight;
    var someHigh := |OfSeverity(anomalies, High)| > 0;
    var someMedium := |OfSeverity(anomalies, Medium)| > 0;
    OfSeverityNonEmpty(anomalies, High);
    OfSeverityNonEmpty(anomalies, Medium);
    if anomalies == [] {
      assert p[0].title == NoAnomalies;
    } else if someHigh && someMedium {
      assert p == [critical, moderate];
      assert p[0].title == CriticalAnomalies && p[1].title == ModerateAnomalies;
    } else if someHigh {
      assert p == [critical];
      assert p[0].title == CriticalAnomalies;
    } else if someMedium {
      assert p == [moderate];
      assert p[0].title == ModerateAnomalies;
    } else {
      assert p == [];
    }
  }

  /** The anomaly insights, pushed one after the other: critical when some
      anomaly is high, moderate when some is medium, "no anomalies" when
      there are none. */
  method AnomalyInsights(anomalies: seq<Anomaly>) returns (part: seq<Insight>)
    ensures part == AnomalyPart(anomalies)
    ensures HasTitle(part, NoAnomalies) <==> anomalies == []
    ensures HasTitle(part, CriticalAnomalies) <==> exists a :: a in anomalies && a.severity == High
    ensures HasTitle(part, ModerateAnomalies) <==> exists a :: a in anomalies && a.severity == Medium
    ensures forall i :: 0 <= i < |part| ==> AnomalyInsightShape(part[i], anomalies)
  {
    part := [];
    if |anomalies| > 0 {
      var highs := OfSeverity(anomalies, High);
      var mediums := OfSeverity(anomalies, Medium);
      if |highs| > 0 {
        part := part + [Insight(AnomalyInsight, CriticalAnomalies, Critical, FirstThree(highs))];
      }
      if |mediums| > 0 {
        part := part + [Insight(AnomalyInsight, ModerateAnomalies, Moderate, [])];
      }
    } else {
      part := [Insight(NormalInsight, NoAnomalies, Info, [])];
    }
    AnomalyPartTitles(anomalies);
  }

  /** `getInsights`: `analytics` is what `getAnalytics` found for the metric.
      The overview comes first, then the anomaly insights, then the trend. */
  method GetInsights(metric: Option<string>, analytics: Option<Analytics>)
    returns (response: Response<seq<Insight>>)
    ensures (metric.None? || metric == Some("")) <==> response == BadRequest(MissingMetric)
    ensures metric.Some? && metric != Some("") && analytics.None? ==> response == NotFound(AnalyticsNotFound)
    ensures metric.Some? && metric != Some("") && analytics.Some? ==> response.Ok?
    ensures response.Ok? ==>
      var trend := TrendOf(analytics.value.timeSeriesData);
      && analytics.Some?
      && response.body == [Insight(SummaryInsight, StatisticalOverview, Info, [])]
                          + AnomalyPart(analytics.value.anomalies)
                          + (if trend.Some? then [trend.value] else [])
    ensures response.Ok? ==>
      var insights := response.body;
      var anomalies := analytics.value.anomalies;
      && analytics.Some?
      && |insights| >= 1
      && insights[0] == Insight(SummaryInsight, StatisticalOverview, Info, [])
      && (HasTitle(insights, NoAnomalies) <==> anomalies == [])
      && (HasTitle(insights, CriticalAnomalies) <==> exists a :: a in anomalies && a.severity == High)
      && (HasTitle(insights, ModerateAnomalies) <==> exists a :: a in anomalies && a.severity == Medium)
      && (forall i :: 0 <= i < |insights| && insights[i].title == CriticalAnomalies
            ==> insights[i].details == FirstThree(OfSeverity(anomalies, High)))
      && (forall i :: 0 <= i < |insights| && insights[i].kind == TrendInsight
            ==> Some(insights[i]) == TrendOf(analytics.value.timeSeriesData))
      && ((exists i :: 0 <= i < |insights| && insights[i].kind == TrendInsight)
            <==> TrendOf(analytics.value.timeSeriesData).Some?)
  {
    if metric.None? || metric.value == "" {
      return BadRequest(MissingMetric);
    }
    if analytics.None? {
      return NotFound(AnalyticsNotFound);
    }
    var overview := Insight(SummaryInsight, StatisticalOverview, Info, []);
    var part := AnomalyInsights(analytics.value.anomalies);
    var insights := [overview] + part;
    var trend := TrendOf(analytics.value.timeSeriesData);
    var trendPart := if trend.Some? then [trend.value] else [];
    insights := insights + trendPart;
    assert insights == [overview] + part + trendPart;
    forall t | t == NoAnomalies || t == CriticalAnomalies || t == ModerateAnomalies
      ensures HasTitle(insights, t) <==> HasTitle(part, t)
    {
      AnomalyTitleOnlyInPart(overview, part, trendPart, t);
    }
    AssembledInsights(overview, part, trend, analytics.value.anomalies);
    response := Ok(insights);
  }

  /** An anomaly title is neither the overview's nor a trend's, so it occurs
      in the report exactly when the anomaly part holds it. */
  lemma AnomalyTitleOnlyInPart(overview: Insight, part: seq<Insight>, trendPart: seq<Insight>, t: Title)
    requires overview.title == StatisticalOverview
    requires forall i :: 0 <= i < |trendPart| ==> trendPart[i].title == UpwardTrend || trendPart[i].title == DownwardTrend
    requires t == NoAnomalies || t == CriticalAnomalies || t == ModerateAnomalies
    ensures HasTitle([overview] + part + trendPart, t) <==> HasTitle(part, t)
  {
    HasTitleConcat([overview], part, t);
    HasTitleConcat([overview] + part, trendPart, t);
  }

  /** The critical details and the trend of the assembled list come from the
      anomaly part and the trend alone. */
  lemma AssembledInsights(overview: Insight, part: seq<Insight>, trend: Option<Insight>, anomalies: seq<Anomaly>)
    requires overview.kind == SummaryInsight && overview.title == StatisticalOverview
    requires forall i :: 0 <= i < |part| ==> AnomalyInsightShape(part[i], anomalies)
    requires trend.Some? ==> trend.value.kind == TrendInsight
    requires trend.Some? ==> trend.value.title == UpwardTrend || trend.value.title == DownwardTrend
    ensures var insights := [overview] + part + (if trend.Some? then [trend.value] else []);
      && (forall i :: 0 <= i < |insights| && insights[i].title == CriticalAnomalies
            ==> insights[i].details == FirstThree(OfSeverity(anomalies, High)))
      && (forall i :: 0 <= i < |insights| && insights[i].kind == TrendInsight ==> Some(insights[i]) == trend)
      && ((exists i :: 0 <= i < |insights| && insights[i].kind == TrendInsight) <==> trend.Some?)
  {
    var trendPart := if trend.Some? then [trend.value] else [];
    var insights := [overview] + part + trendPart;
    InsightsLayout(overview, part, trendPart);
    forall i | 0 <= i < |insights|
      ensures insights[i].title == CriticalAnomalies ==> insights[i].details == FirstThree(OfSeverity(anomalies, High))
      ensures insights[i].kind == TrendInsight ==> Some(insights[i]) == trend
    {
      if 1 <= i <= |part| {
        assert AnomalyInsightShape(part[i - 1], anomalies);
      }
    }
    if trend.Some? {
      assert insights[|insights| - 1].kind == TrendInsight;
    }
  }

  /** Where the pieces of `[x] + p + q` sit. */
  lemma InsightsLayout(x: Insight, p: seq<Insight>, q: seq<Insight>)
    ensures var s := [x] + p + q;
      && |s| == 1 + |p| + |q| && s[0] == x
      && (forall i :: 1 <= i <= |p| ==> s[i] == p[i - 1])
      && (forall i :: 1 + |p| <= i < |s| ==> s[i] == q[i - 1 - |p|])
  {
  }
}
