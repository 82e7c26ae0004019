/** `runAnalytics` and `getDatasetMetrics` of
    backend/src/services/analytics.service.ts: the extraction of a numeric
    series from a dataset's records, the date sort of that series, and the
    filter that lists a dataset's metric columns. */
module AnalyticsRun {
  import opened Wrappers
  import opened Models
  import opened Sorting
  import opened SummaryStatistics
  import opened AnomalyService
  import opened Text

  /** A stored record: its fields, and the date its time-series point gets
      (from the record timestamp, the time column or the creation time). */
  datatype MetricRecord = MetricRecord(data: map<string, FieldValue>, date: Date)

  /** The stored analytics of one metric of a dataset. */
  datatype Analytics = Analytics(metric: string, summary: Summary,
                                 anomalies: seq<Anomaly>, timeSeriesData: seq<DataPoint>)

  const DatasetNotFound := "Dataset not found or access denied"
  const DatasetNotReady := "Dataset is not ready for analytics"
  const NoRecords := "No records found for dataset"

  function NoNumericValues(metric: string): string {
    "No valid numeric values found for metric: " + metric
  }

  /** The record holds a number that is not NaN under `metric`. */
  predicate HasNumber(r: MetricRecord, metric: string) {
    metric in r.data && r.data[metric].Number?
  }

  /** The points the extraction loop pushes, in record order. */
  function Extracted(records: seq<MetricRecord>, metric: string): seq<DataPoint> {
    if records == [] then []
    else
      var r := records[|records| - 1];
      Extracted(records[..|records| - 1], metric)
        + if HasNumber(r, metric) then [DataPoint(r.date, r.data[metric].x)] else []
  }

  lemma ExtractedStep(records: seq<MetricRecord>, metric: string, i: nat)
    requires i < |records|
    ensures Extracted(records[..i + 1], metric)
         == Extracted(records[..i], metric)
            + if HasNumber(records[i], metric) then [DataPoint(records[i].date, records[i].data[metric].x)] else []
  {
    assert records[..i + 1][..i] == records[..i];
  }

  /** The loop over the records: `metricValues` and `timeSeriesData` grow
      together, one entry per record with a number under `metric`. */
  method ExtractSeries(records: seq<MetricRecord>, metric: string)
    returns (metricValues: seq<real>, timeSeriesData: seq<DataPoint>)
    ensures timeSeriesData == Extracted(records, metric)
    ensures metricValues == Values(timeSeriesData)
  {
    metricValues := [];
    timeSeriesData := [];
    for i := 0 to |records|
      invariant timeSeriesData == Extracted(records[..i], metric)
      invariant metricValues == Values(timeSeriesData)
    {
      var record := records[i];
      ExtractedStep(records, metric, i);
      if metric in record.data && record.data[metric].Number? {
        var value := record.data[metric].x;
        metricValues := metricValues + [value];
        timeSeriesData := timeSeriesData + [DataPoint(record.date, value)];
      }
    }
    assert records[..|records|] == records;
  }

  /** The indices of the records that hold a number under `metric`, ascending. */
  ghost function NumericIndices(records: seq<MetricRecord>, metric: string): seq<nat> {
    if records == [] then []
    else
      NumericIndices(records[..|records| - 1], metric)
        + if HasNumber(records[|records| - 1], metric) then [|records| - 1] else []
  }

  /** The extracted series pairs each numeric record with its value, in
      record order: point k comes from record idx[k], and exactly the records
      with a number appear. */
  lemma {:induction false} ExtractedCharacterised(records: seq<MetricRecord>, metric: string)
    ensures var idx, points := NumericIndices(records, metric), Extracted(records, metric);
      && |idx| == |points|
      && (forall k :: 0 <= k < |idx|
            ==> && idx[k] < |records|
                && HasNumber(records[idx[k]], metric)
                && points[k] == DataPoint(records[idx[k]].date, records[idx[k]].data[metric].x))
      && (forall k, l :: 0 <= k < l < |idx| ==> idx[k] < idx[l])
      && (forall i :: 0 <= i < |records| ==> (i in idx <==> HasNumber(records[i], metric)))
  {
    if records != [] {
      var n := |records| - 1;
      var front := records[..n];
      ExtractedCharacterised(front, metric);
      assert forall i :: 0 <= i < n ==> front[i] == records[i];
    }
  }

  /** The loop finds nothing exactly when no record holds a number under the
      metric, the case `runAnalytics` reports as an error. */
  lemma {:induction false} ExtractedEmptyIff(records: seq<MetricRecord>, metric: string)
    ensures Extracted(records, metric) == [] <==> forall r :: r in records ==> !HasNumber(r, metric)
  {
    if records != [] {
      var n := |records| - 1;
      ExtractedEmptyIff(records[..n], metric);
      assert records == records[..n] + [records[n]];
      assert forall r :: r in records <==> r in records[..n] || r == records[n];
    }
  }

  /** Sorts the series by date in place, as the date-comparator `sort` does. */
  method SortByDate(a: array<DataPoint>)
    modifies a
    ensures SortedBy(a[..], PointDate)
    ensures multiset(a[..]) == multiset(old(a[..]))
  {
    for i := 0 to a.Length
      invariant SortedBy(a[..i], PointDate)
      invariant multiset(a[..]) == multiset(old(a[..]))
    {
      InsertLast(a, i);
    }
    assert a[..a.Length] == a[..];
  }

  /** The state of the insertion of s[j] into s[..i + 1]: apart from
      position j the dates ascend, and every date after j is later than s[j]'s. */
  predicate Sifting(s: seq<DataPoint>, i: int, j: int) {
    && 0 <= j <= i < |s|
    && (forall k, l :: 0 <= k < l <= i && k != j && l != j ==> s[k].date <= s[l].date)
    && (forall l :: j < l <= i ==> s[j].date < s[l].date)
  }

  lemma SiftingStarts(s: seq<DataPoint>, i: nat)
    requires i < |s| && SortedBy(s[..i], PointDate)
    ensures Sifting(s, i, i)
  {
    assert forall k :: 0 <= k < i ==> s[..i][k] == s[k];
  }

  /** Swapping s[j] with an earlier neighbour of later date moves the gap left. */
  lemma SiftingStep(s: seq<DataPoint>, i: nat, j: nat)
    requires Sifting(s, i, j) && j > 0 && s[j - 1].date > s[j].date
    ensures Sifting(s[j - 1 := s[j]][j := s[j - 1]], i, j - 1)
    ensures multiset(s[j - 1 := s[j]][j := s[j - 1]]) == multiset(s)
  {
  }

  /** Once s[j] is not earlier than its left neighbour, s[..i + 1] ascends. */
  lemma SiftingEnds(s: seq<DataPoint>, i: nat, j: nat)
    requires Sifting(s, i, j) && (j == 0 || s[j - 1].date <= s[j].date)
    ensures SortedBy(s[..i + 1], PointDate)
  {
    forall k, l | 0 <= k < l < i + 1 ensures s[k].date <= s[l].date {
      if l == j && k < j - 1 {
        assert s[k].date <= s[j - 1].date;
      }
    }
    assert forall k :: 0 <= k < i + 1 ==> s[..i + 1][k] == s[k];
  }

  /** Moves a[i] left past every later date, so that a[..i + 1] ascends. */
  method InsertLast(a: array<DataPoint>, i: nat)
    requires i < a.Length && SortedBy(a[..i], PointDate)
    modifies a
    ensures SortedBy(a[..i + 1], PointDate)
    ensures multiset(a[..]) == multiset(old(a[..]))
  {
    SiftingStarts(a[..], i);
    var j := i;
    while j > 0 && a[j - 1].date > a[j].date
      invariant Sifting(a[..], i, j)
      invariant multiset(a[..]) == multiset(old(a[..]))
    {
      ghost var s := a[..];
      SiftingStep(s, i, j);
      a[j - 1], a[j] := a[j], a[j - 1];
      assert a[..] == s[j - 1 := s[j]][j := s[j - 1]];
      j := j - 1;
    }
    SiftingEnds(a[..], i, j);
  }

  /** `runAnalytics` after the cache lookup: `dataset` is what the ownership
      query found, `records` the dataset's stored records. */
  method RunAnalytics(dataset: Option<Dataset>, records: seq<MetricRecord>, metric: string)
    returns (r: Result<Analytics, string>)
    ensures dataset.None? ==> r == Failure(DatasetNotFound)
    ensures dataset.Some? && dataset.value.status != Processed ==> r == Failure(DatasetNotReady)
    ensures dataset.Some? && dataset.value.status == Processed && records == [] ==> r == Failure(NoRecords)
    ensures dataset.Some? && dataset.value.status == Processed && records != []
            && (forall rec :: rec in records ==> !HasNumber(rec, metric))
            ==> r == Failure(NoNumericValues(metric))
    ensures r.Failure? <==> dataset.None? || dataset.value.status != Processed
                            || forall rec :: rec in records ==> !HasNumber(rec, metric)
    ensures r.Success? ==>
      var points := Extracted(records, metric);
      && |points| > 0
      && r.value.metric == metric
      && r.value.summary == CalculateSummaryStats(Values(points))
      && IsMergedReport(ZScoreAnomalies(points, DefaultZScoreThreshold) + IqrAnomalies(points), r.value.anomalies)
      && SortedBy(r.value.timeSeriesData, PointDate)
      && multiset(r.value.timeSeriesData) == multiset(points)
  {
    if dataset.None? {
      return Failure(DatasetNotFound);
    }
    if dataset.value.status != Processed {
      return Failure(DatasetNotReady);
    }
    if |records| == 0 {
      return Failure(NoRecords);
    }
    var metricValues, timeSeriesData := ExtractSeries(records, metric);
    ExtractedEmptyIff(records, metric);
    if |metricValues| == 0 {
      return Failure(NoNumericValues(metric));
    }
    var summary := CalculateSummaryStats(metricValues);
    var anomalies := DetectAnomalies(timeSeriesData);
    var series := new DataPoint[|timeSeriesData|](k requires 0 <= k < |timeSeriesData| => timeSeriesData[k]);
    assert series[..] == timeSeriesData;
    SortByDate(series);
    r := Success(Analytics(metric, summary, anomalies, series[..]));
  }

  // ---------------------------------------------------------------------
  // The metric columns of a dataset

  const ExcludedColumns: seq<string> := ["id", "date", "time", "timestamp", "created_at", "updated_at"]

  /** A column that names an identifier or a time stamp rather than a metric,
      whatever its letter case. */
  predicate IsExcluded(column: string) {
    ToLower(column) in ExcludedColumns
  }

  /** The dataset's columns that are metrics, in their original order. */
  function MetricColumns(columns: seq<string>): seq<string> {
    if columns == [] then []
    else (if IsExcluded(columns[0]) then [] else [columns[0]]) + MetricColumns(columns[1..])
  }

  /** The filter keeps exactly the columns that are not excluded, each as
      often as it occurs. */
  lemma {:induction false} MetricColumnsKeeps(columns: seq<string>)
    ensures var r := MetricColumns(columns);
      && (forall c :: c in r <==> c in columns && !IsExcluded(c))
      && (forall c :: multiset(r)[c] == if IsExcluded(c) then 0 else multiset(columns)[c])
  {
    if columns != [] {
      MetricColumnsKeeps(columns[1..]);
      assert columns == [columns[0]] + columns[1..];
    }
  }

  /** Filtering commutes with concatenation, so the kept columns keep their
      relative order. */
  lemma {:induction false} MetricColumnsConcat(a: seq<string>, b: seq<string>)
    ensures MetricColumns(a + b) == MetricColumns(a) + MetricColumns(b)
  {
    if a == [] {
      assert a + b == b;
    } else {
      assert (a + b)[1..] == a[1..] + b;
      MetricColumnsConcat(a[1..], b);
    }
  }

  /** Letter case does not matter: "Date" and "ID" are excluded. */
  lemma ExcludedIgnoresCase()
    ensures IsExcluded("Date") && IsExcluded("ID")
  {
    assert ToLower("Date") == "date";
    assert ToLower("ID") == "id";
  }

  /** `getDatasetMetrics`: the metric columns of an owned dataset. */
  function GetDatasetMetrics(dataset: Option<Dataset>): (r: Result<seq<string>, string>)
    ensures dataset.None? <==> r == Failure(DatasetNotFound)
    ensures r.Success? ==> forall c :: c in r.value <==> c in dataset.value.columns && !IsExcluded(c)
  {
    match dataset
    case None => Failure(DatasetNotFound)
    case Some(d) =>
      MetricColumnsKeeps(d.columns);
      Success(MetricColumns(d.columns))
  }
}
