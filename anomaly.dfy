/** The anomaly detector of backend/src/services/anomaly.service.ts: a z-score
    pass, an interquartile-range pass, and a merge that keeps one anomaly per
    date, the most severe one, and returns them in date order. */
module AnomalyService {
  import opened Wrappers
  import opened Models
  import opened Sorting
  import opened SummaryStatistics
  import opened SpreadBound

  const DefaultZScoreThreshold: real := 2.5

  /** The rank of a severity used when two anomalies share a date. */
  function SeverityScore(severity: Severity): (n: nat)
    ensures 1 <= n <= 3
  {
    match severity
    case Low => 1
    case Medium => 2
    case High => 3
  }

  function Values(data: seq<DataPoint>): (r: seq<real>)
    ensures |r| == |data|
    ensures forall i :: 0 <= i < |data| ==> r[i] == data[i].value
  {
    seq(|data|, i requires 0 <= i < |data| => data[i].value)
  }

  /** The severity band of a point whose z-score squared is `z2`:
      high above 4, medium above 3, low otherwise. */
  function ZScoreSeverity(z2: real): Severity {
    if z2 > 16.0 then High else if z2 > 9.0 then Medium else Low
  }

  /** `|dev| / sqrt(variance) > threshold`, decided without a square root. With
      variance 0 every deviation is 0 as well and the source divides 0 by 0,
      which is never above the threshold. */
  predicate ExceedsThreshold(dev: real, variance: real, threshold: real) {
    variance > 0.0 && (threshold < 0.0 || Square(dev) > threshold * threshold * variance)
  }

  /** The parameters one detection pass computes from the whole series before
      it looks at the points one by one. */
  datatype Pass =
    | ZScorePass(mean: real, variance: real, threshold: real)
    | IqrPass(q1: real, q3: real)

  /** The anomaly a pass records for one point, if any. */
  function Classify(pass: Pass, p: DataPoint): Option<Anomaly> {
    match pass
    case ZScorePass(mean, variance, threshold) =>
      var dev := p.value - mean;
      if ExceedsThreshold(dev, variance, threshold) then
        var z2 := Square(dev) / variance;
        Some(Anomaly(p.date, p.value, ZScore, ZScoreSeverity(z2), Some(z2)))
      else None
    case IqrPass(q1, q3) =>
      var iqr := q3 - q1;
      if p.value < q1 - 1.5 * iqr || p.value > q3 + 1.5 * iqr then
        var extreme := p.value < q1 - 3.0 * iqr || p.value > q3 + 3.0 * iqr;
        Some(Anomaly(p.date, p.value, Iqr, if extreme then High else Medium, None))
      else None
  }

  /** The anomalies a pass records over a series, in the order of the series. */
  function Scan(pass: Pass, data: seq<DataPoint>): seq<Anomaly> {
    if data == [] then []
    else
      var last := data[|data| - 1];
      Scan(pass, data[..|data| - 1]) + match Classify(pass, last) case Some(a) => [a] case None => []
  }

  lemma ScanStep(pass: Pass, data: seq<DataPoint>, i: nat)
    requires i < |data|
    ensures Scan(pass, data[..i + 1])
         == Scan(pass, data[..i]) + match Classify(pass, data[i]) case Some(a) => [a] case None => []
  {
    assert data[..i + 1][..i] == data[..i];
  }

  function ZScorePassOf(data: seq<DataPoint>, threshold: real): Pass
    requires |data| > 0
  {
    ZScorePass(Mean(Values(data)), Variance(Values(data)), threshold)
  }

  function IqrPassOf(data: seq<DataPoint>): Pass
    requires |data| > 0
  {
    var sorted := Sort(Values(data));
    IqrPass(sorted[Q1Index(|sorted|)], sorted[Q3Index(|sorted|)])
  }

  /** What the z-score pass returns: nothing below three points. */
  function ZScoreAnomalies(data: seq<DataPoint>, threshold: real): seq<Anomaly> {
    if |data| < 3 then [] else Scan(ZScorePassOf(data, threshold), data)
  }

  /** What the IQR pass returns: nothing below four points. */
  function IqrAnomalies(data: seq<DataPoint>): seq<Anomaly> {
    if |data| < 4 then [] else Scan(IqrPassOf(data), data)
  }

  method DetectZScoreAnomalies(data: seq<DataPoint>, threshold: real) returns (anomalies: seq<Anomaly>)
    ensures |data| < 3 ==> anomalies == []
    ensures anomalies == ZScoreAnomalies(data, threshold)
  {
    if |data| < 3 {
      return [];
    }
    var values := Values(data);
    var mean := Mean(values);
    var variance := Variance(values);
    ghost var pass := ZScorePass(mean, variance, threshold);
    anomalies := [];
    var i := 0;
    while i < |data|
      invariant 0 <= i <= |data|
      invariant anomalies == Scan(pass, data[..i])
    {
      var point := data[i];
      var dev := point.value - mean;
      ScanStep(pass, data, i);
      if ExceedsThreshold(dev, variance, threshold) {
        var zscoreSq := Square(dev) / variance;
        var severity := Low;
        if zscoreSq > 16.0 {
          severity := High;
        } else if zscoreSq > 9.0 {
          severity := Medium;
        }
        var anomaly := Anomaly(point.date, point.value, ZScore, severity, Some(zscoreSq));
        assert Classify(pass, point) == Some(anomaly);
        anomalies := anomalies + [anomaly];
      } else {
        assert Classify(pass, point) == None;
      }
      i := i + 1;
    }
    assert data[..|data|] == data;
  }

  method DetectIQRAnomalies(data: seq<DataPoint>) returns (anomalies: seq<Anomaly>)
    ensures |data| < 4 ==> anomalies == []
    ensures anomalies == IqrAnomalies(data)
  {
    if |data| < 4 {
      return [];
    }
    var values := Sort(Values(data));
    var q1 := values[Q1Index(|values|)];
    var q3 := values[Q3Index(|values|)];
    var iqr := q3 - q1;
    var lowerBound := q1 - 1.5 * iqr;
    var upperBound := q3 + 1.5 * iqr;
    ghost var pass := IqrPass(q1, q3);
    anomalies := [];
    var i := 0;
    while i < |data|
      invariant 0 <= i <= |data|
      invariant anomalies == Scan(pass, data[..i])
    {
      var point := data[i];
      ScanStep(pass, data, i);
      if point.value < lowerBound || point.value > upperBound {
        var severity := Low;
        var extremeLowerBound := q1 - 3.0 * iqr;
        var extremeUpperBound := q3 + 3.0 * iqr;
        if point.value < extremeLowerBound || point.value > extremeUpperBound {
          severity := High;
        } else {
          severity := Medium;
        }
        anomalies := anomalies + [Anomaly(point.date, point.value, Iqr, severity, None)];
      }
      i := i + 1;
    }
    assert data[..|data|] == data;
  }

  /** Records `a` unless the date already holds an anomaly of equal or higher severity. */
  function MergeInto(m: map<Date, Anomaly>, a: Anomaly): map<Date, Anomaly> {
    if a.date !in m || SeverityScore(a.severity) > SeverityScore(m[a.date].severity)
    then m[a.date := a]
    else m
  }

  /** The date-keyed map after merging the candidates in order. */
  function MergeAll(candidates: seq<Anomaly>): map<Date, Anomaly> {
    if candidates == [] then map[]
    else MergeInto(MergeAll(candidates[..|candidates| - 1]), candidates[|candidates| - 1])
  }

  /** `result` lists the values of the merged map, each once, in ascending date order. */
  predicate IsMergedReport(candidates: seq<Anomaly>, result: seq<Anomaly>) {
    var m := MergeAll(candidates);
    && StrictlySortedBy(result, AnomalyDate)
    && (forall a :: a in result ==> a.date in m && m[a.date] == a)
    && (forall d :: d in m ==> m[d] in result)
  }

  method DetectAnomalies(data: seq<DataPoint>) returns (result: seq<Anomaly>)
    ensures IsMergedReport(ZScoreAnomalies(data, DefaultZScoreThreshold) + IqrAnomalies(data), result)
  {
    var zscoreAnomalies := DetectZScoreAnomalies(data, DefaultZScoreThreshold);
    var iqrAnomalies := DetectIQRAnomalies(data);
    var candidates := zscoreAnomalies + iqrAnomalies;

    // The map keeps its keys in first-insertion order, as a JavaScript Map does.
    var anomalyMap: map<Date, Anomaly> := map[];
    var order: seq<Date> := [];
    for i := 0 to |candidates|
      invariant anomalyMap == MergeAll(candidates[..i])
      invariant forall d :: d in order <==> d in anomalyMap
      invariant forall d :: d in anomalyMap ==> anomalyMap[d].date == d
      invariant forall j, k :: 0 <= j < k < |order| ==> order[j] != order[k]
    {
      var anomaly := candidates[i];
      var key := anomaly.date;
      assert candidates[..i + 1][..i] == candidates[..i];
      if key !in anomalyMap || SeverityScore(anomaly.severity) > SeverityScore(anomalyMap[key].severity) {
        if key !in anomalyMap {
          order := order + [key];
        }
        anomalyMap := anomalyMap[key := anomaly];
      }
    }
    assert candidates[..|candidates|] == candidates;

    forall k | 0 <= k < |order|
      ensures order[k] in anomalyMap
    {
      var d := order[k];
      assert d in order;
      assert d in order <==> d in anomalyMap;
    }
    var values := seq(|order|, k requires 0 <= k < |order| => anomalyMap[order[k]]);
    result := SortBy(values, AnomalyDate);
    SortedValuesListMap(anomalyMap, order, values);
  }

  /** Sorting the values of a date-keyed map, listed once each, gives them in
      strictly ascending date order. */
  lemma SortedValuesListMap(m: map<Date, Anomaly>, order: seq<Date>, values: seq<Anomaly>)
    requires forall d :: d in order <==> d in m
    requires forall d :: d in m ==> m[d].date == d
    requires forall j, k :: 0 <= j < k < |order| ==> order[j] != order[k]
    requires |values| == |order| && forall k :: 0 <= k < |order| ==> order[k] in m && values[k] == m[order[k]]
    ensures var result := SortBy(values, AnomalyDate);
      && StrictlySortedBy(result, AnomalyDate)
      && (forall a :: a in result ==> a.date in m && m[a.date] == a)
      && (forall d :: d in m ==> m[d] in result)
  {
    var result := SortBy(values, AnomalyDate);
    assert DistinctKeys(values, AnomalyDate);
    SortByStrictlySorted(values, AnomalyDate);
    forall a | a in result ensures a.date in m && m[a.date] == a {
      assert a in multiset(result);
      assert a in values;
    }
    forall d | d in m ensures m[d] in result {
      var k :| 0 <= k < |order| && order[k] == d;
      assert values[k] == m[d];
      assert m[d] in multiset(values);
    }
  }

  // ---------------------------------------------------------------------
  // What a detection pass returns

  /** The indices of the points a pass flags, in ascending order. */
  ghost function FlaggedIndices(pass: Pass, data: seq<DataPoint>): seq<nat> {
    if data == [] then []
    else
      FlaggedIndices(pass, data[..|data| - 1])
        + if Classify(pass, data[|data| - 1]).Some? then [|data| - 1] else []
  }

  /** A pass returns exactly the anomalies of the points it flags, one for each,
      in the order of the input series. */
  lemma {:induction false} ScanIsSubsequence(pass: Pass, data: seq<DataPoint>)
    ensures var idx, out := FlaggedIndices(pass, data), Scan(pass, data);
      && |idx| == |out|
      && (forall k :: 0 <= k < |idx| ==> idx[k] < |data| && Classify(pass, data[idx[k]]) == Some(out[k]))
      && (forall k, l :: 0 <= k < l < |idx| ==> idx[k] < idx[l])
      && (forall i :: 0 <= i < |data| ==> (i in idx <==> Classify(pass, data[i]).Some?))
  {
    if data != [] {
      var n := |data| - 1;
      var front := data[..n];
      ScanIsSubsequence(pass, front);
      assert forall i :: 0 <= i < n ==> front[i] == data[i];
    }
  }

  /** Every anomaly a pass returns is the classification of one of its points. */
  lemma ScanMember(pass: Pass, data: seq<DataPoint>, a: Anomaly)
    requires a in Scan(pass, data)
    ensures exists i :: 0 <= i < |data| && Classify(pass, data[i]) == Some(a)
  {
    ScanIsSubsequence(pass, data);
    var idx := FlaggedIndices(pass, data);
    var k :| 0 <= k < |Scan(pass, data)| && Scan(pass, data)[k] == a;
    assert Classify(pass, data[idx[k]]) == Some(a);
  }

  /** The z-score pass flags exactly the points whose z-score is above the
      threshold, in input order, each with its z-score and severity band. */
  lemma ZScorePassFlagsExactly(data: seq<DataPoint>, threshold: real)
    requires |data| >= 3
    ensures var mean, variance := Mean(Values(data)), Variance(Values(data));
      var idx := FlaggedIndices(ZScorePassOf(data, threshold), data);
      var out := ZScoreAnomalies(data, threshold);
      && |idx| == |out|
      && (forall k, l :: 0 <= k < l < |idx| ==> idx[k] < idx[l])
      && (forall i :: 0 <= i < |data| ==>
            (i in idx <==> ExceedsThreshold(data[i].value - mean, variance, threshold)))
      && (forall k :: 0 <= k < |idx| ==>
            && idx[k] < |data|
            && var p := data[idx[k]];
               var z2 := Square(p.value - mean) / variance;
               out[k] == Anomaly(p.date, p.value, ZScore, ZScoreSeverity(z2), Some(z2)))
  {
    ScanIsSubsequence(ZScorePassOf(data, threshold), data);
  }

  /** The IQR pass flags exactly the points outside the 1.5 * IQR fences, in
      input order; those beyond the 3 * IQR fences are high, the others medium. */
  lemma IqrPassFlagsExactly(data: seq<DataPoint>)
    requires |data| >= 4
    ensures var pass := IqrPassOf(data);
      var q1, q3 := pass.q1, pass.q3;
      var iqr := q3 - q1;
      var idx := FlaggedIndices(pass, data);
      var out := IqrAnomalies(data);
      && |idx| == |out|
      && (forall k, l :: 0 <= k < l < |idx| ==> idx[k] < idx[l])
      && (forall i :: 0 <= i < |data| ==>
            (i in idx <==> data[i].value < q1 - 1.5 * iqr || data[i].value > q3 + 1.5 * iqr))
      && (forall k :: 0 <= k < |idx| ==>
            && idx[k] < |data|
            && var p := data[idx[k]];
               var extreme := p.value < q1 - 3.0 * iqr || p.value > q3 + 3.0 * iqr;
               out[k] == Anomaly(p.date, p.value, Iqr, if extreme then High else Medium, None))
  {
    ScanIsSubsequence(IqrPassOf(data), data);
  }

  /** Every z-score anomaly carries its z-score; for a non-negative threshold
      that z-score is above the threshold. */
  lemma ZScoreAnomaliesCarryScore(data: seq<DataPoint>, threshold: real, a: Anomaly)
    requires a in ZScoreAnomalies(data, threshold)
    ensures a.kind == ZScore && a.zscoreSq.Some?
    ensures a.severity == ZScoreSeverity(a.zscoreSq.value)
    ensures threshold >= 0.0 ==> a.zscoreSq.value > threshold * threshold
  {
    var pass := ZScorePassOf(data, threshold);
    ScanMember(pass, data, a);
    var i :| 0 <= i < |data| && Classify(pass, data[i]) == Some(a);
    ZScoreClassification(pass.mean, pass.variance, threshold, data[i], a);
  }

  /** What the z-score pass records for one flagged point. */
  lemma ZScoreClassification(mean: real, variance: real, threshold: real, p: DataPoint, a: Anomaly)
    requires Classify(ZScorePass(mean, variance, threshold), p) == Some(a)
    ensures a.kind == ZScore && a.zscoreSq == Some(Square(p.value - mean) / variance)
    ensures a.severity == ZScoreSeverity(a.zscoreSq.value)
    ensures threshold >= 0.0 ==> a.zscoreSq.value > threshold * threshold
  {
    var dev := p.value - mean;
    assert ExceedsThreshold(dev, variance, threshold);
    if threshold >= 0.0 {
      QuotientAbove(Square(dev), variance, threshold * threshold);
    }
  }

  lemma QuotientAbove(x: real, v: real, b: real)
    requires v > 0.0 && x > b * v
    ensures x / v > b
  {
  }

  // ---------------------------------------------------------------------
  // The squared test is the source's z-score test

  function Abs(x: real): (r: real)
    ensures r >= 0.0 && Square(r) == Square(x)
  {
    if x < 0.0 then -x else x
  }

  /** For non-negative numbers, comparing squares compares the numbers. */
  lemma SquareMonotoneIff(a: real, b: real)
    requires a >= 0.0 && b >= 0.0
    ensures a > b <==> a * a > b * b
  {
    if a > b {
      assert a * a - b * b == (a - b) * (a + b);
      PositiveProduct(a - b, a + b);
    } else {
      assert b * b - a * a == (b - a) * (a + b);
      assert (b - a) * (a + b) >= 0.0;
    }
  }

  lemma PositiveProduct(x: real, y: real)
    requires x > 0.0 && y > 0.0
    ensures x * y > 0.0
  {
  }

  lemma QuotientAboveIff(x: real, sd: real, t: real)
    requires sd > 0.0
    ensures x / sd > t <==> x > t * sd
  {
    assert x == (x / sd) * sd;
    if x / sd > t {
      assert (x / sd) * sd > t * sd;
    } else {
      assert (x / sd) * sd <= t * sd;
    }
  }

  /** With standard deviation `sd` (so `variance == sd * sd`), the squared test
      is the source's `Math.abs(dev / sd) > t`, and the recorded score is the
      square of that z-score. */
  lemma ExceedsThresholdIsZScore(dev: real, variance: real, sd: real, t: real)
    requires variance > 0.0 && sd > 0.0 && sd * sd == variance
    ensures var z := Abs(dev) / sd;
      && (ExceedsThreshold(dev, variance, t) <==> z > t)
      && Square(dev) / variance == z * z
  {
    var z := Abs(dev) / sd;
    ScoreIsSquaredZ(dev, variance, sd);
    if t >= 0.0 {
      QuotientAboveIff(Abs(dev), sd, t);
      SquareMonotoneIff(Abs(dev), t * sd);
      assert (t * sd) * (t * sd) == t * t * variance;
    } else {
      assert z >= 0.0;
    }
  }

  lemma ScoreIsSquaredZ(dev: real, variance: real, sd: real)
    requires variance > 0.0 && sd > 0.0 && sd * sd == variance
    ensures Square(dev) / variance == (Abs(dev) / sd) * (Abs(dev) / sd)
  {
    var z := Abs(dev) / sd;
    assert Abs(dev) == z * sd;
    assert Square(dev) == (z * z) * variance;
    QuotientOfProduct(z * z, variance);
  }

  lemma QuotientOfProduct(q: real, d: real)
    requires d > 0.0
    ensures (q * d) / d == q
  {
  }

  /** The bands on the squared score are the source's bands on the z-score:
      high above 4, medium above 3, low otherwise. */
  lemma ZScoreBands(z: real)
    requires z >= 0.0
    ensures ZScoreSeverity(z * z) == if z > 4.0 then High else if z > 3.0 then Medium else Low
  {
    SquareMonotoneIff(z, 4.0);
    SquareMonotoneIff(z, 3.0);
  }

  /** The IQR pass never produces a low-severity anomaly and never attaches a z-score. */
  lemma IqrAnomaliesNeverLow(data: seq<DataPoint>, a: Anomaly)
    requires a in IqrAnomalies(data)
    ensures a.kind == Iqr && a.severity != Low && a.zscoreSq == None
  {
    ScanMember(IqrPassOf(data), data, a);
  }

  /** Both quartile indices are in range and q1 <= q3, so the IQR is not negative. */
  lemma IqrQuartilesOrdered(data: seq<DataPoint>)
    requires |data| >= 4
    ensures var sorted := Sort(Values(data));
      Q1Index(|data|) <= Q3Index(|data|) < |sorted| == |data|
    ensures IqrPassOf(data).q1 <= IqrPassOf(data).q3
  {
  }

  // ---------------------------------------------------------------------
  // Series the passes cannot flag

  lemma {:induction false} NothingFlaggedMeansEmptyScan(pass: Pass, data: seq<DataPoint>)
    requires forall i :: 0 <= i < |data| ==> Classify(pass, data[i]) == None
    ensures Scan(pass, data) == []
  {
    if data != [] {
      NothingFlaggedMeansEmptyScan(pass, data[..|data| - 1]);
      assert Classify(pass, data[|data| - 1]) == None;
    }
  }

  /** A series whose values are all equal has variance 0, so the z-score pass
      flags nothing (each z-score is 0 / 0). */
  lemma ConstantSeriesHasNoZScoreAnomalies(data: seq<DataPoint>, x: real, threshold: real)
    requires forall i :: 0 <= i < |data| ==> data[i].value == x
    ensures ZScoreAnomalies(data, threshold) == []
  {
    if |data| >= 3 {
      var values := Values(data);
      assert forall v :: v in values ==> v == x;
      MeanWithinExtremes(values, x, x);
      ConstantSquaredDeviations(values, x);
      assert Variance(values) == 0.0;
      NothingFlaggedMeansEmptyScan(ZScorePassOf(data, threshold), data);
    }
  }

  /** With the default threshold 2.5 the z-score pass flags nothing in a series
      of at most seven points: by Samuelson's inequality no population z-score
      there exceeds sqrt(6). */
  lemma ZScoreNeverFlagsShortSeries(data: seq<DataPoint>)
    requires |data| <= 7
    ensures ZScoreAnomalies(data, DefaultZScoreThreshold) == []
  {
    if |data| >= 3 {
      var pass := ZScorePassOf(data, DefaultZScoreThreshold);
      forall i | 0 <= i < |data| ensures Classify(pass, data[i]) == None {
        ShortSeriesPointNotFlagged(data, i);
      }
      NothingFlaggedMeansEmptyScan(pass, data);
    }
  }

  lemma ShortSeriesPointNotFlagged(data: seq<DataPoint>, i: nat)
    requires 0 < |data| <= 7 && i < |data|
    ensures !ExceedsThreshold(data[i].value - Mean(Values(data)), Variance(Values(data)), DefaultZScoreThreshold)
  {
    var values := Values(data);
    var m := Mean(values);
    assert Deviations(values, m) == 0.0 by {
      DeviationsAboutMean(values);
    }
    SamuelsonAbout(values, i, m);
    CountIsLength(values);
    ShortSeriesArithmetic(Count(values), Square(values[i] - m), SquaredDeviations(values, m), Variance(values));
  }

  /** n sq <= (n - 1) total with n <= 7 leaves sq at most 6 variances, below 2.5^2. */
  lemma ShortSeriesArithmetic(n: real, sq: real, total: real, variance: real)
    requires 1.0 <= n <= 7.0 && variance == total / n && total >= 0.0
    requires n * sq <= (n - 1.0) * total
    ensures !(sq > 6.25 * variance && variance > 0.0)
  {
    assert total == n * variance;
    assert n * sq <= n * ((n - 1.0) * variance);
    assert sq <= (n - 1.0) * variance;
    assert (n - 1.0) * variance <= 6.0 * variance;
  }

  /** A series whose values are all equal has q1 = q3 = that value and IQR 0,
      so no point lies outside the fences. */
  lemma ConstantSeriesHasNoIqrAnomalies(data: seq<DataPoint>, x: real)
    requires forall i :: 0 <= i < |data| ==> data[i].value == x
    ensures IqrAnomalies(data) == []
  {
    if |data| >= 4 {
      var values := Values(data);
      var sorted := Sort(values);
      forall k | 0 <= k < |sorted| ensures sorted[k] == x {
        assert sorted[k] in multiset(values);
      }
      NothingFlaggedMeansEmptyScan(IqrPassOf(data), data);
    }
  }

  // ---------------------------------------------------------------------
  // Severity grows with the distance of a point

  /** The severity score of a classification, 0 when the point is not flagged. */
  function Rank(r: Option<Anomaly>): nat {
    match r
    case None => 0
    case Some(a) => SeverityScore(a.severity)
  }

  /** Moving a point farther from the mean never lowers its z-score severity. */
  lemma ZScoreSeverityMonotone(mean: real, variance: real, threshold: real, p: DataPoint, q: DataPoint)
    requires Square(p.value - mean) <= Square(q.value - mean)
    ensures Rank(Classify(ZScorePass(mean, variance, threshold), p))
         <= Rank(Classify(ZScorePass(mean, variance, threshold), q))
  {
    if variance > 0.0 {
      QuotientMonotone(Square(p.value - mean), Square(q.value - mean), variance);
    }
  }

  lemma QuotientMonotone(x: real, y: real, v: real)
    requires v > 0.0 && x <= y
    ensures x / v <= y / v
  {
  }

  /** Moving a point farther out beyond a quartile never lowers its IQR severity. */
  lemma IqrSeverityMonotone(q1: real, q3: real, p: DataPoint, q: DataPoint)
    requires q1 <= q3
    requires q.value <= p.value <= q1 || q3 <= p.value <= q.value
    ensures Rank(Classify(IqrPass(q1, q3), p)) <= Rank(Classify(IqrPass(q1, q3), q))
  {
  }

  // ---------------------------------------------------------------------
  // The merge

  /** The merged map has exactly the dates of the candidates, and each entry is
      a candidate recorded under its own date. */
  lemma {:induction false} MergeKeys(c: seq<Anomaly>)
    ensures forall d :: d in MergeAll(c) <==> exists j :: 0 <= j < |c| && c[j].date == d
    ensures forall d :: d in MergeAll(c) ==> MergeAll(c)[d].date == d && MergeAll(c)[d] in c
  {
    if c != [] {
      var n := |c| - 1;
      var front := c[..n];
      MergeKeys(front);
      assert forall j :: 0 <= j < n ==> front[j] == c[j];
      var m0, m := MergeAll(front), MergeAll(c);
      assert m == MergeInto(m0, c[n]);
      forall d ensures d in m <==> exists j :: 0 <= j < |c| && c[j].date == d {
        if d in m0 {
          var j :| 0 <= j < n && front[j].date == d;
          assert c[j].date == d;
        }
        if j :| 0 <= j < |c| && c[j].date == d {
          if j < n {
            assert front[j].date == d;
          }
        }
      }
      forall d | d in m ensures m[d].date == d && m[d] in c {
        if m[d] != c[n] {
          assert m[d] == m0[d] && m0[d] in front;
        }
      }
    }
  }

  /** The entry kept for a date is at least as severe as every candidate for it. */
  lemma {:induction false} MergeKeepsMaximum(c: seq<Anomaly>)
    ensures var m := MergeAll(c);
      forall j :: 0 <= j < |c| ==>
        c[j].date in m && SeverityScore(c[j].severity) <= SeverityScore(m[c[j].date].severity)
  {
    if c != [] {
      var n := |c| - 1;
      MergeKeepsMaximum(c[..n]);
      assert forall j :: 0 <= j < n ==> c[..n][j] == c[j];
    }
  }

  /** No candidate before position `i` with the same date is as severe as candidate `i`. */
  ghost predicate FirstOfMaximum(c: seq<Anomaly>, i: nat)
    requires i < |c|
  {
    forall j :: 0 <= j < i && c[j].date == c[i].date ==>
      SeverityScore(c[j].severity) < SeverityScore(c[i].severity)
  }

  /** The entry kept for a date is the first candidate of maximum severity: every
      earlier candidate for that date is strictly less severe. */
  lemma {:induction false} MergeFirstMaximumWins(c: seq<Anomaly>, d: Date)
    requires d in MergeAll(c)
    ensures exists i :: 0 <= i < |c| && c[i] == MergeAll(c)[d] && FirstOfMaximum(c, i)
  {
    var n := |c| - 1;
    var front := c[..n];
    assert forall j :: 0 <= j < n ==> front[j] == c[j];
    var m0, m := MergeAll(front), MergeAll(c);
    var a := c[n];
    MergeKeys(c);
    if d == a.date && (d !in m0 || SeverityScore(a.severity) > SeverityScore(m0[d].severity)) {
      assert m[d] == c[n];
      MergeKeys(front);
      MergeKeepsMaximum(front);
      forall j | 0 <= j < n && c[j].date == d
        ensures SeverityScore(c[j].severity) < SeverityScore(c[n].severity)
      {
        assert front[j].date == d;
      }
      assert FirstOfMaximum(c, n);
    } else {
      assert d in m0 && m[d] == m0[d];
      MergeFirstMaximumWins(front, d);
      var i :| 0 <= i < n && front[i] == m0[d] && FirstOfMaximum(front, i);
      assert c[i] == m[d];
      assert FirstOfMaximum(c, i);
    }
  }

  /** What the merged, sorted result of the detector promises: one anomaly per
      flagged date and no other, each a candidate of maximum severity for its
      date, the first such candidate in z-score-then-IQR order. */
  lemma MergedReportProperties(candidates: seq<Anomaly>, result: seq<Anomaly>)
    requires IsMergedReport(candidates, result)
    ensures forall c :: c in candidates ==> exists a :: a in result && a.date == c.date
    ensures forall i, j :: 0 <= i < j < |result| ==> result[i].date < result[j].date
    ensures forall a :: a in result ==> a in candidates
    ensures forall a, c :: a in result && c in candidates && c.date == a.date ==>
      SeverityScore(c.severity) <= SeverityScore(a.severity)
    ensures forall a :: a in result ==>
      exists i :: 0 <= i < |candidates| && candidates[i] == a && FirstOfMaximum(candidates, i)
  {
    var m := MergeAll(candidates);
    MergeKeys(candidates);
    MergeKeepsMaximum(candidates);
    forall c | c in candidates ensures exists a :: a in result && a.date == c.date {
      var j :| 0 <= j < |candidates| && candidates[j] == c;
      assert m[c.date] in result;
    }
    forall a, c | a in result && c in candidates && c.date == a.date
      ensures SeverityScore(c.severity) <= SeverityScore(a.severity)
    {
      var j :| 0 <= j < |candidates| && candidates[j] == c;
    }
    forall a | a in result
      ensures exists i :: 0 <= i < |candidates| && candidates[i] == a && FirstOfMaximum(candidates, i)
    {
      MergeFirstMaximumWins(candidates, a.date);
    }
  }

  /** On equal severity the z-score anomaly wins: if some z-score candidate for a
      date reaches the highest severity of that date, the kept entry is a
      z-score candidate. */
  lemma TiesGoToZScore(zs: seq<Anomaly>, iqrs: seq<Anomaly>, k: nat)
    requires k < |zs|
    requires forall c :: c in zs + iqrs && c.date == zs[k].date ==>
      SeverityScore(c.severity) <= SeverityScore(zs[k].severity)
    ensures zs[k].date in MergeAll(zs + iqrs) && MergeAll(zs + iqrs)[zs[k].date] in zs
  {
    var c := zs + iqrs;
    var d := zs[k].date;
    MergeKeys(c);
    assert c[k] == zs[k];
    var m := MergeAll(c);
    MergeFirstMaximumWins(c, d);
    var i :| 0 <= i < |c| && c[i] == m[d] && FirstOfMaximum(c, i);
    assert c[i] in c && c[i].date == d;
    if i >= |zs| {
      assert false;
    }
    assert c[i] == zs[i];
  }
}
