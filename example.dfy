/** The worked example of the anomaly detector: five daily readings
    10, 12, 11, 13, 1000 on days 1 to 5. */
module AnomalyExample {
  import opened Wrappers
  import opened Models
  import opened Sorting
  import opened SummaryStatistics
  import opened AnomalyService

  predicate IsReadings(data: seq<DataPoint>) {
    && |data| == 5
    && data[0] == DataPoint(1, 10.0) && data[1] == DataPoint(2, 12.0)
    && data[2] == DataPoint(3, 11.0) && data[3] == DataPoint(4, 13.0)
    && data[4] == DataPoint(5, 1000.0)
  }

  /** Swapping the second and third of five elements keeps the multiset. */
  lemma SwapSecondAndThird(v: seq<real>, s: seq<real>)
    requires |v| == 5 && |s| == 5
    requires v[0] == s[0] && v[1] == s[2] && v[2] == s[1] && v[3] == s[3] && v[4] == s[4]
    ensures multiset(v) == multiset(s)
  {
    assert v == s[..1] + [s[2], s[1]] + s[3..];
    assert s == s[..1] + [s[1], s[2]] + s[3..];
    assert multiset([s[2], s[1]]) == multiset([s[1], s[2]]);
  }

  lemma ReadingsSorted(data: seq<DataPoint>)
    requires IsReadings(data)
    ensures Sort(Values(data)) == [10.0, 11.0, 12.0, 13.0, 1000.0]
  {
    var v := Values(data);
    var s := [10.0, 11.0, 12.0, 13.0, 1000.0];
    SwapSecondAndThird(v, s);
    SortIsSortedArrangement(v, s);
  }

  /** The quartiles of the readings are 11 and 13. */
  lemma ReadingsQuartiles(data: seq<DataPoint>)
    requires IsReadings(data)
    ensures IqrPassOf(data) == IqrPass(11.0, 13.0)
  {
    ReadingsSorted(data);
    FiveQuartiles(data, [10.0, 11.0, 12.0, 13.0, 1000.0]);
  }

  /** With five values the quartiles are the second and the fourth smallest. */
  lemma FiveQuartiles(data: seq<DataPoint>, sorted: seq<real>)
    requires |data| == 5 && Sort(Values(data)) == sorted
    ensures IqrPassOf(data) == IqrPass(sorted[1], sorted[3])
  {
    assert Q1Index(5) == 1 && Q3Index(5) == 3;
  }

  /** With fences at 8 and 16 and extreme fences at 5 and 19, only the last
      reading is outside, and it is extreme. */
  lemma ReadingsIqrScan(pass: Pass, data: seq<DataPoint>)
    requires pass == IqrPass(11.0, 13.0) && IsReadings(data)
    ensures Scan(pass, data) == [Anomaly(5, 1000.0, Iqr, High, None)]
  {
    var prefix := data[..4];
    forall i | 0 <= i < 4 ensures Classify(pass, prefix[i]) == None {
      assert 8.0 <= prefix[i].value <= 16.0 by {
        if i == 0 {} else if i == 1 {} else if i == 2 {} else {}
      }
    }
    NothingFlaggedMeansEmptyScan(pass, prefix);
    assert Classify(pass, data[4]) == Some(Anomaly(5, 1000.0, Iqr, High, None));
  }

  lemma ReadingsIqrAnomalies(data: seq<DataPoint>)
    requires IsReadings(data)
    ensures IqrAnomalies(data) == [Anomaly(5, 1000.0, Iqr, High, None)]
  {
    ReadingsQuartiles(data);
    ReadingsIqrScan(IqrPassOf(data), data);
  }

  /** The report for the readings is the single extreme IQR anomaly on day 5:
      five points are too few for any z-score above 2.5, so the z-score pass
      contributes nothing. */
  lemma ReadingsReport(data: seq<DataPoint>, result: seq<Anomaly>)
    requires IsReadings(data)
    requires IsMergedReport(ZScoreAnomalies(data, DefaultZScoreThreshold) + IqrAnomalies(data), result)
    ensures result == [Anomaly(5, 1000.0, Iqr, High, None)]
  {
    var a := Anomaly(5, 1000.0, Iqr, High, None);
    ZScoreNeverFlagsShortSeries(data);
    ReadingsIqrAnomalies(data);
    assert [] + [a] == [a];
    SingleCandidateReport(a, result);
  }

  /** A report over one candidate lists exactly that candidate. */
  lemma SingleCandidateReport(a: Anomaly, result: seq<Anomaly>)
    requires IsMergedReport([a], result)
    ensures result == [a]
  {
    assert [a][..0] == [];
    assert MergeAll([a]) == map[a.date := a];
    assert a in result;
    assert forall k :: 0 <= k < |result| ==> result[k] == a;
    assert |result| >= 2 ==> result[0].date < result[1].date;
    assert |result| == 1;
    assert result[0] == a;
  }
}
