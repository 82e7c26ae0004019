/** Descriptive statistics of a numeric series: `calculateSummaryStats` of
    backend/src/services/analytics.service.ts, and the population mean and
    variance that the z-score pass of the anomaly detector computes the same way. */
module SummaryStatistics {
  import opened Models
  import opened Sorting

  function Sum(s: seq<real>): real {
    if s == [] then 0.0 else s[0] + Sum(s[1..])
  }

  /** The length of a series, counted in reals. */
  function Count(s: seq<real>): real {
    if s == [] then 0.0 else 1.0 + Count(s[1..])
  }

  lemma {:induction false} CountIsLength(s: seq<real>)
    ensures Count(s) == |s| as real
  {
    if s != [] {
      CountIsLength(s[1..]);
      assert |s| == |s[1..]| + 1;
    }
  }

  /** The arithmetic mean: the sum divided by the count. */
  function Mean(s: seq<real>): real
    requires |s| > 0
  {
    Sum(s) / (|s| as real)
  }

  function Square(x: real): (r: real)
    ensures r >= 0.0
  {
    x * x
  }

  /** The sum of the squared deviations of the elements of `s` from `m`. */
  function SquaredDeviations(s: seq<real>, m: real): (r: real)
    ensures r >= 0.0
  {
    if s == [] then 0.0 else Square(s[0] - m) + SquaredDeviations(s[1..], m)
  }

  /** Population variance: the squared deviations divided by the count. */
  function Variance(s: seq<real>): real
    requires |s| > 0
  {
    SquaredDeviations(s, Mean(s)) / (|s| as real)
  }

  /** The median of an ascending sequence: the middle element, or the mean of
      the two middle elements when the count is even. */
  function Median(sorted: seq<real>): real
    requires |sorted| > 0
  {
    var c := |sorted|;
    if c % 2 == 0 then (sorted[c / 2 - 1] + sorted[c / 2]) / 2.0 else sorted[c / 2]
  }

  /** Nearest-rank quartile indices `floor(c * 0.25)` and `floor(c * 0.75)`. */
  function Q1Index(c: nat): nat { c / 4 }

  function Q3Index(c: nat): nat { (3 * c) / 4 }

  /** The summary of a non-empty series, before the two-decimal rounding of
      mean, median and standard deviation. */
  function CalculateSummaryStats(values: seq<real>): (r: Summary)
    requires |values| > 0
    ensures r.count == |values|
    ensures r.min in values && r.max in values
    ensures forall v :: v in values ==> r.min <= v <= r.max
    ensures r.min <= r.q1 <= r.median <= r.q3 <= r.max
    ensures r.min <= r.mean <= r.max
    ensures r.mean == Mean(values)
    ensures r.variance == Variance(values) >= 0.0
    ensures var sorted := Sort(values);
      && r.median == Median(sorted)
      && r.q1 == sorted[Q1Index(|values|)]
      && r.q3 == sorted[Q3Index(|values|)]
  {
    var sorted := Sort(values);
    var count := |values|;
    var mean := Mean(values);
    var summary := Summary(
      mean, Median(sorted), Variance(values),
      sorted[0], sorted[count - 1], count,
      sorted[Q1Index(count)], sorted[Q3Index(count)]);
    SortedSummaryBounds(sorted);
    ExtremesOfSorted(values, sorted);
    MeanWithinExtremes(values, sorted[0], sorted[count - 1]);
    summary
  }

  /** In an ascending sequence the quartiles and the median lie between the
      first and the last element, in the order q1, median, q3. */
  lemma SortedSummaryBounds(sorted: seq<real>)
    requires |sorted| > 0 && Sorted(sorted)
    ensures var c := |sorted|;
      Q1Index(c) < c && Q3Index(c) < c &&
      sorted[0] <= sorted[Q1Index(c)] <= Median(sorted) <= sorted[Q3Index(c)] <= sorted[c - 1]
  {
    var c := |sorted|;
    if c % 2 == 0 {
      assert Q1Index(c) <= c / 2 - 1 && c / 2 <= Q3Index(c);
      assert sorted[c / 2 - 1] <= sorted[c / 2];
    } else {
      assert Q1Index(c) <= c / 2 <= Q3Index(c);
    }
  }

  /** The first and last elements of the sorted copy are the least and greatest values. */
  lemma ExtremesOfSorted(values: seq<real>, sorted: seq<real>)
    requires |values| > 0 && Sorted(sorted) && multiset(sorted) == multiset(values)
    ensures |sorted| == |values|
    ensures sorted[0] in values && sorted[|sorted| - 1] in values
    ensures forall v :: v in values ==> sorted[0] <= v <= sorted[|sorted| - 1]
  {
    assert |sorted| == |multiset(values)| == |values|;
    assert sorted[0] in multiset(sorted);
    assert sorted[|sorted| - 1] in multiset(sorted);
    forall v | v in values ensures sorted[0] <= v <= sorted[|sorted| - 1] {
      assert v in multiset(sorted);
    }
  }

  /** A sum of values in [lo, hi] lies between count * lo and count * hi. */
  lemma {:induction false} SumBounds(s: seq<real>, lo: real, hi: real)
    requires forall v :: v in s ==> lo <= v <= hi
    ensures Count(s) * lo <= Sum(s) <= Count(s) * hi
  {
    if s != [] {
      assert forall v :: v in s[1..] ==> v in s;
      SumBounds(s[1..], lo, hi);
      assert s[0] in s;
    }
  }

  lemma MeanWithinExtremes(s: seq<real>, lo: real, hi: real)
    requires |s| > 0
    requires forall v :: v in s ==> lo <= v <= hi
    ensures lo <= Mean(s) <= hi
  {
    SumBounds(s, lo, hi);
    CountIsLength(s);
    QuotientBounds(Sum(s), |s| as real, lo, hi);
  }

  lemma QuotientBounds(x: real, c: real, lo: real, hi: real)
    requires c > 0.0 && c * lo <= x <= c * hi
    ensures lo <= x / c <= hi
  {
  }

  lemma {:induction false} SumConcat(a: seq<real>, b: seq<real>)
    ensures Sum(a + b) == Sum(a) + Sum(b)
  {
    if a == [] {
      assert a + b == b;
    } else {
      assert (a + b)[1..] == a[1..] + b;
      SumConcat(a[1..], b);
    }
  }

  lemma {:induction false} SquaredDeviationsConcat(a: seq<real>, b: seq<real>, m: real)
    ensures SquaredDeviations(a + b, m) == SquaredDeviations(a, m) + SquaredDeviations(b, m)
  {
    if a == [] {
      assert a + b == b;
    } else {
      assert (a + b)[1..] == a[1..] + b;
      SquaredDeviationsConcat(a[1..], b, m);
    }
  }

  lemma SquaredDeviationsSingleton(x: real, m: real)
    ensures SquaredDeviations([x], m) == Square(x - m)
  {
    assert [x][1..] == [];
  }

  /** Removing the element at `i` from `b` leaves a sequence with the rest of its multiset. */
  lemma RemoveAt(b: seq<real>, i: nat)
    requires i < |b|
    ensures b == b[..i] + [b[i]] + b[i + 1..]
    ensures multiset(b[..i] + b[i + 1..]) == multiset(b) - multiset{b[i]}
  {
    assert b == b[..i] + [b[i]] + b[i + 1..];
  }

  /** Leaving out the value at `i` removes it from the sum and its squared
      deviation from the squared deviations. */
  lemma LeaveOneOut(values: seq<real>, i: nat, m: real)
    requires i < |values|
    ensures var rest := values[..i] + values[i + 1..];
      && Sum(rest) == Sum(values) - values[i]
      && SquaredDeviations(values, m) == SquaredDeviations(rest, m) + Square(values[i] - m)
  {
    RemoveAt(values, i);
    SumConcat(values[..i] + [values[i]], values[i + 1..]);
    SumConcat(values[..i], [values[i]]);
    SumConcat(values[..i], values[i + 1..]);
    SquaredDeviationsConcat(values[..i] + [values[i]], values[i + 1..], m);
    SquaredDeviationsConcat(values[..i], [values[i]], m);
    SquaredDeviationsConcat(values[..i], values[i + 1..], m);
    SquaredDeviationsSingleton(values[i], m);
  }

  /** Removing one occurrence of the first element from a permutation of
      `a` leaves a permutation of the rest of `a`. */
  lemma PermutationOfTail(a: seq<real>, b: seq<real>) returns (i: nat)
    requires |a| > 0 && multiset(a) == multiset(b)
    ensures i < |b| && b[i] == a[0]
    ensures multiset(a[1..]) == multiset(b[..i] + b[i + 1..])
  {
    assert a[0] in multiset(b);
    i :| 0 <= i < |b| && b[i] == a[0];
    RemoveAt(b, i);
    assert a == [a[0]] + a[1..];
    assert multiset(a[1..]) == multiset(a) - multiset{a[0]};
  }

  /** The sum depends only on the multiset of the values. */
  lemma {:induction false} SumPermutation(a: seq<real>, b: seq<real>)
    requires multiset(a) == multiset(b)
    ensures Sum(a) == Sum(b)
  {
    if a == [] {
      assert |multiset(b)| == 0;
    } else {
      var i := PermutationOfTail(a, b);
      SumPermutation(a[1..], b[..i] + b[i + 1..]);
      LeaveOneOut(b, i, 0.0);
    }
  }

  /** The squared deviations from a fixed point depend only on the multiset of the values. */
  lemma {:induction false} SquaredDeviationsPermutation(a: seq<real>, b: seq<real>, m: real)
    requires multiset(a) == multiset(b)
    ensures SquaredDeviations(a, m) == SquaredDeviations(b, m)
  {
    if a == [] {
      assert |multiset(b)| == 0;
    } else {
      var i := PermutationOfTail(a, b);
      SquaredDeviationsPermutation(a[1..], b[..i] + b[i + 1..], m);
      LeaveOneOut(b, i, m);
    }
  }

  /** Reordering the input leaves the summary unchanged. */
  lemma SummaryDependsOnlyOnMultiset(a: seq<real>, b: seq<real>)
    requires |a| > 0 && multiset(a) == multiset(b)
    ensures |b| > 0 && CalculateSummaryStats(a) == CalculateSummaryStats(b)
  {
    assert |a| == |multiset(a)| == |multiset(b)| == |b|;
    SortDependsOnlyOnMultiset(a, b);
    SumPermutation(a, b);
    assert Mean(a) == Mean(b);
    SquaredDeviationsPermutation(a, b, Mean(a));
    assert Variance(a) == Variance(b);
    var ra, rb := CalculateSummaryStats(a), CalculateSummaryStats(b);
    assert ra.mean == rb.mean && ra.variance == rb.variance;
    assert ra.median == rb.median && ra.q1 == rb.q1 && ra.q3 == rb.q3;
    assert ra.min == Sort(a)[0] == rb.min;
    assert ra.max == Sort(a)[|a| - 1] == rb.max;
  }

  /** A series of one repeated value has that value as every statistic and no spread. */
  lemma ConstantSeriesSummary(values: seq<real>, x: real)
    requires |values| > 0 && forall v :: v in values ==> v == x
    ensures var r := CalculateSummaryStats(values);
      r.mean == r.median == r.min == r.max == r.q1 == r.q3 == x && r.variance == 0.0
  {
    var r := CalculateSummaryStats(values);
    assert r.min == x && r.max == x;
    ConstantSquaredDeviations(values, x);
  }

  lemma {:induction false} ConstantSquaredDeviations(values: seq<real>, x: real)
    requires forall v :: v in values ==> v == x
    ensures SquaredDeviations(values, x) == 0.0
  {
    if values != [] {
      assert values[0] in values;
      assert forall v :: v in values[1..] ==> v in values;
      ConstantSquaredDeviations(values[1..], x);
    }
  }

  /** The worked example 1, 2, 3, 4: q1 = 2, q3 = 4 and median 2.5. */
  lemma FourPointQuartiles()
    ensures var r := CalculateSummaryStats([1.0, 2.0, 3.0, 4.0]);
      r.q1 == 2.0 && r.q3 == 4.0 && r.median == 2.5 && r.mean == 2.5
  {
    var s := [1.0, 2.0, 3.0, 4.0];
    FourPointMeanAndMedian();
    FourPointSorted();
    var r := CalculateSummaryStats(s);
    assert Q1Index(4) == 1 && Q3Index(4) == 3;
    assert r.q1 == Sort(s)[1] == 2.0;
    assert r.q3 == Sort(s)[3] == 4.0;
    assert r.median == Median(s);
  }

  lemma FourPointSorted()
    ensures Sort([1.0, 2.0, 3.0, 4.0]) == [1.0, 2.0, 3.0, 4.0]
  {
    SortOfSorted([1.0, 2.0, 3.0, 4.0]);
  }

  lemma SortOfSorted(s: seq<real>)
    requires Sorted(s)
    ensures Sort(s) == s
  {
    SortedUnique(Sort(s), s);
  }

  lemma FourPointMeanAndMedian()
    ensures Mean([1.0, 2.0, 3.0, 4.0]) == 2.5 && Median([1.0, 2.0, 3.0, 4.0]) == 2.5
  {
    assert Sum([1.0, 2.0, 3.0, 4.0]) == 10.0;
  }
}
