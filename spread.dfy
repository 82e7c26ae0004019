/** How far one value of a population can lie from the population mean
    (Samuelson's inequality). It bounds the z-scores the anomaly detector can
    see in a short series. */
module SpreadBound {
  import opened SummaryStatistics

  // ---------------------------------------------------------------------
  // How far one value can lie from the mean

  lemma SquarePositive(x: real)
    requires x != 0.0
    ensures x * x > 0.0
  {
    if x < 0.0 {
      assert x * x == (-x) * (-x);
    }
  }

  /** One induction step of Cauchy-Schwarz: (a + S)^2 <= (1 + k)(a^2 + Q)
      whenever S^2 <= kQ. */
  lemma CauchySchwarzStep(a: real, sum: real, sq: real, k: real)
    requires k >= 0.0 && sq >= 0.0 && Square(sum) <= k * sq
    ensures Square(a + sum) <= (1.0 + k) * (Square(a) + sq)
  {
    var gap := (1.0 + k) * (a * a + sq) - (a + sum) * (a + sum);
    assert gap == k * a * a + k * sq + sq - 2.0 * a * sum - sum * sum;
    if k == 0.0 {
      if sum != 0.0 {
        SquarePositive(sum);
      }
    } else {
      var r := k * a * a + sq - 2.0 * a * sum;
      assert gap >= r;
      var e := k * a - sum;
      assert e * e == k * k * a * a - 2.0 * k * a * sum + sum * sum;
      assert k * r == k * k * a * a + k * sq - 2.0 * k * a * sum;
      assert k * r >= e * e >= 0.0;
      assert r == (k * r) / k;
    }
  }

  /** The sum of the deviations of the elements of `s` from `m`. */
  function Deviations(s: seq<real>, m: real): real {
    if s == [] then 0.0 else (s[0] - m) + Deviations(s[1..], m)
  }

  lemma {:induction false} DeviationsFromSum(s: seq<real>, m: real)
    ensures Deviations(s, m) == Sum(s) - Count(s) * m
  {
    if s != [] {
      DeviationsFromSum(s[1..], m);
      assert (1.0 + Count(s[1..])) * m == m + Count(s[1..]) * m;
    }
  }

  /** Cauchy-Schwarz for deviations: the square of their sum is at most the
      count times the sum of their squares. */
  lemma {:induction false} DeviationSumBound(s: seq<real>, m: real)
    ensures Count(s) >= 0.0
    ensures Square(Deviations(s, m)) <= Count(s) * SquaredDeviations(s, m)
  {
    if s != [] {
      var t := s[1..];
      DeviationSumBound(t, m);
      CauchySchwarzStep(s[0] - m, Deviations(t, m), SquaredDeviations(t, m), Count(t));
    }
  }

  lemma {:induction false} DeviationsConcat(a: seq<real>, b: seq<real>, m: real)
    ensures Deviations(a + b, m) == Deviations(a, m) + Deviations(b, m)
    ensures Count(a + b) == Count(a) + Count(b)
  {
    if a == [] {
      assert a + b == b;
    } else {
      assert (a + b)[1..] == a[1..] + b;
      DeviationsConcat(a[1..], b, m);
    }
  }

  /** Leaving out the value at `i` removes its deviation from the sum of
      deviations and one from the count. */
  lemma DeviationsLeaveOneOut(values: seq<real>, i: nat, m: real)
    requires i < |values|
    ensures var rest := values[..i] + values[i + 1..];
      && Deviations(values, m) == Deviations(rest, m) + (values[i] - m)
      && Count(values) == Count(rest) + 1.0
  {
    RemoveAt(values, i);
    DeviationsConcat(values[..i] + [values[i]], values[i + 1..], m);
    DeviationsConcat(values[..i], [values[i]], m);
    DeviationsConcat(values[..i], values[i + 1..], m);
    assert [values[i]][1..] == [];
  }

  /** The deviations from the mean sum to zero. */
  lemma DeviationsAboutMean(values: seq<real>)
    requires |values| > 0
    ensures Deviations(values, Mean(values)) == 0.0
  {
    DeviationsFromSum(values, Mean(values));
    CountIsLength(values);
  }

  /** n sq <= (n - 1) total: a squared deviation sq is at most n - 1 times
      the mean squared deviation total / n. */
  predicate WithinSamuelson(n: real, sq: real, total: real) {
    n * sq <= (n - 1.0) * total
  }

  /** Samuelson's inequality, scaled by the count: no value of a population
      lies more than sqrt(n - 1) standard deviations from its mean, that is
      n (x - mean)^2 <= (n - 1) * sum of (v - mean)^2. */
  lemma SamuelsonBound(values: seq<real>, i: nat)
    requires i < |values|
    ensures WithinSamuelson(Count(values), Square(values[i] - Mean(values)),
                            SquaredDeviations(values, Mean(values)))
  {
    var m := Mean(values);
    assert Deviations(values, m) == 0.0 by {
      DeviationsAboutMean(values);
    }
    SamuelsonAbout(values, i, m);
  }

  /** Samuelson's inequality about any point from which the deviations sum to zero. */
  lemma SamuelsonAbout(values: seq<real>, i: nat, m: real)
    requires i < |values| && Deviations(values, m) == 0.0
    ensures WithinSamuelson(Count(values), Square(values[i] - m), SquaredDeviations(values, m))
  {
    var rest := values[..i] + values[i + 1..];
    DeviationsLeaveOneOut(values, i, m);
    LeaveOneOut(values, i, m);
    SamuelsonFromRest(values, rest, values[i] - m, m);
  }

  /** Samuelson's inequality for one value, given the population without it. */
  lemma SamuelsonFromRest(values: seq<real>, rest: seq<real>, x: real, m: real)
    requires Deviations(values, m) == 0.0
    requires Deviations(values, m) == Deviations(rest, m) + x && Count(values) == Count(rest) + 1.0
    requires SquaredDeviations(values, m) == SquaredDeviations(rest, m) + Square(x)
    ensures WithinSamuelson(Count(values), Square(x), SquaredDeviations(values, m))
  {
    DeviationSumBound(rest, m);
    SamuelsonStep(x, Deviations(rest, m), Count(rest), SquaredDeviations(rest, m),
                  Count(values), SquaredDeviations(values, m));
  }

  /** The arithmetic that closes Samuelson's inequality: x is the deviation
      left out, and the others sum to -x. */
  lemma SamuelsonStep(x: real, restDev: real, restCount: real, restSq: real, n: real, total: real)
    requires restDev + x == 0.0 && n == restCount + 1.0 && total == restSq + Square(x)
    requires restCount >= 0.0 && Square(restDev) <= restCount * restSq
    ensures WithinSamuelson(n, Square(x), total)
  {
    assert Square(restDev) == Square(x);
    assert n * Square(x) == Square(x) + restCount * Square(x);
    assert (n - 1.0) * total == restCount * restSq + restCount * Square(x);
  }
}
