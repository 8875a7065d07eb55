/**
 * What the statistics record promises about the dataset it was computed
 * from: bounds, the mode policy, the quartile gate, the outlier fences,
 * independence from the order of the data, and the worked examples.
 */
module UseStatsProperties {
  import opened Wrappers
  import opened Sorting
  import opened UseStats

  // ---------------------------------------------------------------- helpers

  /** Every value of the data lies between the first and the last element of its sorted copy. */
  lemma WithinExtremes(data: seq<int>, v: int)
    requires v in data
    ensures SortedCopy(data)[0] <= v <= SortedCopy(data)[|data| - 1]
  {
    SortedBounds(data, SortedCopy(data), v);
  }

  /** Every element of the sorted copy is a value of the data. */
  lemma SortedCopyElement(data: seq<int>, i: int)
    requires 0 <= i < |data|
    ensures SortedCopy(data)[i] in data
  {
    var sorted := SortedCopy(data);
    assert sorted[i] in multiset(sorted);
  }

  /** Sorted elements are ordered like their positions. */
  lemma SortedAt(sorted: seq<int>, i: int, j: int)
    requires Sorted(sorted) && 0 <= i <= j < |sorted|
    ensures sorted[i] <= sorted[j]
  {
  }

  lemma {:induction false} SumBounds(s: seq<int>, lo: int, hi: int)
    requires forall i :: 0 <= i < |s| ==> lo <= s[i] <= hi
    ensures |s| * lo <= Sum(s) <= |s| * hi
  {
    if s != [] {
      SumBounds(s[1..], lo, hi);
    }
  }

  /** A real quotient by a positive count inherits bounds scaled by that count. */
  lemma QuotientBounds(a: int, n: int, lo: int, hi: int)
    requires n > 0 && n * lo <= a <= n * hi
    ensures lo as real <= a as real / n as real <= hi as real
  {
    assert (n * lo) as real == n as real * lo as real;
    assert (n * hi) as real == n as real * hi as real;
  }

  /** Two equal values at different positions make a count of at least 2. */
  lemma RepeatedCount(s: seq<int>, i: int, j: int)
    requires 0 <= i < j < |s| && s[i] == s[j]
    ensures multiset(s)[s[i]] >= 2
  {
    assert s == s[..j] + s[j..];
    assert s[i] in s[..j];
    assert s[j] in s[j..];
    assert multiset(s) == multiset(s[..j]) + multiset(s[j..]);
  }

  /** A count of at least 2 means the value sits at two different positions. */
  lemma CountRepeated(s: seq<int>, v: int)
    requires multiset(s)[v] >= 2
    ensures exists i, j :: 0 <= i < j < |s| && s[i] == v && s[j] == v
  {
    assert v in multiset(s);
    var i :| 0 <= i < |s| && s[i] == v;
    assert s == s[..i] + [s[i]] + s[i + 1..];
    assert multiset(s) == multiset(s[..i]) + multiset{v} + multiset(s[i + 1..]);
    if v in s[..i] {
      var k :| 0 <= k < i && s[..i][k] == v;
      assert s[k] == v;
    } else {
      assert v in multiset(s[i + 1..]);
      var k :| 0 <= k < |s| - i - 1 && s[i + 1..][k] == v;
      assert s[i + 1 + k] == v;
    }
  }

  /** A value occurs at most once iff no two positions hold it. */
  predicate AllDistinct(s: seq<int>) {
    forall i, j :: 0 <= i < j < |s| ==> s[i] != s[j]
  }

  /** The frequency table only depends on the multiset of the data. */
  lemma FrequencyOfPermutation(a: seq<int>, b: seq<int>)
    requires multiset(a) == multiset(b)
    ensures Frequency(a) == Frequency(b)
  {
    forall v ensures v in a <==> v in b {
      assert v in a <==> v in multiset(a);
      assert v in b <==> v in multiset(b);
    }
  }

  /** The product of two reals, as a term of its own. */
  function Product(a: real, b: real): (p: real) { a * b }

  lemma ProductPositive(a: real, b: real)
    requires a > 0.0 && b > 0.0
    ensures Product(a, b) > 0.0
  {
  }

  /** A squared deviation is 0 exactly when the value equals the mean. */
  lemma SquaredDeviationZero(v: int, mean: real)
    ensures SquaredDeviation(v, mean) == 0.0 <==> v as real == mean
  {
    var d := v as real - mean;
    if d > 0.0 {
      ProductPositive(d, d);
      assert SquaredDeviation(v, mean) == Product(d, d);
    } else if d < 0.0 {
      ProductPositive(-d, -d);
      assert SquaredDeviation(v, mean) == Product(-d, -d);
    }
  }

  /** Every value of s equals m. */
  predicate AllEqualTo(s: seq<int>, m: real) {
    forall i :: 0 <= i < |s| ==> s[i] as real == m
  }

  /** All values of s are equal. */
  predicate Constant(s: seq<int>) {
    forall i, j :: 0 <= i < |s| && 0 <= j < |s| ==> s[i] == s[j]
  }

  // ---------------------------------------------------------------- the parts

  /** The median of a sorted sequence lies between its first and last element. */
  lemma MedianBetween(sorted: seq<int>)
    requires Sorted(sorted) && sorted != []
    ensures sorted[0] as real <= Median(sorted) <= sorted[|sorted| - 1] as real
  {
    var n := |sorted|;
    if n % 2 == 0 {
      SortedAt(sorted, 0, n / 2 - 1);
      SortedAt(sorted, n / 2, n - 1);
      SortedAt(sorted, n / 2 - 1, n / 2);
    } else {
      SortedAt(sorted, 0, n / 2);
      SortedAt(sorted, n / 2, n - 1);
    }
  }

  /** From four values on, both quartile positions are valid and the quartiles straddle the median. */
  lemma QuartilesAroundMedian(sorted: seq<int>)
    requires Sorted(sorted) && |sorted| >= 4
    ensures Q1Index(|sorted|) <= Q3Index(|sorted|) < |sorted|
    ensures sorted[0] <= sorted[Q1Index(|sorted|)]
    ensures sorted[Q1Index(|sorted|)] as real <= Median(sorted) <= sorted[Q3Index(|sorted|)] as real
    ensures sorted[Q3Index(|sorted|)] <= sorted[|sorted| - 1]
  {
    var n := |sorted|;
    SortedAt(sorted, 0, Q1Index(n));
    SortedAt(sorted, Q3Index(n), n - 1);
    if n % 2 == 0 {
      SortedAt(sorted, Q1Index(n), n / 2 - 1);
      SortedAt(sorted, n / 2 - 1, n / 2);
      SortedAt(sorted, n / 2, Q3Index(n));
    } else {
      SortedAt(sorted, Q1Index(n), n / 2);
      SortedAt(sorted, n / 2, Q3Index(n));
    }
  }

  /** The mean lies between the smallest and the largest value. */
  lemma MeanBetween(data: seq<int>)
    requires data != []
    ensures SortedCopy(data)[0] as real <= Mean(data) <= SortedCopy(data)[|data| - 1] as real
  {
    var sorted := SortedCopy(data);
    forall i | 0 <= i < |data| ensures sorted[0] <= data[i] <= sorted[|data| - 1] {
      WithinExtremes(data, data[i]);
    }
    SumBounds(data, sorted[0], sorted[|data| - 1]);
    QuotientBounds(Sum(data), |data|, sorted[0], sorted[|data| - 1]);
  }

  /** A value that occurs at least as often as any other. */
  lemma MostFrequent(data: seq<int>) returns (v: int)
    requires data != []
    ensures v in data && forall w :: w in data ==> multiset(data)[w] <= multiset(data)[v]
  {
    var frequency := Frequency(data);
    var sorted := SortedCopy(data);
    SortedCopyInFrequency(data);
    var keys := Distinct(sorted);
    DistinctKeys(frequency, sorted);
    assert keys != [] by {
      assert sorted[0] in sorted;
    }
    var maxFreq := MaxFrequency(frequency, keys);
    var k :| 0 <= k < |keys| && frequency[keys[k]] == maxFreq;
    v := keys[k];
    assert v in sorted;
    assert v in multiset(sorted);
    forall w | w in data ensures multiset(data)[w] <= multiset(data)[v] {
      assert w in multiset(data);
      assert w in sorted;
      var m :| 0 <= m < |keys| && keys[m] == w;
    }
  }

  /** The keys the mode is chosen from: the distinct values of the data, ascending, all in the frequency table. */
  lemma ModeKeys(data: seq<int>)
    ensures var keys := Distinct(SortedCopy(data));
      && (forall i :: 0 <= i < |keys| ==> keys[i] in Frequency(data))
      && (forall v :: v in keys <==> v in data)
      && StrictlyIncreasing(keys)
  {
    var sorted := SortedCopy(data);
    SortedCopyInFrequency(data);
    DistinctKeys(Frequency(data), sorted);
    forall v ensures v in sorted <==> v in data {
      assert v in sorted <==> v in multiset(sorted);
      assert v in data <==> v in multiset(data);
    }
  }

  /** No value occurs more often than the top count, and some value of non-empty data reaches it. */
  lemma TopCountMeaning(data: seq<int>)
    ensures forall w :: w in data ==> multiset(data)[w] <= TopCount(data)
    ensures data != [] ==> exists w :: w in data && multiset(data)[w] == TopCount(data)
  {
    TopCountBounds(data);
    if data != [] {
      TopCountAttained(data);
    }
  }

  lemma TopCountBounds(data: seq<int>)
    ensures forall w :: w in data ==> multiset(data)[w] <= TopCount(data)
  {
    var frequency, keys := Frequency(data), Distinct(SortedCopy(data));
    ModeKeys(data);
    var top := MaxFrequency(frequency, keys);
    assert top == TopCount(data);
    forall w | w in data ensures multiset(data)[w] <= top {
      assert w in keys;
      var k :| 0 <= k < |keys| && keys[k] == w;
      assert frequency[keys[k]] <= top;
    }
  }

  lemma TopCountAttained(data: seq<int>)
    requires data != []
    ensures exists w :: w in data && multiset(data)[w] == TopCount(data)
  {
    var frequency, keys := Frequency(data), Distinct(SortedCopy(data));
    ModeKeys(data);
    var top := MaxFrequency(frequency, keys);
    assert top == TopCount(data);
    var first := data[0];
    assert first in data;
    assert first in keys;
    var k :| 0 <= k < |keys| && frequency[keys[k]] == top;
    var w := keys[k];
    assert w in keys;
    assert w in data;
    assert multiset(data)[w] == top;
  }

  /** A value of the data is a mode exactly when it repeats and no value occurs more often. */
  lemma ModeMember(data: seq<int>, v: int)
    requires v in data
    ensures v in ModeOf(data) <==>
      multiset(data)[v] > 1 && forall w :: w in data ==> multiset(data)[w] <= multiset(data)[v]
  {
    ModeKeys(data);
    TopCountMeaning(data);
  }

  /**
   * The mode holds exactly the values that occur more than once and at least
   * as often as any other value, each once and in ascending order.
   */
  lemma ModeMeaning(data: seq<int>)
    ensures forall v :: v in ModeOf(data) <==>
              v in data && multiset(data)[v] > 1 && forall w :: w in data ==> multiset(data)[w] <= multiset(data)[v]
    ensures StrictlyIncreasing(ModeOf(data))
  {
    ModeKeys(data);
    forall v
      ensures v in ModeOf(data) <==>
        v in data && multiset(data)[v] > 1 && forall w :: w in data ==> multiset(data)[w] <= multiset(data)[v]
    {
      if v in data {
        ModeMember(data, v);
      }
    }
  }

  /** No mode exactly when no value repeats. */
  lemma ModeEmptyIffAllDistinct(data: seq<int>)
    ensures ModeOf(data) == [] <==> AllDistinct(data)
  {
    ModeMeaning(data);
    if ModeOf(data) != [] {
      assert ModeOf(data)[0] in ModeOf(data);
      CountRepeated(data, ModeOf(data)[0]);
    }
    if !AllDistinct(data) {
      var i, j :| 0 <= i < j < |data| && data[i] == data[j];
      RepeatedCount(data, i, j);
      var v := MostFrequent(data);
      assert data[i] in data;
      assert v in ModeOf(data);
    }
  }

  lemma {:induction false} SquaredDeviationsZero(s: seq<int>, mean: real)
    ensures SquaredDeviations(s, mean) == 0.0 <==> AllEqualTo(s, mean)
  {
    if s != [] {
      SquaredDeviationsZero(s[1..], mean);
      SquaredDeviationZero(s[0], mean);
      if AllEqualTo(s, mean) {
        assert AllEqualTo(s[1..], mean);
      }
      if SquaredDeviations(s, mean) == 0.0 {
        assert AllEqualTo(s[1..], mean);
        forall i | 0 <= i < |s| ensures s[i] as real == mean {
          if i > 0 { assert s[i] == s[1..][i - 1]; }
        }
      }
    }
  }

  /** The mean of constant data is that constant. */
  lemma MeanOfConstant(data: seq<int>)
    requires data != [] && Constant(data)
    ensures Mean(data) == data[0] as real
  {
    SumBounds(data, data[0], data[0]);
    assert (|data| * data[0]) as real == |data| as real * data[0] as real;
  }

  /** The population variance is nonnegative, and 0 exactly when all values are equal. */
  lemma VarianceMeaning(data: seq<int>)
    requires data != []
    ensures Variance(data) >= 0.0
    ensures Variance(data) == 0.0 <==> Constant(data)
  {
    var n := |data|;
    if n > 1 {
      var mean := Mean(data);
      var squares := SquaredDeviations(data, mean);
      SquaredDeviationsZero(data, mean);
      assert squares / n as real >= 0.0;
      assert squares / n as real == 0.0 <==> squares == 0.0;
      if Constant(data) {
        MeanOfConstant(data);
      }
    }
  }

  // ---------------------------------------------------------------- the record

  /** The record's `iqr` field is the IQR of the sorted copy. */
  lemma EngineIQR(data: seq<int>)
    ensures StatisticsOf(data).iqr == InterquartileRange(SortedCopy(data))
  {
  }

  /** The record's `outliers` field is the filter against the sorted copy's fences. */
  lemma EngineOutliers(data: seq<int>)
    ensures StatisticsOf(data).outliers == Outliers(data, SortedCopy(data))
  {
  }

  /** From four values on, the outliers are the filter against the record's own q1, q3 and iqr. */
  lemma RecordFences(data: seq<int>)
    requires |data| >= 4
    ensures var s := StatisticsOf(data);
      && s.q1.Some? && s.q3.Some? && s.iqr.Some? && s.iqr.value == s.q3.value - s.q1.value
      && s.outliers == OutsideFences(data, LowerFence(s.q1.value, s.iqr.value), UpperFence(s.q3.value, s.iqr.value))
  {
    EngineOutliers(data);
  }

  /** Filtering a sequence that starts with x: x is kept exactly when it is outside the fences. */
  lemma OutsideFencesCons(x: int, rest: seq<int>, lower: real, upper: real)
    ensures OutsideFences([x] + rest, lower, upper) ==
            (if IsOutlier(x, lower, upper) then [x] else []) + OutsideFences(rest, lower, upper)
  {
    assert ([x] + rest)[1..] == rest;
  }

  /** A subsequence is never longer than the sequence it is taken from. */
  lemma {:induction false} SubsequenceNotLonger(r: seq<int>, s: seq<int>)
    requires IsSubsequence(r, s)
    ensures |r| <= |s|
    decreases |s|
  {
    if r != [] {
      if r[0] == s[0] && IsSubsequence(r[1..], s[1..]) {
        SubsequenceNotLonger(r[1..], s[1..]);
      } else {
        SubsequenceNotLonger(r, s[1..]);
      }
    }
  }

  /** No data: count 0, every optional field absent, no mode and no outliers. */
  lemma EmptyData()
    ensures var s := StatisticsOf([]);
      && s.count == 0
      && s.mean.None? && s.median.None? && s.min.None? && s.max.None? && s.range.None?
      && s.variance.None? && s.standardDeviation.None?
      && s.q1.None? && s.q3.None? && s.iqr.None?
      && s.mode == [] && s.outliers == []
  {
  }

  /** The count is the size of the data; the mean is the sum over the count and lies between min and max. */
  lemma CountAndMean(data: seq<int>)
    requires data != []
    ensures var s := StatisticsOf(data);
      && s.count == |data|
      && s.mean.Some? && s.mean.value == Sum(data) as real / |data| as real
      && s.min.value as real <= s.mean.value <= s.max.value as real
  {
    MeanBetween(data);
  }

  /** The median is that of the sorted copy and lies between min and max. */
  lemma MedianProperties(data: seq<int>)
    requires data != []
    ensures var s := StatisticsOf(data);
      && s.median.Some? && s.median.value == Median(SortedCopy(data))
      && s.min.value as real <= s.median.value <= s.max.value as real
  {
    MedianBetween(SortedCopy(data));
  }

  /** min and max are values of the data that bound every value; the range is their nonnegative difference. */
  lemma MinMaxRange(data: seq<int>)
    requires data != []
    ensures var s := StatisticsOf(data);
      && s.min.Some? && s.max.Some? && s.range.Some?
      && s.min.value in data && s.max.value in data
      && (forall v :: v in data ==> s.min.value <= v <= s.max.value)
      && s.range.value == s.max.value - s.min.value >= 0
  {
    SortedCopyElement(data, 0);
    SortedCopyElement(data, |data| - 1);
    forall v | v in data ensures SortedCopy(data)[0] <= v <= SortedCopy(data)[|data| - 1] {
      WithinExtremes(data, v);
    }
  }

  /**
   * The mode holds exactly the values that occur more than once and at least
   * as often as any other value, ascending and without repeats; it is empty
   * exactly when no value repeats.
   */
  lemma ModeProperties(data: seq<int>)
    ensures var mode := StatisticsOf(data).mode;
      && (forall v :: v in mode <==>
            v in data && multiset(data)[v] > 1 && forall w :: w in data ==> multiset(data)[w] <= multiset(data)[v])
      && StrictlyIncreasing(mode)
      && (mode == [] <==> AllDistinct(data))
  {
    ModeMeaning(data);
    ModeEmptyIffAllDistinct(data);
  }

  /**
   * The variance is nonnegative, 0 for a single value, the mean squared
   * deviation otherwise, and 0 exactly when all values are equal; the
   * standard deviation is its root, which is 0 exactly when the variance is.
   */
  lemma VarianceProperties(data: seq<int>)
    requires data != []
    ensures var s := StatisticsOf(data);
      && s.variance.Some? && s.variance.value >= 0.0
      && (|data| == 1 ==> s.variance.value == 0.0)
      && (|data| > 1 ==> s.variance.value == SquaredDeviations(data, s.mean.value) / |data| as real)
      && (s.variance.value == 0.0 <==> Constant(data))
      && s.standardDeviation.Some? && s.standardDeviation.value == SqrtOf(s.variance.value)
      && (s.standardDeviation.value.IsZero() <==> s.variance.value == 0.0)
  {
    VarianceMeaning(data);
  }

  /** The quartiles and the IQR exist exactly from four values on. */
  lemma QuartileGate(data: seq<int>)
    ensures var s := StatisticsOf(data);
      && (|data| < 4 <==> s.q1.None?)
      && (|data| < 4 <==> s.q3.None?)
      && (|data| < 4 <==> s.iqr.None?)
  {
  }

  /**
   * From four values on, the quartiles are the elements at positions
   * floor(n/4) and floor(3n/4) of the sorted copy, and both are values of the data.
   */
  lemma QuartileValues(data: seq<int>)
    requires |data| >= 4
    ensures Q1Index(|data|) <= Q3Index(|data|) < |data|
    ensures var s, sorted := StatisticsOf(data), SortedCopy(data);
      && s.q1.Some? && s.q1.value == sorted[Q1Index(|data|)]
      && s.q3.Some? && s.q3.value == sorted[Q3Index(|data|)]
      && s.q1.value in data && s.q3.value in data
  {
    QuartilesAroundMedian(SortedCopy(data));
    SortedCopyElement(data, Q1Index(|data|));
    SortedCopyElement(data, Q3Index(|data|));
  }

  /** From four values on, min <= q1 <= median <= q3 <= max, and iqr = q3 - q1 >= 0. */
  lemma QuartileOrder(data: seq<int>)
    requires |data| >= 4
    ensures var s := StatisticsOf(data);
      && s.min.value <= s.q1.value
      && s.q1.value as real <= s.median.value <= s.q3.value as real
      && s.q3.value <= s.max.value
      && s.iqr.Some? && s.iqr.value == s.q3.value - s.q1.value && s.iqr.value >= 0
  {
    QuartilesAroundMedian(SortedCopy(data));
  }

  /**
   * The outliers are empty below four values; from four values on they are
   * exactly the values strictly outside the fences, each as often as in the
   * data and in the data's order, and none of them lies within [q1, q3].
   */
  lemma OutlierProperties(data: seq<int>)
    ensures var s := StatisticsOf(data);
      && (|data| < 4 ==> s.outliers == [])
      && (|data| >= 4 ==>
            var lower, upper := LowerFence(s.q1.value, s.iqr.value), UpperFence(s.q3.value, s.iqr.value);
            && s.outliers == OutsideFences(data, lower, upper)
            && (forall v :: v in s.outliers <==> v in data && IsOutlier(v, lower, upper))
            && (forall v :: multiset(s.outliers)[v] == if IsOutlier(v, lower, upper) then multiset(data)[v] else 0)
            && IsSubsequence(s.outliers, data)
            && (forall v :: v in s.outliers ==> v < s.q1.value || v > s.q3.value))
  {
    if |data| >= 4 {
      QuartileOrder(data);
      var s := StatisticsOf(data);
      OutsideFencesMeaning(data, LowerFence(s.q1.value, s.iqr.value), UpperFence(s.q3.value, s.iqr.value));
      EngineOutliers(data);
    }
  }

  /** With q1 = 2, q3 = 6 and iqr = 4 the fences are -4 and 12: values on them are not outliers, -5 and 13 are. */
  lemma FenceExample()
    ensures LowerFence(2, 4) == -4.0 && UpperFence(6, 4) == 12.0
    ensures !IsOutlier(-4, -4.0, 12.0) && !IsOutlier(12, -4.0, 12.0)
    ensures IsOutlier(-5, -4.0, 12.0) && IsOutlier(13, -4.0, 12.0)
  {
  }

  /** Two records agree on every field except, possibly, the outliers. */
  predicate SameExceptOutliers(x: Statistics, y: Statistics) {
    && x.count == y.count && x.mean == y.mean && x.median == y.median && x.mode == y.mode
    && x.min == y.min && x.max == y.max && x.range == y.range
    && x.variance == y.variance && x.standardDeviation == y.standardDeviation
    && x.q1 == y.q1 && x.q3 == y.q3 && x.iqr == y.iqr
  }

  /** The parts of the record that only depend on the multiset of the data. */
  lemma PermutationParts(a: seq<int>, b: seq<int>)
    requires multiset(a) == multiset(b) && a != []
    ensures |a| == |b| && SortedCopy(a) == SortedCopy(b)
    ensures Mean(a) == Mean(b) && Variance(a) == Variance(b) && ModeOf(a) == ModeOf(b)
  {
    assert |a| == |multiset(a)| == |b|;
    SortedCopyOfPermutation(a, b);
    SumOfPermutation(a, b);
    SquaredDeviationsOfPermutation(a, b, Mean(a));
    FrequencyOfPermutation(a, b);
  }

  /** The outliers of two reorderings of the data, against the same sorted copy, are equal as multisets. */
  lemma OutliersOfPermutation(a: seq<int>, b: seq<int>, sorted: seq<int>)
    requires multiset(a) == multiset(b)
    ensures multiset(Outliers(a, sorted)) == multiset(Outliers(b, sorted))
  {
    if |sorted| >= 4 {
      var q1, q3 := LowerQuartile(sorted).value, UpperQuartile(sorted).value;
      var iqr := InterquartileRange(sorted).value;
      OutsideFencesMeaning(a, LowerFence(q1, iqr), UpperFence(q3, iqr));
      OutsideFencesMeaning(b, LowerFence(q1, iqr), UpperFence(q3, iqr));
      var x, y := Outliers(a, sorted), Outliers(b, sorted);
      forall v ensures multiset(x)[v] == multiset(y)[v] {
      }
    }
  }

  /**
   * Reordering the data changes nothing but the order of the outliers: every
   * other field is equal, and the outliers are equal as multisets.
   */
  lemma PermutationInvariance(a: seq<int>, b: seq<int>)
    requires multiset(a) == multiset(b)
    ensures SameExceptOutliers(StatisticsOf(a), StatisticsOf(b))
    ensures multiset(StatisticsOf(a).outliers) == multiset(StatisticsOf(b).outliers)
  {
    if a != [] {
      PermutationParts(a, b);
      OutliersOfPermutation(a, b, SortedCopy(a));
    } else {
      assert |b| == |multiset(b)| == 0;
    }
  }

  /** The smallest and the largest value of constant data are its common value. */
  lemma SortedOfConstant(data: seq<int>)
    requires data != [] && Constant(data)
    ensures SortedCopy(data)[0] == data[0] && SortedCopy(data)[|data| - 1] == data[0]
  {
    SortedCopyElement(data, 0);
    SortedCopyElement(data, |data| - 1);
  }

  /** Constant data has its common value as mean and median. */
  lemma CentreOfConstant(data: seq<int>)
    requires data != [] && Constant(data)
    ensures Mean(data) == data[0] as real && Median(SortedCopy(data)) == data[0] as real
  {
    SortedOfConstant(data);
    MeanOfConstant(data);
    MedianBetween(SortedCopy(data));
  }

  /** Constant data has a mode exactly when it holds more than one value. */
  lemma ModeOfConstant(data: seq<int>)
    requires data != [] && Constant(data)
    ensures ModeOf(data) == [] <==> |data| == 1
  {
    ModeEmptyIffAllDistinct(data);
    if |data| > 1 {
      assert data[0] == data[1];
    }
  }

  /**
   * When every value is the same, mean, median, min and max are that value,
   * range, variance and standard deviation are 0, and there is a mode unless
   * there is only one value.
   */
  lemma ConstantData(data: seq<int>)
    requires data != [] && Constant(data)
    ensures var s := StatisticsOf(data);
      && s.mean.value == data[0] as real && s.median.value == data[0] as real
      && s.min.value == data[0] && s.max.value == data[0] && s.range.value == 0
      && s.variance.value == 0.0 && s.standardDeviation.value.IsZero()
      && (s.mode == [] <==> |data| == 1)
  {
    SortedOfConstant(data);
    CentreOfConstant(data);
    VarianceMeaning(data);
    ModeOfConstant(data);
  }

  /** Two elements of a strictly increasing sequence: the first two differ. */
  lemma FirstTwo(s: seq<int>)
    requires StrictlyIncreasing(s) && |s| > 1
    ensures s[0] in s && s[1] in s && s[0] != s[1]
  {
  }

  /** A strictly increasing sequence whose only value is m is [m]. */
  lemma OnlyElement(s: seq<int>, m: int)
    requires StrictlyIncreasing(s) && m in s && forall v :: v in s ==> v == m
    ensures s == [m]
  {
    if |s| > 1 {
      FirstTwo(s);
      assert false;
    }
  }

  /** The second of three or more strictly increasing values lies strictly between the first and the last. */
  lemma MiddleElement(s: seq<int>)
    requires StrictlyIncreasing(s) && |s| > 2
    ensures s[1] in s && s[0] < s[1] < s[|s| - 1]
  {
  }

  /** A strictly increasing sequence holding exactly m1 < m2 is [m1, m2]. */
  lemma OnlyTwoElements(s: seq<int>, m1: int, m2: int)
    requires StrictlyIncreasing(s) && m1 < m2 && m1 in s && m2 in s
    requires forall v :: v in s ==> v == m1 || v == m2
    ensures s == [m1, m2]
  {
    var i :| 0 <= i < |s| && s[i] == m1;
    assert s[0] in s && s[|s| - 1] in s;
    assert s[0] == m1;
    assert s[|s| - 1] == m2;
    if |s| > 2 {
      MiddleElement(s);
      assert false;
    }
  }

  /** Without a repeated value there is no mode. */
  lemma NoRepeatNoMode(data: seq<int>)
    requires forall v :: multiset(data)[v] <= 1
    ensures ModeOf(data) == []
  {
    forall i, j | 0 <= i < j < |data| ensures data[i] != data[j] {
      if data[i] == data[j] {
        RepeatedCount(data, i, j);
        assert false;
      }
    }
    ModeEmptyIffAllDistinct(data);
  }

  /** A repeated value that occurs strictly more often than every other is the whole mode. */
  lemma SingleMode(data: seq<int>, m: int)
    requires multiset(data)[m] > 1
    requires forall v :: v != m ==> multiset(data)[v] < multiset(data)[m]
    ensures ModeOf(data) == [m]
  {
    ModeMeaning(data);
    var mode := ModeOf(data);
    assert m in multiset(data);
    assert m in mode;
    forall v | v in mode ensures v == m {
    }
    OnlyElement(mode, m);
  }

  /** Two values tied at a repeated count that no other value reaches make the mode [m1, m2]. */
  lemma TwoModes(data: seq<int>, m1: int, m2: int)
    requires m1 < m2 && multiset(data)[m1] > 1 && multiset(data)[m2] == multiset(data)[m1]
    requires forall v :: v != m1 && v != m2 ==> multiset(data)[v] < multiset(data)[m1]
    ensures ModeOf(data) == [m1, m2]
  {
    ModeMeaning(data);
    var mode := ModeOf(data);
    assert m1 in multiset(data) && m2 in multiset(data);
    assert m1 in mode && m2 in mode;
    forall v | v in mode ensures v == m1 || v == m2 {
    }
    OnlyTwoElements(mode, m1, m2);
  }

  // ---------------------------------------------------------------- worked examples

  /** On data that is already ascending, the median and the quartiles are read off the data itself. */
  lemma OfAscending(data: seq<int>)
    requires Sorted(data) && data != []
    ensures StatisticsOf(data).median.value == Median(data)
    ensures |data| >= 4 ==> StatisticsOf(data).q1.value == data[Q1Index(|data|)]
    ensures |data| >= 4 ==> StatisticsOf(data).q3.value == data[Q3Index(|data|)]
  {
    SortedCopyOfSorted(data);
    MedianProperties(data);
    if |data| >= 4 {
      QuartileValues(data);
    }
  }

  /** On ascending data of four or more values, the quartiles and the IQR are read off the data itself. */
  lemma AscendingQuartiles(data: seq<int>)
    requires Sorted(data) && |data| >= 4
    ensures var s := StatisticsOf(data);
      && s.q1.Some? && s.q1.value == data[Q1Index(|data|)]
      && s.q3.Some? && s.q3.value == data[Q3Index(|data|)]
      && s.iqr.Some? && s.iqr.value == data[Q3Index(|data|)] - data[Q1Index(|data|)]
  {
    SortedCopyOfSorted(data);
    EngineIQR(data);
    QuartileValues(data);
  }

  /** Median parity, even count: [1,2,3,4] has median 2.5. */
  lemma MedianOfOneToFour(data: seq<int>)
    requires data == [1, 2, 3, 4]
    ensures StatisticsOf(data).median.value == 2.5
  {
    OfAscending(data);
  }

  /** Median parity, odd count: [1,2,3] has median 2. */
  lemma MedianOfOneToThree(data: seq<int>)
    requires data == [1, 2, 3]
    ensures StatisticsOf(data).median.value == 2.0
  {
    OfAscending(data);
  }

  /** Mode policy: [1,2,3] repeats nothing and has no mode. */
  lemma NoModeOfOneToThree(data: seq<int>)
    requires data == [1, 2, 3]
    ensures StatisticsOf(data).mode == []
  {
    assert AllDistinct(data);
    ModeEmptyIffAllDistinct(data);
  }

  /** Mode policy: in [1,1,2,3] only 1 repeats, so the mode is [1]. */
  lemma ModeOfRepeatedOne(data: seq<int>)
    requires data == [1, 1, 2, 3]
    ensures StatisticsOf(data).mode == [1]
  {
    SingleMode(data, 1);
  }

  /** Mode policy: in [1,1,2,2,3] both 1 and 2 occur twice, so the mode is [1,2]. */
  lemma TiedModes(data: seq<int>)
    requires data == [1, 1, 2, 2, 3]
    ensures StatisticsOf(data).mode == [1, 2]
  {
    TwoModes(data, 1, 2);
  }

  /** Quartile gating: three values have no quartiles. */
  lemma NoQuartilesOfOneToThree(data: seq<int>)
    requires data == [1, 2, 3]
    ensures StatisticsOf(data).q1.None? && StatisticsOf(data).q3.None? && StatisticsOf(data).iqr.None?
  {
    QuartileGate(data);
  }

  /** [1..8] given position by position, so that the record is not unfolded on a literal. */
  lemma QuartilesOfOneToEightAt(data: seq<int>)
    requires |data| == 8
    requires forall i :: 0 <= i < 8 ==> data[i] == i + 1
    ensures StatisticsOf(data).q1.value == 3
    ensures StatisticsOf(data).q3.value == 7
    ensures StatisticsOf(data).iqr.value == 4
  {
    assert Sorted(data);
    assert Q1Index(8) == 2 && Q3Index(8) == 6;
    AscendingQuartiles(data);
  }

  /** For [1..8] the floor-index quartiles are q1 = 3 and q3 = 7, so iqr = 4. */
  lemma QuartilesOfOneToEight(data: seq<int>)
    requires data == [1, 2, 3, 4, 5, 6, 7, 8]
    ensures StatisticsOf(data).q1.value == 3
    ensures StatisticsOf(data).q3.value == 7
    ensures StatisticsOf(data).iqr.value == 4
  {
    QuartilesOfOneToEightAt(data);
  }

  /** A single value: mean and median equal it, no spread and no mode. */
  lemma SingleValue(data: seq<int>)
    requires data == [5]
    ensures var s := StatisticsOf(data);
      && s.mean.value == 5.0 && s.median.value == 5.0
      && s.variance.value == 0.0 && s.standardDeviation.value.IsZero()
      && s.range.value == 0 && s.mode == []
  {
    ConstantData(data);
  }
}
