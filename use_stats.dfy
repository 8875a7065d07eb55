/**
 * The descriptive-statistics engine: the body of the `useStats` memo, a total
 * map from the current dataset to the Statistics record it returns.
 *
 * Numbers are exact: the dataset holds integers (the store rounds every value
 * before it gets here), and the mean, median, variance and outlier fences are
 * `real`. The standard deviation is kept symbolically as the square root of
 * the variance.
 */
module UseStats {
  import opened Wrappers
  import opened Sorting

  /** The non-negative square root of `radicand`, kept as a symbol. */
  datatype Root = SqrtOf(radicand: real) {
    predicate IsZero() { radicand == 0.0 }
  }

  /** The record the engine returns (its `sum` is not part of it; `outliers` is). */
  datatype Statistics = Statistics(
    count: nat,
    mean: Option<real>,
    median: Option<real>,
    mode: seq<int>,
    min: Option<int>,
    max: Option<int>,
    range: Option<int>,
    variance: Option<real>,
    standardDeviation: Option<Root>,
    q1: Option<int>,
    q3: Option<int>,
    iqr: Option<int>,
    outliers: seq<int>)

  /** The record for the empty dataset. */
  const NoData: Statistics :=
    Statistics(0, None, None, [], None, None, None, None, None, None, None, None, [])

  // ---------------------------------------------------------------- sums

  /** `data.reduce((acc, val) => acc + val, 0)`; integer addition is exact, so the fold order is immaterial. */
  function Sum(s: seq<int>): (total: int) {
    if s == [] then 0 else s[0] + Sum(s[1..])
  }

  /** `Math.pow(val - mean, 2)`. */
  function SquaredDeviation(val: int, mean: real): (r: real)
    ensures r >= 0.0
  {
    var d := val as real - mean;
    d * d
  }

  /** `data.reduce((acc, val) => acc + Math.pow(val - mean, 2), 0)`. */
  function SquaredDeviations(s: seq<int>, mean: real): (r: real)
    ensures r >= 0.0
  {
    if s == [] then 0.0 else SquaredDeviation(s[0], mean) + SquaredDeviations(s[1..], mean)
  }

  lemma {:induction false} SumInsert(x: int, t: seq<int>)
    requires Sorted(t)
    ensures Sum(Insert(x, t)) == x + Sum(t)
  {
    if t != [] && x > t[0] {
      SumInsert(x, t[1..]);
    }
  }

  lemma {:induction false} SumOfInsertionSort(s: seq<int>)
    ensures Sum(InsertionSort(s)) == Sum(s)
  {
    if s != [] {
      SumOfInsertionSort(s[1..]);
      SumInsert(s[0], InsertionSort(s[1..]));
    }
  }

  /** The sum depends only on which values occur how often, not on their order. */
  lemma SumOfPermutation(a: seq<int>, b: seq<int>)
    requires multiset(a) == multiset(b)
    ensures Sum(a) == Sum(b)
  {
    SumOfInsertionSort(a);
    SumOfInsertionSort(b);
    SortedUnique(InsertionSort(a), InsertionSort(b));
  }

  lemma {:induction false} SquaredDeviationsInsert(x: int, t: seq<int>, mean: real)
    requires Sorted(t)
    ensures SquaredDeviations(Insert(x, t), mean) == SquaredDeviation(x, mean) + SquaredDeviations(t, mean)
  {
    if t != [] && x > t[0] {
      SquaredDeviationsInsert(x, t[1..], mean);
    }
  }

  lemma {:induction false} SquaredDeviationsOfInsertionSort(s: seq<int>, mean: real)
    ensures SquaredDeviations(InsertionSort(s), mean) == SquaredDeviations(s, mean)
  {
    if s != [] {
      SquaredDeviationsOfInsertionSort(s[1..], mean);
      SquaredDeviationsInsert(s[0], InsertionSort(s[1..]), mean);
    }
  }

  /** The sum of squared deviations does not depend on the order of the data either. */
  lemma SquaredDeviationsOfPermutation(a: seq<int>, b: seq<int>, mean: real)
    requires multiset(a) == multiset(b)
    ensures SquaredDeviations(a, mean) == SquaredDeviations(b, mean)
  {
    SquaredDeviationsOfInsertionSort(a, mean);
    SquaredDeviationsOfInsertionSort(b, mean);
    SortedUnique(InsertionSort(a), InsertionSort(b));
  }

  // ---------------------------------------------------------------- median and quartiles

  /** The middle of a sorted sequence: the mean of the two central elements when the count is even. */
  function Median(sorted: seq<int>): (m: real)
    requires |sorted| > 0
  {
    var count := |sorted|;
    if count % 2 == 0 then
      (sorted[count / 2 - 1] + sorted[count / 2]) as real / 2.0
    else
      sorted[count / 2] as real
  }

  /** `Math.floor(count * 0.25)`. */
  function Q1Index(count: nat): (i: nat)
    ensures count > 0 ==> i < count
  {
    count / 4
  }

  /** `Math.floor(count * 0.75)`: a valid position at or after the lower one. */
  function Q3Index(count: nat): (i: nat)
    ensures Q1Index(count) <= i
    ensures count > 0 ==> i < count
  {
    3 * count / 4
  }

  // ---------------------------------------------------------------- mode

  /** The frequency table: each value of the data mapped to how often it occurs. */
  function Frequency(data: seq<int>): (table: map<int, nat>) {
    map v | v in data :: multiset(data)[v]
  }

  /** `Math.max(...Object.values(frequency))` over the table's keys `keys`. */
  function MaxFrequency(frequency: map<int, nat>, keys: seq<int>): (m: nat)
    requires forall i :: 0 <= i < |keys| ==> keys[i] in frequency
    ensures forall i :: 0 <= i < |keys| ==> frequency[keys[i]] <= m
    ensures keys != [] ==> exists i :: 0 <= i < |keys| && frequency[keys[i]] == m
  {
    if keys == [] then
      0
    else
      var rest := MaxFrequency(frequency, keys[1..]);
      if frequency[keys[0]] >= rest then
        frequency[keys[0]]
      else
        rest
  }

  /** The keys whose frequency equals `maxFreq`, provided `maxFreq > 1`, in the order of `keys`. */
  function KeysAtFrequency(frequency: map<int, nat>, keys: seq<int>, maxFreq: nat): (r: seq<int>)
    requires forall i :: 0 <= i < |keys| ==> keys[i] in frequency
    ensures forall v :: v in r <==> v in keys && frequency[v] == maxFreq && maxFreq > 1
    ensures StrictlyIncreasing(keys) ==> StrictlyIncreasing(r)
  {
    if keys == [] then
      []
    else
      var rest := KeysAtFrequency(frequency, keys[1..], maxFreq);
      if frequency[keys[0]] == maxFreq && maxFreq > 1 then
        assert StrictlyIncreasing(keys) ==> StrictlyIncreasing([keys[0]] + rest) by {
          if StrictlyIncreasing(keys) {
            forall v | v in rest ensures keys[0] < v {
              var k :| 1 <= k < |keys| && keys[k] == v;
            }
            StrictCons(keys[0], rest);
          }
        }
        [keys[0]] + rest
      else
        rest
  }

  /**
   * The mode: the keys of the frequency table taken in ascending order (the
   * distinct values of the sorted copy), kept when their frequency is the
   * highest one and that highest frequency exceeds 1.
   */
  function ModeOf(data: seq<int>): (mode: seq<int>) {
    var frequency := Frequency(data);
    var sorted := SortedCopy(data);
    SortedCopyInFrequency(data);
    var keys := Distinct(sorted);
    DistinctKeys(frequency, sorted);
    KeysAtFrequency(frequency, keys, TopCount(data))
  }

  /** `maxFreq`: the highest count in the frequency table (0 for no data). */
  function TopCount(data: seq<int>): (top: nat) {
    var frequency := Frequency(data);
    var sorted := SortedCopy(data);
    SortedCopyInFrequency(data);
    var keys := Distinct(sorted);
    DistinctKeys(frequency, sorted);
    MaxFrequency(frequency, keys)
  }

  lemma DistinctKeys(frequency: map<int, nat>, sorted: seq<int>)
    requires forall i :: 0 <= i < |sorted| ==> sorted[i] in frequency
    ensures forall i :: 0 <= i < |Distinct(sorted)| ==> Distinct(sorted)[i] in frequency
  {
    var keys := Distinct(sorted);
    forall i | 0 <= i < |keys| ensures keys[i] in frequency {
      assert keys[i] in keys;
      var j :| 0 <= j < |sorted| && sorted[j] == keys[i];
    }
  }

  /** Every value of the sorted copy is a key of the frequency table. */
  lemma SortedCopyInFrequency(data: seq<int>)
    ensures forall i :: 0 <= i < |SortedCopy(data)| ==> SortedCopy(data)[i] in Frequency(data)
  {
    var sorted := SortedCopy(data);
    forall i | 0 <= i < |sorted| ensures sorted[i] in Frequency(data) {
      assert sorted[i] in multiset(sorted);
    }
  }

  // ---------------------------------------------------------------- outliers

  /** The inner fences `q1 - 1.5 * iqr` and `q3 + 1.5 * iqr`. */
  function LowerFence(q1: int, iqr: int): (fence: real) { q1 as real - 1.5 * iqr as real }
  function UpperFence(q3: int, iqr: int): (fence: real) { q3 as real + 1.5 * iqr as real }

  /** Strictly outside the fences; a value on a fence is not an outlier. */
  predicate IsOutlier(v: int, lower: real, upper: real) {
    (v as real) < lower || (v as real) > upper
  }

  /** r is obtained from s by deleting elements (the rest keep their order). */
  predicate IsSubsequence(r: seq<int>, s: seq<int>)
    decreases |s|
  {
    if r == [] then true
    else if s == [] then false
    else (r[0] == s[0] && IsSubsequence(r[1..], s[1..])) || IsSubsequence(r, s[1..])
  }

  /** `data.filter(value => value < lowerBound || value > upperBound)`. */
  function OutsideFences(data: seq<int>, lower: real, upper: real): (r: seq<int>)
    ensures IsSubsequence(r, data)
  {
    if data == [] then
      []
    else
      var rest := OutsideFences(data[1..], lower, upper);
      if IsOutlier(data[0], lower, upper) then
        assert ([data[0]] + rest)[1..] == rest;
        [data[0]] + rest
      else
        rest
  }

  /** The filter keeps exactly the values outside the fences, each as often as it occurs in the data. */
  lemma {:induction false} OutsideFencesMeaning(data: seq<int>, lower: real, upper: real)
    ensures forall v :: v in OutsideFences(data, lower, upper) <==> v in data && IsOutlier(v, lower, upper)
    ensures forall v :: multiset(OutsideFences(data, lower, upper))[v] ==
              if IsOutlier(v, lower, upper) then multiset(data)[v] else 0
  {
    if data != [] {
      OutsideFencesMeaning(data[1..], lower, upper);
      assert data == [data[0]] + data[1..];
    }
  }

  // ---------------------------------------------------------------- the engine

  /** `max - min` of the sorted copy. */
  function Range(sorted: seq<int>): (r: int)
    requires |sorted| > 0
  {
    sorted[|sorted| - 1] - sorted[0]
  }

  /** `sum / count`. */
  function Mean(data: seq<int>): (m: real)
    requires data != []
  {
    Sum(data) as real / |data| as real
  }

  /** Population variance (divide by the count), and 0 for a single value. */
  function Variance(data: seq<int>): (v: real)
    requires data != []
  {
    if |data| > 1 then SquaredDeviations(data, Mean(data)) / |data| as real else 0.0
  }

  /** The lower quartile `sorted[Math.floor(count * 0.25)]`, computed only from four values on. */
  function LowerQuartile(sorted: seq<int>): (q1: Option<int>) {
    if |sorted| >= 4 then Some(sorted[Q1Index(|sorted|)]) else None
  }

  /** The upper quartile `sorted[Math.floor(count * 0.75)]`, computed only from four values on. */
  function UpperQuartile(sorted: seq<int>): (q3: Option<int>) {
    if |sorted| >= 4 then Some(sorted[Q3Index(|sorted|)]) else None
  }

  /** `q3 - q1` when both quartiles exist. */
  function InterquartileRange(sorted: seq<int>): (iqr: Option<int>) {
    if |sorted| >= 4 then Some(UpperQuartile(sorted).value - LowerQuartile(sorted).value) else None
  }

  /** The values of data outside the fences, when the quartiles exist. */
  function Outliers(data: seq<int>, sorted: seq<int>): (r: seq<int>) {
    var q1, q3, iqr := LowerQuartile(sorted), UpperQuartile(sorted), InterquartileRange(sorted);
    if q1.Some? && q3.Some? && iqr.Some? then
      OutsideFences(data, LowerFence(q1.value, iqr.value), UpperFence(q3.value, iqr.value))
    else
      []
  }

  /** The Statistics record `useStats` builds for `data`. */
  function StatisticsOf(data: seq<int>): (stats: Statistics) {
    if |data| == 0 then
      NoData
    else
      var sorted := SortedCopy(data);
      var count := |data|;
      Statistics(count, Some(Mean(data)), Some(Median(sorted)), ModeOf(data),
                 Some(sorted[0]), Some(sorted[count - 1]), Some(Range(sorted)),
                 Some(Variance(data)), Some(SqrtOf(Variance(data))),
                 LowerQuartile(sorted), UpperQuartile(sorted), InterquartileRange(sorted),
                 Outliers(data, sorted))
  }

  /** The `forEach` that fills the frequency table. */
  method CountFrequencies(data: seq<int>) returns (frequency: map<int, nat>)
    ensures forall v :: v in frequency <==> v in data
    ensures forall v :: v in frequency ==> frequency[v] == multiset(data)[v]
    ensures frequency == Frequency(data)
  {
    frequency := map[];
    for i := 0 to |data|
      invariant forall v :: v in frequency <==> v in data[..i]
      invariant forall v :: v in frequency ==> frequency[v] == multiset(data[..i])[v]
    {
      var val := data[i];
      assert data[..i + 1] == data[..i] + [val];
      frequency := frequency[val := (if val in frequency then frequency[val] else 0) + 1];
    }
    assert data[..|data|] == data;
    assert forall v :: v in frequency <==> v in Frequency(data);
  }

  /** The "Calculate median" block of `useStats`. */
  method CalculateMedian(sortedData: seq<int>) returns (median: real)
    requires |sortedData| > 0
    ensures median == Median(sortedData)
  {
    var count := |sortedData|;
    if count % 2 == 0 {
      median := (sortedData[count / 2 - 1] + sortedData[count / 2]) as real / 2.0;
    } else {
      median := sortedData[count / 2] as real;
    }
  }

  /**
   * The "Calculate mode" block of `useStats`: fill the frequency table, take
   * its highest count, keep the keys at that count (if it exceeds 1), ascending.
   */
  method CalculateMode(data: seq<int>, sortedData: seq<int>) returns (mode: seq<int>)
    requires sortedData == SortedCopy(data)
    ensures mode == ModeOf(data)
  {
    var frequency := CountFrequencies(data);
    SortedCopyInFrequency(data);
    var keys := Distinct(sortedData);
    DistinctKeys(frequency, sortedData);
    var maxFreq := MaxFrequency(frequency, keys);
    mode := KeysAtFrequency(frequency, keys, maxFreq);
  }

  /** The "Calculate quartiles and IQR" block of `useStats`. */
  method CalculateQuartiles(sortedData: seq<int>) returns (q1: Option<int>, q3: Option<int>, iqr: Option<int>)
    ensures q1 == LowerQuartile(sortedData) && q3 == UpperQuartile(sortedData)
    ensures iqr == InterquartileRange(sortedData)
  {
    var count := |sortedData|;
    q1, q3, iqr := None, None, None;
    if count >= 4 {
      var q1Index := count / 4;
      var q3Index := 3 * count / 4;
      q1 := Some(sortedData[q1Index]);
      q3 := Some(sortedData[q3Index]);
      iqr := Some(q3.value - q1.value);
    }
  }

  /** The "Find outliers using IQR method" block of `useStats`. */
  method FindOutliers(data: seq<int>, q1: Option<int>, q3: Option<int>, iqr: Option<int>) returns (outliers: seq<int>)
    ensures q1.Some? && q3.Some? && iqr.Some? ==>
              outliers == OutsideFences(data, LowerFence(q1.value, iqr.value), UpperFence(q3.value, iqr.value))
    ensures q1.None? || q3.None? || iqr.None? ==> outliers == []
  {
    outliers := [];
    if q1.Some? && q3.Some? && iqr.Some? {
      var lowerBound := LowerFence(q1.value, iqr.value);
      var upperBound := UpperFence(q3.value, iqr.value);
      outliers := OutsideFences(data, lowerBound, upperBound);
    }
  }

  /** The record of non-empty data, field by field, in terms of its sorted copy. */
  lemma StatisticsOfParts(data: seq<int>, sorted: seq<int>)
    requires data != [] && sorted == SortedCopy(data)
    ensures StatisticsOf(data) ==
      Statistics(|data|, Some(Mean(data)), Some(Median(sorted)), ModeOf(data), Some(sorted[0]), Some(sorted[|data| - 1]),
                 Some(Range(sorted)), Some(Variance(data)), Some(SqrtOf(Variance(data))),
                 LowerQuartile(sorted), UpperQuartile(sorted), InterquartileRange(sorted), Outliers(data, sorted))
  {
  }

  /** The memo body of `useStats`, block by block. */
  method UseStats(data: seq<int>) returns (stats: Statistics)
    ensures stats == StatisticsOf(data)
  {
    if |data| == 0 {
      return NoData;
    }
    var sortedData := SortedCopy(data);
    var count := |data|;
    var mean := Mean(data);

    var median := CalculateMedian(sortedData);

    var mode := CalculateMode(data, sortedData);

    var min := sortedData[0];
    var max := sortedData[count - 1];
    var range := max - min;
    assert range == Range(sortedData) by { assert min == sortedData[0] && max == sortedData[|sortedData| - 1]; }

    var variance := Variance(data);
    var standardDeviation := SqrtOf(variance);

    var q1, q3, iqr := CalculateQuartiles(sortedData);

    var outliers := FindOutliers(data, q1, q3, iqr);

    stats := Statistics(count, Some(mean), Some(median), mode, Some(min), Some(max), Some(range),
                        Some(variance), Some(standardDeviation), q1, q3, iqr, outliers);
    StatisticsOfParts(data, sortedData);

  }
}
