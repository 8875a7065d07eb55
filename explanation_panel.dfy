/**
 * The explanation panel's outlier count. Its `findOutliers` reuses the
 * quartiles of the statistics record but guards them with JavaScript
 * truthiness, so a quartile or IQR equal to 0 is treated like a missing one.
 */
module ExplanationPanel {
  import opened Wrappers
  import opened Sorting
  import opened UseStats
  import opened UseStatsProperties

  /** JavaScript truthiness of a nullable number: null and 0 are falsy. */
  predicate Truthy(x: Option<int>) {
    x.Some? && x.value != 0
  }

  /** `findOutliers` as written: nothing below four values or when q1, q3 or iqr is falsy. */
  function FindOutliers(data: seq<int>, stats: Statistics): (r: seq<int>)
    ensures |data| < 4 ==> r == []
    ensures !Truthy(stats.q1) || !Truthy(stats.q3) || !Truthy(stats.iqr) ==> r == []
    ensures IsSubsequence(r, data)
  {
    if |data| < 4 || !Truthy(stats.q1) || !Truthy(stats.q3) || !Truthy(stats.iqr) then
      []
    else
      OutsideFences(data, LowerFence(stats.q1.value, stats.iqr.value), UpperFence(stats.q3.value, stats.iqr.value))
  }

  /** The "Outliers" tile: the number of values `findOutliers` returns. */
  function OutlierCount(data: seq<int>, stats: Statistics): (n: nat)
    ensures n <= |data|
  {
    SubsequenceNotLonger(FindOutliers(data, stats), data);
    |FindOutliers(data, stats)|
  }

  /** `findOutliers` with the evident intent: skip only when a quartile or the IQR is missing. */
  function FindOutliersIntended(data: seq<int>, stats: Statistics): (r: seq<int>)
    ensures |data| < 4 || stats.q1.None? || stats.q3.None? || stats.iqr.None? ==> r == []
    ensures IsSubsequence(r, data)
  {
    if |data| < 4 || stats.q1.None? || stats.q3.None? || stats.iqr.None? then
      []
    else
      OutsideFences(data, LowerFence(stats.q1.value, stats.iqr.value), UpperFence(stats.q3.value, stats.iqr.value))
  }

  /** With every guard value nonzero, the two versions agree on any record. */
  lemma GuardsAgree(data: seq<int>, stats: Statistics)
    requires Truthy(stats.q1) && Truthy(stats.q3) && Truthy(stats.iqr)
    ensures FindOutliers(data, stats) == FindOutliersIntended(data, stats)
  {
  }

  /** On the record the engine builds for the same data, the intended version gives exactly the engine's outliers. */
  lemma IntendedAgrees(data: seq<int>)
    ensures FindOutliersIntended(data, StatisticsOf(data)) == StatisticsOf(data).outliers
  {
    EngineOutliers(data);
  }

  /**
   * As written, the panel shows the engine's outliers whenever q1, q3 and the
   * IQR of the record are nonzero, and none at all otherwise.
   */
  lemma AgreesWhenTruthy(data: seq<int>)
    ensures var s := StatisticsOf(data);
      Truthy(s.q1) && Truthy(s.q3) && Truthy(s.iqr) ==> FindOutliers(data, s) == s.outliers
    ensures var s := StatisticsOf(data);
      !(Truthy(s.q1) && Truthy(s.q3) && Truthy(s.iqr)) ==> FindOutliers(data, s) == []
  {
    var s := StatisticsOf(data);
    if Truthy(s.q1) && Truthy(s.q3) && Truthy(s.iqr) {
      GuardsAgree(data, s);
      IntendedAgrees(data);
    }
  }

  /** The displayed count is the number of engine outliers when the guard values are nonzero. */
  lemma OutlierCountAgrees(data: seq<int>)
    ensures var s := StatisticsOf(data);
      Truthy(s.q1) && Truthy(s.q3) && Truthy(s.iqr) ==> OutlierCount(data, s) == |s.outliers|
  {
    AgreesWhenTruthy(data);
  }

  lemma FilterFlat(data: seq<int>)
    requires data == [5, 5, 5, 5, 100]
    ensures OutsideFences(data, 5.0, 5.0) == [100]
  {
    OutsideFencesCons(100, [], 5.0, 5.0);
    OutsideFencesCons(5, [100], 5.0, 5.0);
    OutsideFencesCons(5, [5, 100], 5.0, 5.0);
    OutsideFencesCons(5, [5, 5, 100], 5.0, 5.0);
    OutsideFencesCons(5, [5, 5, 5, 100], 5.0, 5.0);
  }

  lemma FilterAroundZero(data: seq<int>)
    requires data == [-10, 0, 1, 2, 100]
    ensures OutsideFences(data, -3.0, 5.0) == [-10, 100]
  {
    OutsideFencesCons(100, [], -3.0, 5.0);
    OutsideFencesCons(2, [100], -3.0, 5.0);
    OutsideFencesCons(1, [2, 100], -3.0, 5.0);
    OutsideFencesCons(0, [1, 2, 100], -3.0, 5.0);
    OutsideFencesCons(-10, [0, 1, 2, 100], -3.0, 5.0);
  }

  /** The quartiles of [5,5,5,5,100], stated position by position so that the record is not unfolded on a literal. */
  lemma FlatQuartilesAt(data: seq<int>)
    requires |data| == 5 && data[0] == 5 && data[1] == 5 && data[2] == 5 && data[3] == 5 && data[4] == 100
    ensures var s := StatisticsOf(data);
      s.q1.Some? && s.q1.value == 5 && s.q3.Some? && s.q3.value == 5 && s.iqr.Some? && s.iqr.value == 0
  {
    assert Sorted(data);
    AscendingQuartiles(data);
  }

  lemma FlatQuartiles(data: seq<int>)
    requires data == [5, 5, 5, 5, 100]
    ensures var s := StatisticsOf(data);
      s.q1.Some? && s.q1.value == 5 && s.q3.Some? && s.q3.value == 5 && s.iqr.Some? && s.iqr.value == 0
  {
    FlatQuartilesAt(data);
  }

  lemma FlatOutliers(data: seq<int>)
    requires data == [5, 5, 5, 5, 100]
    ensures StatisticsOf(data).outliers == [100]
  {
    FlatQuartiles(data);
    RecordFences(data);
    FilterFlat(data);
  }

  /**
   * [5,5,5,5,100]: q1 = q3 = 5, so the IQR is 0 and both fences sit at 5; the
   * engine reports 100 as an outlier, but the panel's guard drops it.
   */
  lemma ZeroIqrHidesOutliers(data: seq<int>)
    requires data == [5, 5, 5, 5, 100]
    ensures StatisticsOf(data).iqr.value == 0
    ensures StatisticsOf(data).outliers == [100]
    ensures FindOutliers(data, StatisticsOf(data)) == []
  {
    FlatQuartiles(data);
    FlatOutliers(data);
  }

  /** The quartiles of [-10,0,1,2,100], stated position by position. */
  lemma AroundZeroQuartilesAt(data: seq<int>)
    requires |data| == 5 && data[0] == -10 && data[1] == 0 && data[2] == 1 && data[3] == 2 && data[4] == 100
    ensures var s := StatisticsOf(data);
      s.q1.Some? && s.q1.value == 0 && s.q3.Some? && s.q3.value == 2 && s.iqr.Some? && s.iqr.value == 2
  {
    assert Sorted(data);
    AscendingQuartiles(data);
  }

  lemma AroundZeroQuartiles(data: seq<int>)
    requires data == [-10, 0, 1, 2, 100]
    ensures var s := StatisticsOf(data);
      s.q1.Some? && s.q1.value == 0 && s.q3.Some? && s.q3.value == 2 && s.iqr.Some? && s.iqr.value == 2
  {
    AroundZeroQuartilesAt(data);
  }

  lemma AroundZeroOutliers(data: seq<int>)
    requires data == [-10, 0, 1, 2, 100]
    ensures StatisticsOf(data).outliers == [-10, 100]
  {
    AroundZeroQuartiles(data);
    RecordFences(data);
    FilterAroundZero(data);
  }

  /**
   * [-10,0,1,2,100]: q1 = 0, q3 = 2 and the fences are -3 and 5; the engine
   * reports -10 and 100, but the panel's guard treats q1 = 0 as missing.
   */
  lemma ZeroQ1HidesOutliers(data: seq<int>)
    requires data == [-10, 0, 1, 2, 100]
    ensures StatisticsOf(data).q1.value == 0
    ensures StatisticsOf(data).outliers == [-10, 100]
    ensures FindOutliers(data, StatisticsOf(data)) == []
  {
    AroundZeroQuartiles(data);
    AroundZeroOutliers(data);
  }
}
