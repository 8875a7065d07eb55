/**
 * The visualization panel's own copies of the IQR and outlier computations,
 * and its handler that regenerates the dataset through the store.
 */
module VisualizationPanel {
  import opened Wrappers
  import opened Sorting
  import opened UseStats
  import opened UseStatsProperties
  import opened DataStore

  /** `calculateIQR`: no value below four data points, else `q3 - q1` read off a fresh sorted copy. */
  function CalculateIQR(data: seq<int>): (r: Option<int>)
    ensures r.None? <==> |data| < 4
    ensures r.Some? ==> r.value >= 0
  {
    if |data| < 4 then
      None
    else
      var sorted := SortedCopy(data);
      QuartilesAroundMedian(sorted);
      var q1 := sorted[Q1Index(|sorted|)];
      var q3 := sorted[Q3Index(|sorted|)];
      Some(q3 - q1)
  }

  /** `findOutliers`: nothing below four data points, else the values strictly outside the fences, in data order. */
  function FindOutliers(data: seq<int>): (r: seq<int>)
    ensures |data| < 4 ==> r == []
    ensures IsSubsequence(r, data)
  {
    if |data| < 4 then
      []
    else
      var sorted := SortedCopy(data);
      var q1 := sorted[Q1Index(|sorted|)];
      var q3 := sorted[Q3Index(|sorted|)];
      var iqr := q3 - q1;
      OutsideFences(data, LowerFence(q1, iqr), UpperFence(q3, iqr))
  }

  lemma SameIQR(data: seq<int>)
    ensures CalculateIQR(data) == InterquartileRange(SortedCopy(data))
  {
  }

  lemma FencesAgree(data: seq<int>, sorted: seq<int>)
    requires |sorted| >= 4
    ensures var q1, q3 := sorted[Q1Index(|sorted|)], sorted[Q3Index(|sorted|)];
      OutsideFences(data, LowerFence(q1, q3 - q1), UpperFence(q3, q3 - q1)) == Outliers(data, sorted)
  {
  }

  lemma NoFencesWhenShort(data: seq<int>, sorted: seq<int>)
    requires |sorted| < 4
    ensures Outliers(data, sorted) == []
  {
  }

  lemma SameOutliers(data: seq<int>)
    ensures FindOutliers(data) == Outliers(data, SortedCopy(data))
  {
    var sorted := SortedCopy(data);
    if |data| >= 4 {
      FencesAgree(data, sorted);
    } else {
      NoFencesWhenShort(data, sorted);
    }
  }

  /** The panel's IQR is the engine's `iqr` on the same data. */
  lemma CalculateIQRAgrees(data: seq<int>)
    ensures CalculateIQR(data) == StatisticsOf(data).iqr
  {
    EngineIQR(data);
    SameIQR(data);
  }

  /** The panel's outliers are the engine's `outliers` on the same data, element for element. */
  lemma FindOutliersAgrees(data: seq<int>)
    ensures FindOutliers(data) == StatisticsOf(data).outliers
  {
    EngineOutliers(data);
    SameOutliers(data);
  }

  /**
   * `handleGenerateData`: -1 only clears the data; any other count clears it
   * and then adds the drawn values one by one, which leaves exactly what
   * replacing the data with them would.
   */
  method HandleGenerateData(count: int, newData: seq<real>, store: Store)
    requires store.Valid()
    modifies store
    ensures count == -1 ==> store.data == []
    ensures count != -1 ==> store.data == ValidatedData(newData)
    ensures store.Valid()
  {
    if count == -1 {
      store.ClearData();
      return;
    }
    store.ClearData();
    for i := 0 to |newData|
      invariant store.Valid()
      invariant store.data == ValidatedData(newData[..i])
    {
      ValidatedDataExtend(newData[..i], newData[i]);
      assert newData[..i + 1] == newData[..i] + [newData[i]];
      store.AddCandy(newData[i]);
    }
    assert newData[..|newData|] == newData;
  }
}
