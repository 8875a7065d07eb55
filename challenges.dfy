/**
 * The learning challenges of `useChallenges`: four fixed goals, each a test
 * on the statistics record, a current index that cycles through them, and
 * the list of ids completed so far. A challenge is only offered once the
 * dataset holds at least three values.
 */
module Challenges {
  import opened Wrappers
  import opened Sorting
  import opened UseStats
  import opened UseStatsProperties

  /** The test a challenge applies to the statistics record. */
  datatype Check =
    | MeanWithin(mean: real, tolerance: real)
    | MedianEquals(median: real)
    | ModeNonEmpty
    | RangeEquals(range: int)

  /** A challenge: its id and its completion test (title, description and difficulty are display text). */
  datatype Challenge = Challenge(id: string, check: Check)

  /** The challenges in the order they are offered. */
  const ChallengeList: seq<Challenge> := [
    Challenge("mean-5", MeanWithin(5.0, 0.1)),
    Challenge("median-7", MedianEquals(7.0)),
    Challenge("mode-exists", ModeNonEmpty),
    Challenge("range-10", RangeEquals(10))
  ]

  function Abs(x: real): (r: real) { if x < 0.0 then -x else x }

  /** `checkComplete`: a missing mean, median or range never completes a challenge. */
  predicate Complete(check: Check, stats: Statistics) {
    match check
    case MeanWithin(mean, tolerance) => stats.mean.Some? && Abs(stats.mean.value - mean) < tolerance
    case MedianEquals(median) => stats.median.Some? && stats.median.value == median
    case ModeNonEmpty => |stats.mode| > 0
    case RangeEquals(range) => stats.range.Some? && stats.range.value == range
  }

  // ------------------------------------------------------------ the four tests on data

  /** A quotient strictly between two bounds, read as products with a positive divisor. */
  lemma QuotientWithin(sum: real, n: real, lo: real, hi: real)
    requires n > 0.0
    ensures lo < sum / n < hi <==> lo * n < sum < hi * n
  {
    var q := sum / n;
    assert q * n == sum;
    if lo < q {
      assert lo * n < q * n;
    }
    if q < hi {
      assert q * n < hi * n;
    }
    if lo * n < sum {
      assert lo * n < q * n;
    }
    if sum < hi * n {
      assert q * n < hi * n;
    }
  }

  /** What each of the four tests reads off the record. */
  lemma ChallengeTests(stats: Statistics)
    ensures Complete(ChallengeList[0].check, stats) <==> stats.mean.Some? && Abs(stats.mean.value - 5.0) < 0.1
    ensures Complete(ChallengeList[1].check, stats) <==> stats.median.Some? && stats.median.value == 7.0
    ensures Complete(ChallengeList[2].check, stats) <==> |stats.mode| > 0
    ensures Complete(ChallengeList[3].check, stats) <==> stats.range.Some? && stats.range.value == 10
  {
  }

  /** The mean is within 0.1 of 5 exactly when the sum lies strictly between 4.9 and 5.1 times the count. */
  lemma MeanNearFive(data: seq<int>)
    requires data != []
    ensures Abs(Mean(data) - 5.0) < 0.1 <==> 49 * |data| < 10 * Sum(data) < 51 * |data|
  {
    var n := |data| as real;
    var sum := Sum(data) as real;
    QuotientWithin(sum, n, 4.9, 5.1);
  }

  /**
   * "mean-5" is complete exactly when the data is non-empty and its sum lies
   * strictly between 4.9 and 5.1 times its count.
   */
  lemma MeanChallenge(data: seq<int>)
    ensures Complete(ChallengeList[0].check, StatisticsOf(data)) <==>
      data != [] && 49 * |data| < 10 * Sum(data) < 51 * |data|
  {
    ChallengeTests(StatisticsOf(data));
    if data != [] {
      CountAndMean(data);
      MeanNearFive(data);
    }
  }

  /**
   * A mean of exactly 4.9 or 5.1 lies on the boundary: with exact arithmetic
   * it is not within 0.1 of 5, so "mean-5" is not complete for such data.
   */
  lemma MeanOnBoundary(data: seq<int>)
    requires data != []
    requires 10 * Sum(data) == 49 * |data| || 10 * Sum(data) == 51 * |data|
    ensures StatisticsOf(data).mean.Some?
    ensures StatisticsOf(data).mean.value == 4.9 || StatisticsOf(data).mean.value == 5.1
    ensures !Complete(ChallengeList[0].check, StatisticsOf(data))
  {
    CountAndMean(data);
    MeanChallenge(data);
    var q := if 10 * Sum(data) == 49 * |data| then 4.9 else 5.1;
    QuotientIs(Sum(data) as real, |data| as real, q);
  }

  /** A quotient whose numerator is q times its positive divisor is q. */
  lemma QuotientIs(sum: real, n: real, q: real)
    requires n > 0.0 && sum == q * n
    ensures sum / n == q
  {
    assert (sum / n) * n == q * n;
  }

  /** The median of sorted data is 7 exactly when its middle value is 7, or its two middle values add up to 14. */
  lemma MedianSeven(sorted: seq<int>)
    requires sorted != []
    ensures Median(sorted) == 7.0 <==>
      var n := |sorted|;
      if n % 2 == 0 then sorted[n / 2 - 1] + sorted[n / 2] == 14 else sorted[n / 2] == 7
  {
  }

  /** The record's median is 7 exactly when the sorted middle value is 7, or the two middle values add up to 14. */
  lemma MedianOfData(data: seq<int>)
    requires data != []
    ensures StatisticsOf(data).median.Some?
    ensures StatisticsOf(data).median.value == 7.0 <==>
      var sorted, n := SortedCopy(data), |data|;
      if n % 2 == 0 then sorted[n / 2 - 1] + sorted[n / 2] == 14 else sorted[n / 2] == 7
  {
    MedianProperties(data);
    MedianSeven(SortedCopy(data));
  }

  /**
   * "median-7" is complete exactly when the data is non-empty and the middle
   * value of the sorted data is 7 (odd count) or the two middle values add up
   * to 14 (even count).
   */
  lemma MedianChallenge(data: seq<int>)
    ensures Complete(ChallengeList[1].check, StatisticsOf(data)) <==>
      data != [] &&
      var sorted, n := SortedCopy(data), |data|;
      if n % 2 == 0 then sorted[n / 2 - 1] + sorted[n / 2] == 14 else sorted[n / 2] == 7
  {
    ChallengeTests(StatisticsOf(data));
    if data == [] {
      EmptyData();
    } else {
      MedianOfData(data);
    }
  }

  /** When "median-7" is complete, 7 lies between the smallest and the largest value. */
  lemma MedianChallengeBounds(data: seq<int>)
    requires Complete(ChallengeList[1].check, StatisticsOf(data))
    ensures data != [] && StatisticsOf(data).min.value <= 7 <= StatisticsOf(data).max.value
  {
    ChallengeTests(StatisticsOf(data));
    if data == [] {
      EmptyData();
      assert false;
    } else {
      MedianProperties(data);
    }
  }

  /** "mode-exists" is complete exactly when some value occurs at two positions of the data. */
  lemma ModeChallenge(data: seq<int>)
    ensures Complete(ChallengeList[2].check, StatisticsOf(data)) <==>
      exists i, j :: 0 <= i < j < |data| && data[i] == data[j]
  {
    ChallengeTests(StatisticsOf(data));
    ModeEmptyIffAllDistinct(data);
  }

  /** Values of the data 10 apart with every value between them exist exactly when max - min is 10. */
  lemma SpanTen(data: seq<int>, min: int, max: int)
    requires min in data && max in data && forall v :: v in data ==> min <= v <= max
    ensures max - min == 10 <==>
      exists lo, hi :: lo in data && hi in data && hi - lo == 10 && forall v :: v in data ==> lo <= v <= hi
  {
    if exists lo, hi :: lo in data && hi in data && hi - lo == 10 && forall v :: v in data ==> lo <= v <= hi {
      var lo, hi :| lo in data && hi in data && hi - lo == 10 && forall v :: v in data ==> lo <= v <= hi;
      assert lo <= min <= lo;
      assert hi <= max <= hi;
    }
  }

  /** On non-empty data the range is defined, and it is 10 exactly when two values 10 apart enclose all the others. */
  lemma RangeTen(data: seq<int>)
    requires data != []
    ensures var s := StatisticsOf(data);
      s.range.Some? &&
      (s.range.value == 10 <==>
        exists lo, hi :: lo in data && hi in data && hi - lo == 10 && forall v :: v in data ==> lo <= v <= hi)
  {
    MinMaxRange(data);
    var s := StatisticsOf(data);
    SpanTen(data, s.min.value, s.max.value);
  }

  /**
   * "range-10" is complete exactly when the data holds two values 10 apart
   * with every value between them.
   */
  lemma RangeChallenge(data: seq<int>)
    ensures Complete(ChallengeList[3].check, StatisticsOf(data)) <==>
      exists lo, hi :: lo in data && hi in data && hi - lo == 10 && forall v :: v in data ==> lo <= v <= hi
  {
    ChallengeTests(StatisticsOf(data));
    if data == [] {
      EmptyData();
    } else {
      RangeTen(data);
    }
  }

  // ------------------------------------------------------------ which challenge is shown

  /** The hook's `currentChallenge`: none before three values; `undefined` for an index off the list. */
  function CurrentChallenge(index: int, stats: Statistics): (r: Option<Challenge>)
    ensures stats.count < 3 ==> r.None?
    ensures r.Some? ==> r.value in ChallengeList
  {
    if stats.count >= 3 && 0 <= index < |ChallengeList| then Some(ChallengeList[index]) else None
  }

  /** For an index on the list, a challenge is shown exactly when the dataset holds three values or more. */
  lemma ShownFromThreeValues(index: int, data: seq<int>)
    requires 0 <= index < |ChallengeList|
    ensures CurrentChallenge(index, StatisticsOf(data)).Some? <==> |data| >= 3
  {
    if data == [] {
      EmptyData();
    } else {
      CountAndMean(data);
    }
  }

  /** `nextChallenge`'s update of the index: one on, and back to the first after the last. */
  function NextIndex(index: int): (r: int)
    ensures 0 <= index < |ChallengeList| ==> 0 <= r < |ChallengeList|
  {
    if index < |ChallengeList| - 1 then index + 1 else 0
  }

  /** The index after `k` calls of `nextChallenge`. */
  function Advance(index: int, k: nat): (i: int)
    decreases k
  {
    if k == 0 then index else Advance(NextIndex(index), k - 1)
  }

  /** `k` calls move a valid index `k` places on, counted modulo the number of challenges. */
  lemma {:induction false} AdvanceModulo(index: int, k: nat)
    requires 0 <= index < |ChallengeList|
    ensures Advance(index, k) == (index + k) % |ChallengeList|
    decreases k
  {
    if k > 0 {
      AdvanceModulo(NextIndex(index), k - 1);
    }
  }

  /** Cycling never skips a challenge: from any valid index, each challenge comes up within four calls. */
  lemma EveryChallengeComesUp(index: int, target: int)
    requires 0 <= index < |ChallengeList| && 0 <= target < |ChallengeList|
    ensures var k := (target - index) % |ChallengeList|; k < |ChallengeList| && Advance(index, k) == target
  {
    var k := (target - index) % |ChallengeList|;
    AdvanceModulo(index, k);
  }

  /** The state of `useChallenges`. */
  class Tracker {
    var currentChallengeIndex: int
    var completedChallenges: seq<string>

    /** The index always names a challenge. */
    ghost predicate Valid()
      reads this
    {
      0 <= currentChallengeIndex < |ChallengeList|
    }

    /** The first challenge, nothing completed. */
    constructor ()
      ensures currentChallengeIndex == 0 && completedChallenges == [] && Valid()
    {
      currentChallengeIndex := 0;
      completedChallenges := [];
    }

    /**
     * `completeChallenge`: appends the current challenge's id, even when it is
     * already listed and whatever the size of the dataset; the index is kept.
     * An index off the list (no current challenge) changes nothing.
     */
    method CompleteChallenge()
      modifies this
      ensures currentChallengeIndex == old(currentChallengeIndex)
      ensures Valid() ==> completedChallenges == old(completedChallenges) + [ChallengeList[currentChallengeIndex].id]
      ensures !Valid() ==> completedChallenges == old(completedChallenges)
    {
      if 0 <= currentChallengeIndex < |ChallengeList| {
        completedChallenges := completedChallenges + [ChallengeList[currentChallengeIndex].id];
      }
    }

    /** `nextChallenge`: the index moves one on, cyclically; completed ids are kept. */
    method NextChallenge()
      requires Valid()
      modifies this
      ensures currentChallengeIndex == NextIndex(old(currentChallengeIndex)) && Valid()
      ensures completedChallenges == old(completedChallenges)
    {
      currentChallengeIndex := NextIndex(currentChallengeIndex);
    }
  }
}
