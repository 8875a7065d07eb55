# Statistics engine of the candy-drop statistics app, in Dafny

The app teaches descriptive statistics. The learner drops numbered "candies"
onto a canvas. A hook, `useStats`, turns the current list of numbers into a
record with these fields: count, mean, median, mode, min, max, range,
variance, standard deviation, first and third quartile, IQR and outliers.
Several panels read that record. Some of them recompute parts of it
themselves.

This project models the following parts:

- **`useStats`** (`use_stats.dfy`). It is a specification function
  `StatisticsOf` plus the hook's memo body written block by block as
  methods: the frequency-table loop, median, mode, quartiles and outliers.
  Each method is proved equal to the specification.
  - `use_stats_properties.dfy` proves what the record means: bounds,
    characterisations, permutation invariance, and worked examples.
  - `sorting.dfy` holds the sorted copy `[...data].sort((a, b) => a - b)`.
    It is defined as the one ascending rearrangement of the data; an
    insertion sort shows that it exists, and a uniqueness lemma shows that
    there is only one. The file also holds the ascending list of distinct
    keys used for the mode.
- **`useDataStore`** (`data_store.dfy`). The dataset is a class `Store` with a
  `seq<int>` field and four callbacks. The callbacks are proved to follow a
  pure transition function `Apply`. Any sequence of operations is proved to
  keep the list at no more than 50 values, each a whole number in
  [-1000, 1000].
- **`ControlPanel.handleAddData`** (`control_panel.dfy`). These are the range
  check and the size check, with their exact messages.
- **`VisualizationPanel`** (`visualization_panel.dfy`). `calculateIQR` and
  `findOutliers` recompute the quartiles themselves. They are proved to agree
  with the engine on every input. `handleGenerateData` is proved to leave
  the store empty (count -1) or holding the validated generated values.
- **`ExplanationPanel`** (`explanation_panel.dfy`). Its `findOutliers` and the
  "Outliers" count it feeds are modelled as written, next to the intended
  version (see Findings).
- **`useChallenges`** (`challenges.dfy`):
  - the four completion tests, each characterised directly on the data;
  - the `count >= 3` gate;
  - the cyclic challenge index;
  - the list of completed ids.
- **`useTutorial`** and **`useOnboarding`** (`use_tutorial.dfy`,
  `use_onboarding.dfy`). Each is a step counter with an active flag. Each is
  a transition function proved about over any sequence of callbacks, plus a
  class performing the same updates in place.

Numbers are modelled as follows:

- The store only ever holds whole numbers, because it rounds and clamps on
  entry. Data is therefore `seq<int>`.
- Mean, median, variance and the outlier fences are exact rationals (`real`).
- The standard deviation is kept as the symbolic square root of the variance
  (`SqrtOf(variance)`).
- `Math.round` is `floor(x + 0.5)`.
- `Math.floor(count * 0.25)` and `Math.floor(count * 0.75)` are `count / 4`
  and `3 * count / 4` on naturals.

## Model

| member | source | states |
|---|---|---|
| UseStats.UseStats | src/hooks/useStats.ts:4-95 | The memo body, block by block, returns exactly `StatisticsOf(data)`. |
| UseStats.CountFrequencies | src/hooks/useStats.ts:38-41 | The `forEach` loop builds a table whose keys are exactly the values of the data and whose entries are their multiplicities. |
| UseStats.CalculateMedian | src/hooks/useStats.ts:30-35 | The median block computes `Median(sorted)`; its meaning is stated by MedianProperties. |
| UseStats.CalculateMode | src/hooks/useStats.ts:37-46 | The mode block, from the frequency table, the top count and the key filter, returns `ModeOf(data)`; its meaning is stated by ModeProperties. |
| UseStats.CalculateQuartiles | src/hooks/useStats.ts:58-69 | The quartile block yields the gated quartiles and IQR; see QuartileGate and QuartileOrder. |
| UseStats.FindOutliers | src/hooks/useStats.ts:71-77 | With all three of q1, q3 and iqr present, the result is the filter by the fences `q1 - 1.5·iqr` and `q3 + 1.5·iqr`; otherwise it is empty. |
| UseStats.OutsideFences | src/hooks/useStats.ts:76 | The filter keeps a subsequence of the data. |
| UseStats.OutsideFencesMeaning | src/hooks/useStats.ts:76 | A value is in the filter's result iff it is in the data and strictly outside the fences, and it occurs there exactly as often as in the data. |
| UseStats.SumOfPermutation | src/hooks/useStats.ts:26 | The sum depends only on the multiset of the data. |
| UseStats.SquaredDeviationsOfPermutation | src/hooks/useStats.ts:54 | The sum of squared deviations depends only on the multiset of the data. |
| UseStats.MaxFrequency | src/hooks/useStats.ts:42 | The result is the largest count in the table: every listed key's count is at most it, and it is attained when keys are listed. |
| UseStats.KeysAtFrequency | src/hooks/useStats.ts:43-46 | The result keeps exactly the listed keys whose count equals the top count, when that count exceeds 1; ascending keys give an ascending result. |
| UseStats.DistinctKeys | src/hooks/useStats.ts:43 | Every distinct value of the sorted copy is a key of the frequency table. |
| UseStats.SortedCopyInFrequency | src/hooks/useStats.ts:39-43 | Every value of the sorted copy is a key of the frequency table. |
| Sorting.SortedCopy | src/hooks/useStats.ts:24 | The copy is sorted ascending and is a permutation of the data (same multiset, same length). |
| Sorting.InsertionSort | src/hooks/useStats.ts:24 | Insertion sort returns an ascending permutation of its input, so a sorted copy always exists. |
| Sorting.SortedHeads | src/hooks/useStats.ts:24 | Two sorted arrangements of the same values start with the same element. |
| Sorting.SortedUnique | src/hooks/useStats.ts:24 | Two sorted sequences with the same multiset are equal, so the sorted copy depends only on the multiset. |
| Sorting.SortedCopyOfSorted | src/hooks/useStats.ts:24 | Sorting data that is already sorted returns it unchanged. |
| Sorting.SortedCopyOfPermutation | src/hooks/useStats.ts:24 | Permutations of each other have the same sorted copy. |
| Sorting.SortedBounds | src/hooks/useStats.ts:48-49 | Every value of the data lies between the first and the last element of a sorted arrangement of it. |
| Sorting.Distinct | src/hooks/useStats.ts:43-46 | For sorted input, the result is strictly increasing and has exactly the same values. |
| UseStatsProperties.EmptyData | src/hooks/useStats.ts:6-22 | The empty dataset has count 0, every numeric field null, and empty mode and outliers. |
| UseStatsProperties.CountAndMean | src/hooks/useStats.ts:24-27 | The count is the length of the data; the mean is sum/count and lies between min and max. |
| UseStatsProperties.MedianProperties | src/hooks/useStats.ts:29-35 | The median is that of the sorted copy and lies between min and max. |
| UseStatsProperties.MedianBetween | src/hooks/useStats.ts:30-35 | For either parity, the median of a sorted list lies between its first and last elements. |
| UseStatsProperties.ModeProperties | src/hooks/useStats.ts:37-46 | A value is a mode iff it occurs more than once and no value occurs more often. The modes are strictly ascending. There is no mode iff all values are distinct. |
| UseStatsProperties.ModeMeaning | src/hooks/useStats.ts:42-46 | Membership characterisation of `ModeOf`, and its strict ascending order. |
| UseStatsProperties.ModeKeys | src/hooks/useStats.ts:43-46 | The keys the mode is chosen from are exactly the values of the data, strictly ascending, each in the frequency table. |
| UseStatsProperties.TopCountMeaning | src/hooks/useStats.ts:42 | `maxFreq` bounds the multiplicity of every value, and some value of non-empty data attains it. |
| UseStatsProperties.ModeMember | src/hooks/useStats.ts:42-46 | A value of the data is a mode iff it occurs more than once and no value occurs more often. |
| UseStatsProperties.ModeEmptyIffAllDistinct | src/hooks/useStats.ts:44 | The mode list is empty exactly when no value repeats. |
| UseStatsProperties.MostFrequent | src/hooks/useStats.ts:42 | Non-empty data has a value whose multiplicity is the largest. |
| UseStatsProperties.MinMaxRange | src/hooks/useStats.ts:48-50 | min and max are values of the data that bound every value; range = max - min ≥ 0. |
| UseStatsProperties.VarianceProperties | src/hooks/useStats.ts:52-56 | The variance is defined for non-empty data and is nonnegative. It is 0 for one value and Σ(x-mean)²/count otherwise. It is 0 iff all values are equal. The standard deviation is the square root of the variance and is zero iff the variance is. |
| UseStatsProperties.VarianceMeaning | src/hooks/useStats.ts:53-55 | The variance is nonnegative, and it is 0 exactly for constant data. |
| UseStatsProperties.SquaredDeviationsZero | src/hooks/useStats.ts:54 | The sum of squared deviations is 0 iff every value equals the mean. |
| UseStatsProperties.MeanBetween | src/hooks/useStats.ts:26-27 | The mean lies between the smallest and largest value. |
| UseStatsProperties.SumBounds | src/hooks/useStats.ts:26 | Values in [lo, hi] have a sum in [n·lo, n·hi]. |
| UseStats.Q1Index | src/hooks/useStats.ts:64 | For non-empty data, the lower quartile position is a valid position. |
| UseStats.Q3Index | src/hooks/useStats.ts:65 | For non-empty data, the upper quartile position is valid and not below the lower one. |
| UseStatsProperties.QuartileGate | src/hooks/useStats.ts:59-63 | q1, q3 and iqr are each null exactly when there are fewer than 4 values. |
| UseStatsProperties.QuartileValues | src/hooks/useStats.ts:63-67 | From 4 values on, q1 and q3 are the sorted copy at floor(n/4) and floor(3n/4), and both are values of the data. |
| UseStatsProperties.QuartileOrder | src/hooks/useStats.ts:63-69 | min ≤ q1 ≤ median ≤ q3 ≤ max, and iqr = q3 - q1 ≥ 0. |
| UseStatsProperties.QuartilesAroundMedian | src/hooks/useStats.ts:64-67 | On sorted data of length ≥ 4, the quartile positions are in range and ordered, and the median lies between the two quartiles. |
| UseStatsProperties.AscendingQuartiles | src/hooks/useStats.ts:64-68 | On ascending data the quartiles and the IQR are read off the data's own positions. |
| UseStatsProperties.OfAscending | src/hooks/useStats.ts:30-35 | On ascending data the median and quartiles are read off the data itself. |
| UseStatsProperties.EngineIQR | src/hooks/useStats.ts:68 | The record's iqr is the IQR of the sorted copy. |
| UseStatsProperties.EngineOutliers | src/hooks/useStats.ts:71-77 | The record's outliers are the fence filter over the sorted copy's quartiles. |
| UseStatsProperties.RecordFences | src/hooks/useStats.ts:63-77 | From 4 values on, all three quartile fields are present, iqr = q3 - q1, and the outliers are the data filtered by the fences built from the record. |
| UseStatsProperties.OutlierProperties | src/hooks/useStats.ts:71-77 | Below 4 values there are no outliers. Otherwise the outliers are exactly the data values strictly outside the fences, with their multiplicities and in data order, and each lies strictly below q1 or above q3. |
| UseStatsProperties.SubsequenceNotLonger | src/components/ExplanationPanel.tsx:70 | A filtered list is never longer than the data, which bounds the displayed outlier count. |
| UseStatsProperties.FenceExample | src/hooks/useStats.ts:74-76 | With q1 = 2, q3 = 6, iqr = 4 the fences are -4 and 12. A value on a fence is not an outlier; one beyond it is. |
| UseStatsProperties.PermutationParts | src/hooks/useStats.ts:24-56 | Reordering the data keeps the sorted copy, count, mean, variance and mode. |
| UseStatsProperties.OutliersOfPermutation | src/hooks/useStats.ts:76 | Reordering the data keeps the multiset of values outside given fences. |
| UseStatsProperties.PermutationInvariance | src/hooks/useStats.ts:4-95 | Reordering the data changes no field of the record except the order of the outliers, whose multiset is kept. |
| UseStatsProperties.ConstantData | src/hooks/useStats.ts:24-56 | For constant data: mean, median, min and max are the value. Range, variance and standard deviation are 0. There is no mode iff there is a single value. |
| UseStatsProperties.CentreOfConstant | src/hooks/useStats.ts:27-35 | The mean and median of constant data are its value. |
| UseStatsProperties.ModeOfConstant | src/hooks/useStats.ts:42-46 | Constant data has a mode iff it has at least two values. |
| UseStatsProperties.NoRepeatNoMode | src/hooks/useStats.ts:44 | When no value repeats, the mode list is empty. |
| UseStatsProperties.SingleMode | src/hooks/useStats.ts:42-46 | A value that repeats and occurs strictly more often than every other is the only mode. |
| UseStatsProperties.TwoModes | src/hooks/useStats.ts:42-46 | Two values that tie for the top count (above 1) are the modes, in ascending order. |
| UseStatsProperties.MedianOfOneToFour | src/hooks/useStats.ts:31-32 | The median of [1,2,3,4] is 2.5 (even count). |
| UseStatsProperties.MedianOfOneToThree | src/hooks/useStats.ts:33-34 | The median of [1,2,3] is 2 (odd count). |
| UseStatsProperties.NoModeOfOneToThree | src/hooks/useStats.ts:44 | [1,2,3] has no mode. |
| UseStatsProperties.ModeOfRepeatedOne | src/hooks/useStats.ts:42-46 | The mode of [1,1,2,3] is [1]. |
| UseStatsProperties.TiedModes | src/hooks/useStats.ts:42-46 | The mode of [1,1,2,2,3] is [1,2]. |
| UseStatsProperties.NoQuartilesOfOneToThree | src/hooks/useStats.ts:63 | [1,2,3] has no quartiles and no IQR. |
| UseStatsProperties.QuartilesOfOneToEight | src/hooks/useStats.ts:64-68 | [1..8] has q1 = 3, q3 = 7 and iqr = 4. |
| UseStatsProperties.SingleValue | src/hooks/useStats.ts:24-56 | [5] has mean and median 5, range, variance and standard deviation 0, and no mode. |
| DataStore.Round | src/hooks/useDataStore.ts:8 | `Math.round` gives the integer within half of the input, with halves going up. |
| DataStore.Constrain | src/hooks/useDataStore.ts:8 | The stored value is the rounded input clamped to [-1000, 1000]. |
| DataStore.ConstrainKeepsStored | src/hooks/useDataStore.ts:8 | A whole number already in range is stored as is. |
| DataStore.ConstrainMonotone | src/hooks/useDataStore.ts:8 | Constraining preserves order. |
| DataStore.RemoveAt | src/hooks/useDataStore.ts:19 | Filtering out an index in range deletes exactly that position. Any other index changes nothing. |
| DataStore.ConstrainAll | src/hooks/useDataStore.ts:28-29 | The map constrains every value, position by position. |
| DataStore.ValidatedData | src/hooks/useDataStore.ts:26-31 | The new list is the constrained first min(n, 50) inputs, in order, and is bounded. |
| DataStore.ValidatedDataExtend | src/hooks/useDataStore.ts:28-30 | One more input adds its constrained image, unless 50 are already kept. |
| DataStore.AddCandyEffect | src/hooks/useDataStore.ts:6-16 | A full list is unchanged. Otherwise exactly one constrained value is appended and the earlier values are kept. |
| DataStore.RemoveDataPointEffect | src/hooks/useDataStore.ts:18-20 | Removing deletes exactly the given position, or nothing when the index is out of range. |
| DataStore.ApplyKeepsBounded | src/hooks/useDataStore.ts:6-32 | Every store operation keeps at most 50 values, each in [-1000, 1000]. |
| DataStore.RunKeepsBounded | src/hooks/useDataStore.ts:6-32 | No sequence of operations breaks that bound. |
| DataStore.Store.constructor | src/hooks/useDataStore.ts:4 | The store starts empty. |
| DataStore.Store.AddCandy | src/hooks/useDataStore.ts:6-16 | The in-place update follows `Apply(AddCandy)` and keeps the store bounded. |
| DataStore.Store.RemoveDataPoint | src/hooks/useDataStore.ts:18-20 | The in-place update follows `Apply(RemoveDataPoint)` and keeps the store bounded. |
| DataStore.Store.ClearData | src/hooks/useDataStore.ts:22-24 | The list becomes empty. |
| DataStore.Store.SetData | src/hooks/useDataStore.ts:26-32 | The list becomes `ValidatedData(newData)`. |
| ControlPanel.AddError | src/components/ControlPanel.tsx:62-76 | The range message is shown iff the value is outside [-1000, 1000]. The size message is shown iff the value is in range and 50 values are held. Otherwise nothing is shown. |
| ControlPanel.Panel.HandleAddData | src/components/ControlPanel.tsx:62-76 | A refused value is not forwarded and sets its message. An accepted value is forwarded exactly once and clears the message. |
| ControlPanel.ForwardedValueIsStoredRounded | src/components/ControlPanel.tsx:74 | A value the panel accepts is appended to the store rounded, with no clamping and no refusal. |
| VisualizationPanel.CalculateIQR | src/components/VisualizationPanel.tsx:37-45 | The result is null iff there are fewer than 4 values; otherwise it is nonnegative. |
| VisualizationPanel.FindOutliers | src/components/VisualizationPanel.tsx:47-58 | The result is empty below 4 values, and is always a subsequence of the data. |
| VisualizationPanel.CalculateIQRAgrees | src/components/VisualizationPanel.tsx:37-45 | The panel's IQR equals the engine's iqr on every dataset. |
| VisualizationPanel.FindOutliersAgrees | src/components/VisualizationPanel.tsx:47-58 | The panel's outliers equal the engine's outliers on every dataset, in the same order. |
| VisualizationPanel.SameIQR | src/components/VisualizationPanel.tsx:37-45 | The panel's IQR is the IQR of the sorted copy. |
| VisualizationPanel.SameOutliers | src/components/VisualizationPanel.tsx:47-58 | The panel's filter is the engine's filter over the sorted copy. |
| VisualizationPanel.FencesAgree | src/components/VisualizationPanel.tsx:50-57 | From 4 values on, the panel's fences are those of the sorted copy's quartiles. |
| VisualizationPanel.NoFencesWhenShort | src/components/VisualizationPanel.tsx:48 | Below 4 values, no outliers. |
| VisualizationPanel.HandleGenerateData | src/components/VisualizationPanel.tsx:25-35 | Count -1 empties the store. Any other count clears it and adds the generated values one by one, leaving `ValidatedData(newData)`. The store stays bounded. |
| ExplanationPanel.FindOutliers | src/components/ExplanationPanel.tsx:16-21 | As written: the result is empty below 4 values or when q1, q3 or iqr is null or 0, and is always a subsequence of the data. |
| ExplanationPanel.OutlierCount | src/components/ExplanationPanel.tsx:70 | The displayed count never exceeds the number of data points. |
| ExplanationPanel.FindOutliersIntended | src/components/ExplanationPanel.tsx:16-21 | Corrected guard: the result is empty only below 4 values or when a quartile field is null, and is a subsequence of the data. |
| ExplanationPanel.GuardsAgree | src/components/ExplanationPanel.tsx:17 | With nonzero q1, q3 and iqr, the written and the intended versions agree. |
| ExplanationPanel.IntendedAgrees | src/components/ExplanationPanel.tsx:16-21 | The intended version returns exactly the engine's outliers on every dataset. |
| ExplanationPanel.AgreesWhenTruthy | src/components/ExplanationPanel.tsx:16-21 | As written, the panel shows the engine's outliers when q1, q3 and iqr are all nonzero, and none otherwise. |
| ExplanationPanel.OutlierCountAgrees | src/components/ExplanationPanel.tsx:70 | With nonzero quartile fields, the count shown is the number of engine outliers. |
| ExplanationPanel.FlatOutliers | src/hooks/useStats.ts:71-77 | The engine finds 100 as the only outlier of [5,5,5,5,100]. |
| ExplanationPanel.FlatQuartiles | src/hooks/useStats.ts:63-69 | [5,5,5,5,100] has q1 = q3 = 5 and iqr = 0. |
| ExplanationPanel.ZeroIqrHidesOutliers | src/components/ExplanationPanel.tsx:17 | On [5,5,5,5,100] the engine reports 100 as an outlier, but the panel as written reports none (iqr = 0 is falsy). |
| ExplanationPanel.AroundZeroQuartiles | src/hooks/useStats.ts:63-69 | [-10,0,1,2,100] has q1 = 0, q3 = 2 and iqr = 2. |
| ExplanationPanel.AroundZeroOutliers | src/hooks/useStats.ts:71-77 | The engine finds -10 and 100 as the outliers of [-10,0,1,2,100]. |
| ExplanationPanel.ZeroQ1HidesOutliers | src/components/ExplanationPanel.tsx:17 | On [-10,0,1,2,100] the engine reports -10 and 100, but the panel as written reports none (q1 = 0 is falsy). |
| Challenges.ChallengeTests | src/hooks/useChallenges.ts:14-51 | What each challenge's test reads off the record: mean within 0.1 of 5, median exactly 7, a non-empty mode, range exactly 10. A null field fails its test. |
| Challenges.MeanChallenge | src/hooks/useChallenges.ts:22 | "mean-5" is complete iff the data is non-empty and 4.9·n < sum < 5.1·n. |
| Challenges.MeanOnBoundary | src/hooks/useChallenges.ts:22 | Data whose mean is exactly 4.9 or 5.1 (10·sum = 49·n or 51·n) does not complete "mean-5" in the model, where the mean is exact. |
| Challenges.MeanNearFive | src/hooks/useChallenges.ts:22 | The mean is within 0.1 of 5 iff 4.9·n < sum < 5.1·n. |
| Challenges.MedianChallenge | src/hooks/useChallenges.ts:31 | "median-7" is complete iff the data is non-empty and the sorted middle value is 7 (odd count) or the two middle values sum to 14 (even count). |
| Challenges.MedianOfData | src/hooks/useChallenges.ts:31 | On non-empty data the median is present, and it is 7 exactly when the sorted middle value is 7 or the two middle values sum to 14. |
| Challenges.MedianChallengeBounds | src/hooks/useChallenges.ts:31 | When "median-7" is complete, the data is non-empty and 7 lies between min and max. |
| Challenges.MedianSeven | src/hooks/useChallenges.ts:31 | The median of a sorted list is 7 exactly in those two cases. |
| Challenges.ModeChallenge | src/hooks/useChallenges.ts:40 | "mode-exists" is complete iff some value occurs at two positions. |
| Challenges.RangeChallenge | src/hooks/useChallenges.ts:49 | "range-10" is complete iff two values of the data are 10 apart and enclose every value. |
| Challenges.RangeTen | src/hooks/useChallenges.ts:49 | On non-empty data the range is 10 exactly in that case. |
| Challenges.SpanTen | src/hooks/useStats.ts:48-50 | With a least and a greatest value in hand, max - min = 10 iff two values of the data 10 apart enclose every value. |
| Challenges.CurrentChallenge | src/hooks/useChallenges.ts:57 | No challenge is shown below 3 values. Any challenge shown is one of the list. |
| Challenges.ShownFromThreeValues | src/hooks/useChallenges.ts:81 | For an index on the list, a challenge is shown iff the dataset holds at least 3 values. |
| Challenges.NextIndex | src/hooks/useChallenges.ts:74-78 | The next index stays in [0, 3] when the current one does. |
| Challenges.AdvanceModulo | src/hooks/useChallenges.ts:74-78 | k calls of `nextChallenge` move the index to (index + k) mod 4. |
| Challenges.EveryChallengeComesUp | src/hooks/useChallenges.ts:74-78 | From any index, every challenge comes up within 4 calls. |
| Challenges.Tracker.constructor | src/hooks/useChallenges.ts:54-55 | The index starts at 0 and the completed list starts empty. |
| Challenges.Tracker.CompleteChallenge | src/hooks/useChallenges.ts:68-72 | The current challenge's id is appended, duplicates included, and earlier entries are kept. No challenge at the index means no change. The index is unchanged. |
| Challenges.Tracker.NextChallenge | src/hooks/useChallenges.ts:74-78 | The index follows `NextIndex` and stays in range. The completed list is unchanged. |
| UseTutorial.RunAppend | src/hooks/useTutorial.ts:7-23 | Running callbacks in two parts is the same as running them together. |
| UseTutorial.RunNeverNegative | src/hooks/useTutorial.ts:21-23 | From a nonnegative step, no sequence of callbacks makes the step negative. |
| UseTutorial.PrevUndoesNext | src/hooks/useTutorial.ts:17-23 | `prevStep` undoes `nextStep`. |
| UseTutorial.NextUndoesPrev | src/hooks/useTutorial.ts:17-23 | `nextStep` undoes `prevStep` above step 0. At step 0 or below, `prevStep` sets the step to 0. |
| UseTutorial.NavigationKeepsActivity | src/hooks/useTutorial.ts:17-23 | Next and previous never change whether the tutorial is shown. |
| UseTutorial.ForwardSteps | src/hooks/useTutorial.ts:17-19 | k calls of `nextStep` add exactly k to the step, with no upper bound. |
| UseTutorial.StartForgets | src/hooks/useTutorial.ts:7-10 | After `startTutorial`, the state no longer depends on what came before. |
| UseTutorial.EndResets | src/hooks/useTutorial.ts:12-15 | `endTutorial` always returns to step 0, inactive. |
| UseTutorial.Tutorial.constructor | src/hooks/useTutorial.ts:4-5 | Step 0, inactive. |
| UseTutorial.Tutorial.StartTutorial | src/hooks/useTutorial.ts:7-10 | Step 0 and active, from any state. |
| UseTutorial.Tutorial.EndTutorial | src/hooks/useTutorial.ts:12-15 | Step 0 and inactive, from any state. |
| UseTutorial.Tutorial.NextStep | src/hooks/useTutorial.ts:17-19 | The step grows by one; the active flag is kept. |
| UseTutorial.Tutorial.PrevStep | src/hooks/useTutorial.ts:21-23 | The step becomes max(0, step - 1) and is never negative. |
| UseOnboarding.Advances | src/hooks/useOnboarding.ts:7-17 | The number of advancing callbacks is at most the number of callbacks. |
| UseOnboarding.RunSplit | src/hooks/useOnboarding.ts:7-17 | Running a sequence with one callback in the middle is running the part before, then that callback, then the rest. |
| UseOnboarding.CompleteIsNext | src/hooks/useOnboarding.ts:15-17 | Replacing a `nextStep` by a `completeStep` anywhere in a sequence changes nothing. |
| UseOnboarding.StepCount | src/hooks/useOnboarding.ts:7-17 | The step grows by exactly one per `nextStep` or `completeStep`. Skipping keeps it. |
| UseOnboarding.ActiveUntilSkipped | src/hooks/useOnboarding.ts:11-13 | The onboarding stays shown iff it was shown and was never skipped. |
| UseOnboarding.NeverReactivated | src/hooks/useOnboarding.ts:11-13 | Once hidden, it is never shown again. |
| UseOnboarding.FromInitial | src/hooks/useOnboarding.ts:4-17 | From the start, the step is the number of advancing callbacks, and the flag is true iff none skipped. |
| UseOnboarding.Onboarding.constructor | src/hooks/useOnboarding.ts:4-5 | Step 0, active. |
| UseOnboarding.Onboarding.NextStep | src/hooks/useOnboarding.ts:7-9 | The step grows by one; the active flag is kept. |
| UseOnboarding.Onboarding.SkipOnboarding | src/hooks/useOnboarding.ts:11-13 | The onboarding is hidden; the step is kept. |
| UseOnboarding.Onboarding.CompleteStep | src/hooks/useOnboarding.ts:15-17 | Same effect as `nextStep`. |

## Left out

- Floating point:
  - Values are whole numbers once stored, and the statistics are computed
    exactly over the rationals.
  - IEEE rounding of the sum, the mean, the squared deviations and the fences
    is not modelled.
  - NaN and infinite inputs are not modelled; non-finite values cannot come
    from the store.
- `Math.sqrt`: the standard deviation is the symbolic square root of the
  variance (`SqrtOf`). The model states that it is zero iff the variance is
  zero, not its decimal value.
- `Math.random`: the values that `handleGenerateData` draws are a parameter (`newData`) of `HandleGenerateData`. Their range
  [10, 90] is not assumed.
- React scheduling (`useMemo`, `useCallback`, batched `setState`): each
  callback is modelled as an immediate update, applied in call order.
- Timers: the one-second auto-completion of a challenge (the `useEffect` with
  `setTimeout` in src/hooks/useChallenges.ts:59-66) and the onboarding
  auto-advance are not modelled. `completeChallenge` is modelled as a plain
  call.
- The title, description, target and difficulty of each challenge are
  display text and are not modelled. Only the id and the completion test
  are.
- Rendering is not modelled:
  - the D3 and canvas visualisations;
  - the overlays, cards and sidebars;
  - `toFixed` formatting of displayed numbers;
  - the theme hook.
- Parsing typed text and uploaded CSV files into numbers happens before
  `handleAddData` and `setData` receive a number, and is not modelled.
- Non-integer indices: `removeDataPoint` compares positions with `!==`. A
  fractional index removes nothing in the source. The model takes an `int`
  index, and out-of-range indices are modelled.
- The `Statistics` interface in src/types/statistics.ts declares a `sum`
  field that the hook never fills and lacks the `outliers` field it returns.
  The model follows the record the hook builds.
- The quartiles follow the code: sorted positions floor(n/4) and
  floor(3n/4), with no interpolation. For [1..8] this gives q1 = 3 and
  q3 = 7 (QuartilesOfOneToEight), higher than the 2 and 6 of other
  conventions.
- Challenges.MeanChallenge: the test `Math.abs(stats.mean - 5) < 0.1` is
  modelled over exact rationals, so the bounds 4.9 and 5.1 are excluded
  (MeanOnBoundary). In IEEE doubles, a mean of exactly 5.1 or 4.9 (for
  example [5,5,5,5,5,5,5,5,5,6]) gives `Math.abs(mean - 5)` just below the
  double nearest 0.1, so the program completes the challenge on exactly
  those boundary datasets, where 10·sum = 49·n or 51·n, and the model does
  not. Double rounding is not modelled.
- ExplanationPanel.FindOutliers: the as-written guard is modelled faithfully.
  The Findings entry explains why the model also carries an intended version.

## Findings

| source | as written | input that shows it | evidently intended | confidence | as-written member | corrected member |
|---|---|---|---|---|---|---|
| src/components/ExplanationPanel.tsx:17 | `!stats.q1 \|\| !stats.q3 \|\| !stats.iqr` treats a quartile or IQR equal to 0 like a missing one, so the "Outliers" tile shows 0 | [5,5,5,5,100]: iqr = 0, the engine reports [100]. [-10,0,1,2,100]: q1 = 0, the engine reports [-10,100]. | skip only when a field is null, so that the tile shows the engine's outlier count | not executed | ExplanationPanel.ZeroIqrHidesOutliers, ExplanationPanel.ZeroQ1HidesOutliers | ExplanationPanel.IntendedAgrees (over ExplanationPanel.FindOutliersIntended) |
