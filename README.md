# Double-colour-ball statistics, modelled in Dafny

A Dafny model of the descriptive-statistics layer of a double-colour-ball
lottery tool. A draw has six distinct red balls in 1..33 and one blue ball
in 1..16, identified by an issue id. The tool reads historical draws,
counts how often each ball was drawn over trailing windows, ranks the balls
and classifies them as hot, warm or cold, compares those tiers across
windows, tabulates how many reds repeat between consecutive draws, and
assembles heuristic recommendations from the results.

The model covers, module by module:

- `Draws`, `Models`, `Features`, `Processor`, `Validation`: the draw record,
  its validity rule, the per-record features (sum, AC value, sum range,
  intervals, zones, head/tail), the feature pass over a record list, and
  the standalone validators for balls, issue numbers, dates, records,
  predictions, configurations, phone numbers and number ranges.
- `WindowConfig`: the shared window policy (short, medium, long and
  all-history windows, and the trend-window list) as a class whose setters
  rebuild the trend windows.
- `HotCold`, `HotColdTrends`: frequency counting with zero fill, the
  (−count, ball) ranking cut 11/11/11, the ball → tier lookup, the
  time-limited result caches, cross-window consistency, heat trends,
  per-ball percentage trends and least-squares trend strength.
- `Probability`: the repeat-probability analyzer (adjacent-pair red
  intersections, the distribution over 0..6, blue repeats, the conditional
  current-draw statistic, four-window trend labels, comprehensive
  predictions and similarity).
- `Database`, `Combinations`: the in-memory parts of the record store:
  field normalisation on save, argument guards, period statistics with the
  threshold rule below twenty draws, sum trends, repeat and positional
  repeat analysis, pair-combination counts, hot and cold numbers.
- `Advanced`, `AdvancedSpec`: the sequential per-record feature passes
  (omission counters, heat status, hot/cold lists, inherited balls, sum
  trends and consecutive appearances, pattern and risk labels).
- `AnalysisService`, `PredictionService`, `Predictor`: frequency and sum
  statistics, blue-ball trends, the 6+1 → 7+1 → 8+1 hierarchy repair, the
  extension candidates and safe extension, confidence adjustments, the
  bounded report history, and the postconditions of the randomised
  predictor.
- `Statistics`, `TrendAnalysis`, `EnhancedAnalyzer`, `ModelTraining`: the
  basic statistics, the 30 % and 33 % tier rules, next-draw probability,
  rise/fall trend direction, best historical matches, repeat probability,
  the statistical model and the layout of the training data.
- `Crawler`: issue-id generation for all years and for an issue range,
  the prompt's acceptance of an issue id, date-string normalisation and
  the estimated day offset of a draw.
- `Common`, `Ranking`, `StringOrder`, `Spread`: shared definitions
  (Python's `Counter`, `most_common` with first-insertion ties, stable
  sorting, Python slicing with negative indices, string order, digit
  strings, the spread of a list).

Operations that update state step by step are methods with loop invariants,
proved equal to a specification function whose properties are lemmas;
objects whose fields the tool updates in place (the window configuration,
the hot/cold analyzer with its caches, the probability analyzer, the draw
record, the advanced feature processor, the prediction service) are
classes. Ratios are exact `real` values.

Modelling choices that follow the code as written:

- Records come in as a parameter, newest first, as the store returns them;
  `all_records[-k:]` therefore selects the k oldest of them, and `[-0:]` the
  whole list.
- The probability analyzer maps the medium and long windows to the short
  window's size.
- The wall clock is a parameter `now`; cached results live for 300 seconds.
- `random` is a choice constrained by what the code guarantees; the ±5
  confidence noise of the predictor is a chosen value in that interval.
- `int(k * 0.3)` is `3k / 10` and `int(k * 0.33)` is `33k / 100` (the same
  value for the list lengths involved); `round(x, 2)` is characterised only
  by bounds.
- `sums[-5:]` in the trend analysis, on the newest-first list, is the five
  oldest draws' sums.
- The hot/cold analyzer's two- and three-value ball trend returns 上升, 下降
  or 稳定, unlike its four-value labels; its fallback to a default window
  list names an attribute that does not exist, so the model uses the
  configured trend windows.
- The advanced feature passes require the record list to hold distinct
  objects: each pass updates a record in place at most once. The record
  store builds a fresh object per row, and the pipeline hands that list
  on unchanged (workflows/data_pipeline.py:31-41), so the caller meets
  this requirement.
- The record's `__post_init__` defines an unused local class; the model
  keeps only its two feature passes.
- The crawler's table of draws per year is a parameter (the configured
  table is the constant `YearIssues`); issue ids order as numbers only
  while the latest number has at most three digits.

## Model

| member | source | states |
|---|---|---|
| WindowConfig.WindowConfigManager.constructor | utils/window_config.py:15-24 | the configuration starts as short 30, medium 50, long 100, all_history None, with trend windows [30, 50, 100, None] |
| WindowConfig.WindowConfigManager.GetAllWindows | utils/window_config.py:26-29 | returns the whole current configuration |
| WindowConfig.WindowConfigManager.GetStandardWindows | utils/window_config.py:31-38 | returns exactly the short, medium and long entries with their current values |
| WindowConfig.WindowConfigManager.GetWindowByName | utils/window_config.py:40-43 | a configured name gives its value; any other name gives None instead of raising |
| WindowConfig.WindowConfigManager.GetTrendWindows | utils/window_config.py:45-48 | returns the trend list, four entries ending in None |
| WindowConfig.WindowConfigManager.SetWindowConfig | utils/window_config.py:50-66 | each of the three bounded windows present in the argument is replaced and nothing else is; the trend list is rebuilt as [short, medium, long, None] |
| WindowConfig.WindowConfigManager.UpdateFromConfig | utils/window_config.py:70-87 | without an `analysis` section nothing changes; otherwise the three windows are set, a missing attribute at 30 / 50 / 100 |
| WindowConfig.SetEmptyIsNoOp | utils/window_config.py:50-66 | setting an empty configuration leaves the configuration and the trend list unchanged |
| HotCold.CountRedBalls | analysis/hot_cold_analyzer.py:396-410 | the counting loop plus the zero-fill equal the zero-filled Counter of all red columns, with keys in first-seen order followed by the unseen balls of 1..33 |
| HotCold.ClassifyRecords | analysis/hot_cold_analyzer.py:122-158 | counting, ranking by (-count, ball), slicing 0-10 / 11-21 / 22-32 and the lookup loops produce exactly the `Classify` result |
| HotCold.BuildStatus | analysis/hot_cold_analyzer.py:145-151 | the three lookup loops build the status map in which a later tier overwrites an earlier one |
| HotCold.StatusLookupFacts | analysis/hot_cold_analyzer.py:145-151 | the lookup's keys are the balls of the three lists; cold wins over warm and warm over hot for a ball listed twice |
| HotCold.ClassifyPartition | analysis/hot_cold_analyzer.py:136-142 | for valid records hot, warm and cold hold 11 balls each and partition 1..33 |
| HotCold.ClassifyLookup | analysis/hot_cold_analyzer.py:145-151 | for valid records the lookup is keyed by exactly 1..33 and names the tier whose list holds the ball (both directions) |
| HotCold.ClassifyOrder | analysis/hot_cold_analyzer.py:136-142 | every hot ball was drawn at least as often as every warm one and every warm one as every cold one; equal counts go to the smaller ball first |
| HotCold.ClassifyCounts | analysis/hot_cold_analyzer.py:122-133 | the stored counts are zero-filled, give each ball its number of draws, and add up to six per record for valid records |
| HotCold.BallStatusFacts | analysis/hot_cold_analyzer.py:601-619 | on a classification of valid records the status string of a ball is the label of the tier that lists it |
| HotCold.TopN | analysis/hot_cold_analyzer.py:626-629 | the result is a prefix of the list: of length top_n when 0 <= top_n < length, of length max(0, length + top_n) when top_n is negative (the end is dropped, as a Python slice does), and the whole list when top_n is absent or not below the length |
| HotCold.HeatTrendReverse | analysis/hot_cold_analyzer.py:293-307 | for a non-constant status list, reading it backwards swaps 升温 and 降温 and keeps 波动 |
| HotCold.WarmingAndCooling | analysis/hot_cold_analyzer.py:302-305 | a status list that is both non-decreasing and non-increasing in heat is constant |
| HotCold.SplitFacts | analysis/hot_cold_analyzer.py:268-289 | after classifying balls 1..k, a consistent list holds exactly the balls whose statuses are all that tier, varying holds exactly the others with their statuses and heat trend, and the consistent lists are ascending |
| HotCold.SplitVaryingIff | analysis/hot_cold_analyzer.py:268-284 | a ball is in the varying list exactly when its statuses are not all equal |
| HotCold.ConsistencyIsSplit | analysis/hot_cold_analyzer.py:286-289 | the final `sort()` calls leave the consistent lists as they were built |
| HotCold.ConsistencyFacts | analysis/hot_cold_analyzer.py:236-291 | with two or more windows a ball is consistently hot/warm/cold exactly when every window lists it so, varying exactly when the windows disagree, and each varying entry carries the ball's statuses and their heat trend |
| HotCold.ConsistencyPartition | analysis/hot_cold_analyzer.py:268-284 | each ball 1..33 lands in exactly one of consistent_hot, consistent_warm, consistent_cold and varying |
| HotCold.AppendStatuses | analysis/hot_cold_analyzer.py:254-266 | one window's pass appends to each ball 1..33 the tier that window gives it, and changes nothing else |
| HotCold.ClassifyBall | analysis/hot_cold_analyzer.py:268-284 | classifying one more ball extends the lists for balls 1..b-1 to those for 1..b |
| HotCold.AnalyzeCrossWindowConsistency | analysis/hot_cold_analyzer.py:236-291 | the loops compute the specification `ConsistencyOf` (the message below two windows) |
| HotColdTrends.BallTrendMeaning | analysis/hot_cold_analyzer.py:480-498 | over four or more windows 递增 means the last percentage exceeds the first by more than 0.05, 递减 the reverse, and 稳定 means no two percentages differ by more than 0.03 |
| HotColdTrends.BallTrendReverse | analysis/hot_cold_analyzer.py:474-506 | reading the percentages backwards swaps 递增/递减 and 上升/下降 and keeps 稳定 |
| HotColdTrends.SpreadZero | analysis/hot_cold_analyzer.py:482-489 | a list that is both non-decreasing and non-increasing has spread 0 |
| HotColdTrends.TrendStrength | analysis/hot_cold_analyzer.py:508-529 | the strength lies in [0, 1] and is 0 below two points |
| HotColdTrends.DenominatorPositive | analysis/hot_cold_analyzer.py:517-524 | for n >= 2 points the least-squares denominator is n²(n²-1)/12 > 0, so the zero-denominator branch is dead |
| HotColdTrends.TrendStrengthOfLine | analysis/hot_cold_analyzer.py:513-529 | for points on the line a + b·i the strength is min(20·|b|, 1), and 0 for a flat line |
| HotColdTrends.CollectWindows | analysis/hot_cold_analyzer.py:337-373 | the loop over the window sizes builds exactly the specification's window results |
| HotColdTrends.WindowResultsFacts | analysis/hot_cold_analyzer.py:339-373 | every kept window is a requested size with at least ten draws, and gives each ball 1..33 its count and count / games |
| HotColdTrends.BallTrendsFacts | analysis/hot_cold_analyzer.py:433-472 | either every ball 1..33 has a trend entry or none does; each entry has one count and percentage per analysed window (at least two), a real trend label, a strength in [0, 1], and current/historical percentages from the last and first window |
| HotColdTrends.HotColdAnalyzer.constructor | analysis/hot_cold_analyzer.py:17-47 | the short, medium and long windows and the trend windows come from the window configuration; both caches start empty |
| HotColdTrends.HotColdAnalyzer.Analyze | analysis/hot_cold_analyzer.py:82-168 | a cached entry younger than 300 s is returned unchanged unless a refresh is forced; otherwise no records give the empty result, which is not cached, and records give `Classify`, which is cached under the window; the same result and new cache as `AnalyzeOutcome` |
| HotColdTrends.AnalyzeOutcomeFacts | analysis/hot_cold_analyzer.py:82-168 | when no fresh entry is reused: no records leave the cache as it was and make every ball 1..33 cold; records give three tiers of 11 that split 1..33, a status per ball that names the tier listing it, and a cache changed only at the window |
| HotColdTrends.HotColdAnalyzer.GetBallStatus | analysis/hot_cold_analyzer.py:601-619 | a ball outside 1..33 gives 无效 without touching the cache; a valid ball gives one of 热, 温, 冷, namely its status in the result `analyze()` (default window, no forced refresh) returns, and the cache is the one that call leaves (`AnalyzeOutcome`; with `AnalyzeOutcomeFacts`, the tier that lists the ball) |
| HotColdTrends.HotColdAnalyzer.GetTier | analysis/hot_cold_analyzer.py:621-649 | the categories and new cache are those of `analyze(window=window)` without a forced refresh (`AnalyzeOutcome`), and the balls are the hot / warm / cold list of those categories cut by `TopN` |
| HotColdTrends.HotColdAnalyzer.ClearCache | analysis/hot_cold_analyzer.py:651-661 | no window empties both caches; a window removes only its own entry |
| HotColdTrends.HotColdAnalyzer.AnalyzeBallTrends | analysis/hot_cold_analyzer.py:309-394 | cached by the window-size list with the same lifetime; no data gives the error; otherwise the window results and ball trends of the specification |
| HotColdTrends.CacheHitIgnoresRecords | analysis/hot_cold_analyzer.py:103-110 | two `analyze` calls within the lifetime return the same result even when the second is given other records |
| Draws.CountReds | analysis/hot_cold_analyzer.py:396-403 | the nested loop over records and their six reds yields the Counter of all red columns, keys in first-seen order |
| Draws.Tally | analysis/statistics.py:177-178 | `counter[ball] += 1` for every ball of a list extends the Counter and its key order by exactly those balls |
| Draws.ZeroFill | analysis/hot_cold_analyzer.py:405-408 | adds every unseen ball of the range with count 0, appended in ascending order, and keeps every counted ball |
| Draws.ZeroFilledOrderFacts | analysis/hot_cold_analyzer.py:398-410 | for valid records the zero-filled key list holds each ball 1..33 exactly once |
| Draws.RedConservation | analysis/statistics.py:174-178 | over valid records the red counts of balls 1..33 add up to six per record |
| Draws.BlueConservation | analysis/statistics.py:179 | over valid records the blue counts of balls 1..16 add up to the number of records |
| Draws.RepeatCounts | analysis/statistics.py:191-196 | one entry per adjacent pair, the number of reds the two draws share |
| Draws.RepeatCountBounds | analysis/probability_analyzer.py:161-162 | every adjacent repeat count lies in 0..6 |
| Draws.Available | services/prediction_service.py:336-337 | exactly the reds of 1..33 not in use, ascending |
| Draws.AvailableSize | data/predictor.py:244 | at least 33 minus the number in use of the reds are unused |
| Draws.AddFreshRed | data/predictor.py:244-248 | sorting distinct reds with one more unused red gives one more distinct, sorted red |
| Probability.AnalyzerWindows | analysis/probability_analyzer.py:26-46 | the table has the four window names; short, medium and long all take the manager's short_term size and all_history is unbounded |
| Probability.DefaultAnalyzerWindows | analysis/probability_analyzer.py:32-37 | with the default manager settings every bounded window of the analyzer is 30 draws |
| Probability.PeriodData | analysis/probability_analyzer.py:107-117 | the records a window analyses are always a suffix of all records |
| Probability.PeriodDataFacts | analysis/probability_analyzer.py:110-117 | all_history or no limit keeps every record; a positive limit keeps the last min(limit, total); a zero limit keeps all, as `all[-0:]` does |
| Probability.DistributionFacts | analysis/probability_analyzer.py:169-177 | a window with a pair has keys exactly 0..6, each a probability, summing to one; a window without pairs has an empty distribution |
| Probability.SharesFacts | analysis/probability_analyzer.py:172-177 | shares of counts in 0..6 over their own number are probabilities summing to one |
| Probability.BlueRepeats | analysis/probability_analyzer.py:151-167 | one entry per adjacent pair, 1 exactly when the pair has the same blue ball |
| Probability.BlueProbabilityFacts | analysis/probability_analyzer.py:180-182 | the blue-repeat probability lies in 0..1, is 0 exactly when no adjacent pair repeats the blue, and 1 exactly when every pair does |
| Probability.ZeroHits | analysis/probability_analyzer.py:220 | keyed by exactly the current reds, all zero |
| Probability.AddHitsFacts | analysis/probability_analyzer.py:250-252 | no key is added; for distinct current reds each gains one hit exactly when it repeated |
| Probability.PredTallyFacts | analysis/probability_analyzer.py:224-252 | after k pairs: at most k comparisons, none exactly when no earlier draw shares a red with the current one, blue repeats at most the comparisons, red repeats at most six per comparison, hits keyed by the current reds and bounded by the comparisons |
| Probability.PredictionsFacts | analysis/probability_analyzer.py:208-277 | comparisons at most the pairs and zero exactly when no draw shares a red with the current one; average repeat count in 0..6, blue probability and red probabilities in 0..1, keyed by the current reds; all zero without comparisons |
| Probability.SingleWindowFacts | analysis/probability_analyzer.py:99-128 | a window is analysed exactly when it holds two records; then its name and limit are kept, pairs are records minus one, its distribution sums to one and its blue probability is in 0..1 |
| Probability.LookupFacts | analysis/probability_analyzer.py:78-89 | a window name is found in the result dictionary exactly when it is among its keys |
| Probability.PutFacts | analysis/probability_analyzer.py:89 | after `d[name] = w` name maps to w, other keys are unchanged, and the key list grows by name only if it was new |
| Probability.WindowResultsFacts | analysis/probability_analyzer.py:74-89 | a name is analysed exactly when it is in the group, known to the table and long enough, and then holds that window's analysis |
| Probability.WindowResultsStep | analysis/probability_analyzer.py:79-89 | one more name of the group either is skipped or puts its window into the dictionary |
| Probability.WindowResultsDistinct | analysis/probability_analyzer.py:78-89 | no window is listed twice, however often the group names it |
| Probability.WindowProbsFacts | analysis/probability_analyzer.py:321-332 | for each count the windows listed are the analysed ones in window order, each with its own probability of that count |
| Probability.TrendTypeMeaning | analysis/probability_analyzer.py:359-384 | the five labels exactly: fewer than two windows, not four windows, rising by more than 2%, falling by more than 2%, no two windows more than 2% apart, and otherwise fluctuating |
| Probability.RepeatTrendsFacts | analysis/probability_analyzer.py:324-340 | no analysed window gives no trends; otherwise each count 0..6 has an entry, in order, over the analysed windows, labelled by its values |
| Probability.ScanBestFacts | analysis/probability_analyzer.py:343-351 | the scan reports the largest positive probability and the smallest count holding it, or count 0 when none is positive |
| Probability.MostLikelyFacts | analysis/probability_analyzer.py:343-351 | 0 without a long_term window; otherwise a count 0..6 with the long_term window's largest probability, no smaller count as large, and 0 when none is positive |
| Probability.ComprehensiveFacts | analysis/probability_analyzer.py:412-434 | a prediction exists exactly when some window was analysed; it comes from long_term exactly when that was analysed, else from the first window, and repeats that window's distribution and blue probability |
| Probability.SimilarityFacts | analysis/probability_analyzer.py:623-630 | the similarity is symmetric, in 0..1, 0 exactly when the lists share no value and 1 exactly when they hold the same non-empty set |
| Probability.ProbabilityOfFacts | analysis/probability_analyzer.py:48-97 | no current draw or fewer than two records gives the empty result naming the given draw; otherwise the windows analysed are listed once each and are exactly the group's names (the four windows by default) that the table knows and that hold two records |
| Probability.ProbabilityAnalyzer.constructor | analysis/probability_analyzer.py:20-46 | the window table is read from the manager's short_term size |
| Probability.ProbabilityAnalyzer.AnalyzeCurrentPeriodProbability | analysis/probability_analyzer.py:48-97 | the loop over the window group returns exactly the analysis whose properties ProbabilityOfFacts states |
| Probability.ProbabilityAnalyzer.AnalyzeSingleWindow | analysis/probability_analyzer.py:99-128 | returns exactly the window analysis SingleWindowFacts describes |
| Probability.ProbabilityAnalyzer.CalculateWindowRepeatStats | analysis/probability_analyzer.py:130-206 | the pair loop and the share loop produce the window's distribution, blue probability and predictions |
| Probability.ProbabilityAnalyzer.PairRepeats | analysis/probability_analyzer.py:151-167 | the loop fills one red-overlap count and one blue-repeat flag per adjacent pair |
| Probability.ProbabilityAnalyzer.CountShares | analysis/probability_analyzer.py:172-177 | the loop over 0..6 yields the share of each count, the distribution DistributionFacts describes |
| Probability.ProbabilityAnalyzer.CalculateCurrentPredictions | analysis/probability_analyzer.py:208-277 | the comparison loop yields the predictions PredictionsFacts describes |
| Probability.ProbabilityAnalyzer.AddRepeatHits | analysis/probability_analyzer.py:250-252 | the inner loop adds the hits AddHitsFacts describes |
| Probability.ProbabilityAnalyzer.AnalyzeRepeatTrends | analysis/probability_analyzer.py:316-357 | the nested loops yield the per-count trends and the most likely count described by RepeatTrendsFacts and MostLikelyFacts |
| Probability.ProbabilityAnalyzer.CountTrends | analysis/probability_analyzer.py:325-332 | the windows' probabilities of one count, in window order, as WindowProbsFacts describes |
| Probability.ProbabilityAnalyzer.MostLikelyScan | analysis/probability_analyzer.py:343-351 | the scan over 0..6 yields the first count with the strictly largest probability |
| Models.RedAverage | data/models.py:130 | the rounded mean of the reds is within half a hundredth of sum / 6, and 0 when the sum is 0 |
| Models.SortedRedsFacts | data/models.py:134-135 | the sorted reds are a permutation of the six columns, head the smallest and tail the largest, ascending when the reds are distinct |
| Models.SumTail | data/models.py:142 | `red_sum % 10` is a digit 0..9 congruent to the sum modulo 10 |
| Models.DrawRecord.constructor | data/models.py:78-122 | a new record keeps its draw, stores the red sum and rounded mean, holds every stage-1 field derived from the sorted reds, and has no advanced features yet |
| Models.DrawRecord.PostInit | data/models.py:105-113 | the basic pass and then the stage-1 pass leave the red sum, mean and every stage-1 field consistent with the draw |
| Models.DrawRecord.CalculateBasicFeatures | data/models.py:124-130 | stores the red sum and its rounded mean, changing nothing else |
| Models.DrawRecord.CalculateStage1Features | data/models.py:132-164 | a stored red sum is kept and a missing one recomputed; AC value, sum tail, sum range, interval, position and zone fields then agree with the sorted reds |
| Models.DrawRecord.SetIntervalsAndZones | data/models.py:150-164 | the interval, head/tail and zone fields are those of the sorted reds |
| Models.ValidRecordFeatures | data/models.py:132-221 | for a valid record: AC value in 0..10, head-tail range in 5..32, intervals adding up to max - min, zone counts adding up to 6 |
| Models.IsValid | data/models.py:229-247 | valid exactly when every red is in 1..33, the blue in 1..16 and the six reds are distinct; their order is not required |
| Models.NumbersStringDecodes | data/models.py:223-227 | for numbers 0..99 the string has 22 characters: red k is the two digits at 3k, single spaces between reds, then " + " and the two digits of the blue, each reading back as its number |
| Features.IsValidRedCombination | utils/data_utils.py:19-47 | the early-return checks and the neighbour loop accept exactly the combinations of the acceptance rule |
| Features.SixValid | utils/data_utils.py:19-47 | on six balls the rule is, position by position: six distinct values, sum 60..150, spread 15..32, odd and small (≤ 16) counts neither 0 nor 6, at most two neighbours differing by one |
| Features.ConsecutiveCheckNeedsSortedInput | utils/data_utils.py:40-45 | the consecutive-pair rule looks at neighbours in the order given: [20,19,18,17,3,33] passes while its sorted form fails |
| Features.GenerateRedBalls | utils/data_utils.py:9-17 | whatever is returned is six ascending reds in 1..33 that the acceptance rule accepts |
| Features.SampleIsAccepted | utils/data_utils.py:9-17 | an accepted sorted sample exists, so the generator's postcondition can be met |
| Features.CalculateAcValue | utils/data_utils.py:49-58 | the nested loop yields the number of distinct pairwise absolute differences minus five, and 0 unless six balls are given |
| Features.AcValueBounds | utils/data_utils.py:49-58 | for six ascending balls the AC value lies in 0..10 |
| Features.SumRangeBuckets | utils/data_utils.py:60-71 | each of the five labels is given exactly to the sums of its interval <70, 70-89, 90-109, 110-129, ≥130, and the bucket grows with the sum |
| Features.IntervalsFacts | utils/data_utils.py:81-84 | one interval per neighbouring pair, each the later ball minus the earlier; none for fewer than two balls |
| Features.CalculateIntervalFeatures | utils/data_utils.py:73-92 | the loop builds the intervals whose features are recorded; fewer than two balls give all zeros and an empty pattern |
| Features.FeaturesOfNonEmpty | utils/data_utils.py:86-92 | max, min and average of the intervals, and at most one big interval (> 7) per interval |
| Features.IntervalFeaturesFacts | utils/data_utils.py:73-92 | over ascending balls every interval is positive, the average is (max - min) / (n - 1) and lies between the smallest and the largest interval, and big intervals are at most n - 1 |
| Features.ZoneDistributionFacts | utils/data_utils.py:94-104 | the three zones 1-11, 12-22 and 23-33 are the keys and their counts add up to the number of in-range balls |
| Features.ExtremaFacts | utils/data_utils.py:28 | `max` and `min` return an element that bounds every other |
| Database.ClampInto | data/database.py:161-171 | the result lies in lo..hi: a value below goes to lo, one above to hi, one inside is kept |
| Database.Weekday | data/database.py:157-159 | a weekday in 0..6 congruent to the stored one modulo 7, kept when already in range |
| Database.NormalizeDateFacts | data/database.py:150-171 | None takes the default weekday 0, month 1, day 1, quarter 1; in-range values are kept; weekdays are reduced modulo 7; month, day and quarter go to the nearer end of their ranges; the weekend flag is 0 or 1 |
| Database.NormalizeIdempotent | data/database.py:150-171 | normalising fields read back from a saved row writes the same fields again |
| Database.SavedRowsFacts | data/database.py:144-200 | invalid records are skipped, every valid record is written with normalised calendar fields, and nothing else is written |
| Database.SaveRecords | data/database.py:133-200 | the save loop writes exactly the rows SavedRowsFacts describes, in input order |
| Database.RecentRecords | data/database.py:383-396 | a non-positive limit gives nothing; otherwise the first min(limit, n) rows of the newest-first list |
| Database.IssueRangeBounds | data/database.py:818-828 | no bounds (the empty result) exactly when either issue is not an integer; otherwise the smaller issue first |
| Database.RankedFacts | data/database.py:1112 | the ranking of valid records lists each ball 1..33 exactly once |
| Database.Aggregate | data/database.py:1090-1103 | the counting loop yields the red and blue Counters of the selected records and their per-record red sums |
| Database.SmallSplit | data/database.py:1125-1132 | the loop over 1..33 puts each ball into the tier its count selects |
| Database.GetStatisticsWithPeriod | data/database.py:1079-1166 | the statistics of the newest min(period, n) records, whose properties StatisticsTiers, StatisticsCounts and StatisticsSums state |
| Database.SmallSplitFacts | data/database.py:1118-1132 | below 20 draws the tiers are ascending; a ball is hot when drawn at least 1.2 × n·6/33 times, otherwise cold when at most half of it, otherwise warm |
| Database.SmallSplitPartition | data/database.py:1118-1132 | below 20 draws the threshold tiers partition 1..33 |
| Database.RankSplitFacts | data/database.py:1133-1138 | from 20 draws on the tiers are eleven balls each, partition 1..33 and follow the count ranking |
| Database.StatisticsTiers | data/database.py:1118-1138 | over valid records every ball 1..33 is in exactly one tier; from 20 draws on each tier holds eleven balls in rank order |
| Database.StatisticsCounts | data/database.py:1086-1103 | each ball 1..33 maps to its red count, the red counts add up to six per draw and the blue counts to one per draw |
| Database.PeriodSumTrendFacts | data/database.py:1148-1153 | 上升 / 下降 exactly when the last sum is above / below the one before, 稳定 otherwise and for fewer than two sums |
| Database.LastTenFacts | data/database.py:1165 | the recent sums are the last min(10, n) sums |
| Database.StatisticsSums | data/database.py:1079-1165 | the empty result exactly when the period is non-positive or there are no records; otherwise min(period, n) draws, the mean of their sums, the sum trend and the last ten sums |
| Database.ColumnRepeatsFacts | data/database.py:1198-1200 | a ball is counted for a red column exactly when some adjacent pair repeats it in that column |
| Database.BlueRepeatValuesFacts | data/database.py:1203-1204 | a blue is counted exactly when some adjacent pair repeats it |
| Database.CounterSharesFacts | data/database.py:1209-1225 | shares of a Counter over a total at least its size are keyed by the counted values, lie in (0, 1] and add up to size / total |
| Database.RepeatAnalysisFacts | data/database.py:1168-1233 | below two records the result is empty; otherwise n - 1 pairs, shares keyed by exactly the overlap sizes that occur (all 0..6), each in (0, 1], adding up to one, and the distribution counts each overlap size |
| Database.PositionSharesFacts | data/database.py:1214-1221 | each column's shares are keyed by the balls repeated in that column, lie in (0, 1], and add up to one for valid records whenever the column repeated |
| Database.BlueSharesFacts | data/database.py:1223-1225 | blue shares are keyed by the repeated blues, lie in (0, 1] and add up to the fraction of pairs that repeat the blue |
| Database.CounterTotalIsLength | data/database.py:1216 | a Counter's values add up to the number of values counted into it |
| Database.CountAllPairs | data/database.py:1179-1204 | the pair loop yields the overlap, column and blue Counters of the whole history |
| Database.CountersShares | data/database.py:1206-1225 | the share maps built from the final Counters are the analysis of the whole history |
| Database.GetRepeatProbabilityAnalysis | data/database.py:1168-1233 | the pair loop and the share maps yield exactly the analysis RepeatAnalysisFacts describes |
| Database.HotShape | data/database.py:1288-1312 | the hot numbers are min(top_n, drawn balls) distinct drawn balls, most frequent first; none for no records or a non-positive top_n |
| Database.HotTop | data/database.py:1311 | no drawn ball left out was drawn more often than the last hot number |
| Database.ColdSize | data/database.py:1341-1346 | the slice `[-top_n:]` of the 33 ranked reds: 33 for top_n 0 or at least 33, top_n for 0 < top_n < 33, 33 + top_n (at least 0) for a negative top_n, none without records |
| Database.ColdShape | data/database.py:1341-1346 | for valid draws the cold numbers are distinct reds, the least frequent last |
| Database.ColdBottom | data/database.py:1346 | every red left out of the cold numbers was drawn at least as often as each one listed |
| Database.GetHotNumbers | data/database.py:1288-1316 | the counting loop and `most_common(top_n)` yield the hot numbers HotShape describes |
| Database.GetColdNumbers | data/database.py:1318-1351 | the counting and zero-filling loops and the slice yield the cold numbers ColdShape describes |
| Combinations.PairsFromFacts | data/database.py:1249-1252 | the nested loop yields C(n, 2) pairs: exactly one per choice of two positions i < j, and nothing else |
| Combinations.RowsDistinct | data/database.py:1249-1252 | distinct values give distinct pairs |
| Combinations.DrawPairsFacts | data/database.py:1244-1252 | a draw contributes its 15 pairs, drawn from its reds; for distinct reds they are distinct and the smaller ball comes first |
| Combinations.AllPairsFacts | data/database.py:1244-1252 | fifteen pairs per draw, and with distinct reds a pair is counted at most once per draw |
| Combinations.PairCountsFacts | data/database.py:1242-1252 | the Counter's keys are the pairs seen, in first-appearance order, each counted by its multiplicity |
| Combinations.CountDrawPairs | data/database.py:1249-1252 | the nested loop adds exactly the draw's pairs to the Counter and its key order |
| Combinations.CountAllPairs | data/database.py:1244-1252 | the loop over the records yields the Counter of all their pairs with its key order |
| Combinations.RankPairsShape | data/database.py:1258 | `most_common` lists every key of the Counter exactly once |
| Combinations.RankPairsDescend | data/database.py:1258 | `most_common` lists the pairs by descending count |
| Combinations.RankPairsTies | data/database.py:1258 | pairs with equal counts keep the Counter's key order |
| Combinations.BuildTable | data/database.py:1257-1264 | the loop over the top fifty fills the table entry by entry |
| Combinations.GetCombinationProbability | data/database.py:1235-1271 | the counting loop and the table loop yield the result the lemmas below describe |
| Combinations.CombinationWindow | data/database.py:1237-1254 | the empty result exactly when the period is non-positive or there are no records; otherwise the period, min(period, n) draws and 15 pairs per draw |
| Combinations.ValidPairCount | data/database.py:1244-1252 | a pair counted from valid draws is two reds, the smaller first, counted at least once and at most once per draw |
| Combinations.PairKeyInjective | data/database.py:1260 | two pairs of numbers 0..99 with the same "aa-bb" key are the same pair |
| Combinations.MostCommonPairsFacts | data/database.py:1270 | up to twenty distinct pairs, each with its count in the window, most frequent first |
| Combinations.PairTableShape | data/database.py:1257-1264 | one entry per pair among the fifty most common, keys distinct, in ranking order |
| Combinations.PairTableEntry | data/database.py:1258-1264 | an entry holds the pair's count (between 1 and the number of draws), `count / total_games` as a probability in (0, 1], and an expected value equal to the count |
| Combinations.PairTableDescends | data/database.py:1258 | the entries come by descending count |
| AdvancedSpec.OmissionMapNonEmpty | data/advanced_processor.py:93-102 | a record's omission map holds all 33 balls, so it is never the empty (falsy) dictionary |
| AdvancedSpec.LastSeen | data/advanced_processor.py:94-100 | the last record at or before i that drew the ball, or -1: no record after it up to i draws the ball |
| AdvancedSpec.OmissionIsGap | data/advanced_processor.py:84-102 | a ball's omission at record i is i minus the last record that drew it (counting from -1), 0 exactly when record i draws it, and at most i + 1 |
| AdvancedSpec.ZeroCountersFacts | data/advanced_processor.py:84-85 | the initial counters are keyed by exactly 1..hi, all zero |
| AdvancedSpec.OmissionStep | data/advanced_processor.py:94-100 | record i's omission map is one counter update of the running map before it |
| AdvancedSpec.ValuesSumCount | data/advanced_processor.py:130-131 | a Counter's values add up to the number of values counted |
| AdvancedSpec.AvgFreqMean | data/advanced_processor.py:130-131 | the average frequency is the number of values over the number of distinct ones |
| AdvancedSpec.RedHeatMonotone | data/advanced_processor.py:149-156 | for a positive average every count gets exactly one tier, 热 exactly at ≥ 1.3 × average, 冷 exactly at ≤ 0.7 × average, and a larger count never a colder tier |
| AdvancedSpec.BlueHeatMonotone | data/advanced_processor.py:161-167 | the same for the blue with the factors 1.5 and 0.5 |
| AdvancedSpec.AvgFreqPositive | data/advanced_processor.py:130-131 | with at least one record the global averages are positive |
| AdvancedSpec.HotBallsFacts | data/advanced_processor.py:181-189 | at most 8 hot balls, no duplicates, each drawn at least three times in the window; when fewer than 8 qualify every qualifying ball is listed |
| AdvancedSpec.ColdBallsFacts | data/advanced_processor.py:192-195 | at most 10 cold balls, ascending, each a red with omission above 10; when fewer than 10 qualify all of them are listed |
| AdvancedSpec.GeneticBounds | data/advanced_processor.py:210-212 | the inherited reds are 0..6 and the inherited blue is 1 exactly when the blue repeats |
| AdvancedSpec.SumTrendFacts | data/advanced_processor.py:234-239 | exactly one direction; 上升 exactly for strictly rising, 下降 exactly for strictly falling sums |
| AdvancedSpec.StreakFacts | data/advanced_processor.py:245-252 | the backward walk counts records that all share a red with the current one and stops at the bound or at the first record sharing none |
| AdvancedSpec.ConsecutiveAppearBound | data/advanced_processor.py:246 | from record 4 on the consecutive count is 0..4 |
| AdvancedSpec.TruncDivFacts | data/advanced_processor.py:259 | `int()` rounds toward zero: down for a non-negative value, up for a negative one |
| AdvancedSpec.MeanOmissionBounds | data/advanced_processor.py:257-259 | the mean omission at record i lies between 0 and i + 1 |
| AdvancedSpec.PatternFacts | data/advanced_processor.py:267-273 | 复杂 exactly for AC ≥ 8, 简单 exactly for AC ≤ 5, 中等 exactly for 6..7 |
| AdvancedSpec.RiskFactors | data/advanced_processor.py:276-288 | at most three risk factors are counted |
| AdvancedSpec.RiskLevelFacts | data/advanced_processor.py:290-296 | 低风险 exactly for no factor, 中风险 for one, 高风险 for two or more; a sum in 70..140, fewer than 3 big intervals and mixed parity give 低风险 |
| Advanced.UpdateOmission | data/advanced_processor.py:94-100 | one counter pass: drawn balls reset to 0, the others incremented, and the record's map equals the new running map |
| Advanced.InitialCounters | data/advanced_processor.py:84-85 | the loop builds the zero counters ZeroCountersFacts describes |
| Advanced.RedHeatStatus | data/advanced_processor.py:148-158 | the loop over 1..33 gives each ball the tier RedHeatMonotone describes |
| Advanced.AverageFrequency | data/advanced_processor.py:130-131 | the sum loop gives the average frequency AvgFreqMean describes |
| Advanced.SelectHot | data/advanced_processor.py:188 | keeps the counted balls drawn at least three times, in key order |
| Advanced.SelectCold | data/advanced_processor.py:193-194 | keeps the balls 1..33 with omission above 10, ascending |
| Advanced.CountConsecutive | data/advanced_processor.py:245-254 | the backward loop yields the streak StreakFacts describes |
| Advanced.AverageOmission | data/advanced_processor.py:257-259 | the mean of the 33 omissions, truncated toward zero |
| Advanced.PatternAtIdempotent | data/advanced_processor.py:263-298 | running the pattern pass twice over the same fields writes what running it once does |
| Advanced.AdvancedFeatureProcessor.constructor | data/advanced_processor.py:15-25 | the given configuration, or the defaults |
| Advanced.AdvancedFeatureProcessor.ProcessAllFeatures | data/advanced_processor.py:27-42 | below two records nothing changes; otherwise every record ends with its omissions, heat tiers (from 20 records), hot/cold balls (from 10), inheritance (from record 1), trend (from record 4) and pattern |
| Advanced.AdvancedFeatureProcessor.ProcessStage2Features | data/advanced_processor.py:44-61 | below two records nothing changes; otherwise the omission, heat and hot/cold fields each record ends with |
| Advanced.AdvancedFeatureProcessor.ProcessStage3Features | data/advanced_processor.py:63-80 | below two records nothing changes; otherwise the inheritance, trend and pattern fields each record ends with |
| Advanced.AdvancedFeatureProcessor.CalculateOmissionFeatures | data/advanced_processor.py:82-112 | record k gets the omission map at k; the blue omission is only ever set to 0, on a record whose blue is in 1..16 |
| Advanced.AdvancedFeatureProcessor.CalculateHeatStatusFeatures | data/advanced_processor.py:114-169 | nothing below 20 records; otherwise record k gets the red tiers of its recent window against the global average and its blue's tier |
| Advanced.AdvancedFeatureProcessor.CalculateHotColdAnalysis | data/advanced_processor.py:171-197 | nothing below 10 records; otherwise record k gets the hot balls of its window and, when its omission map is set, its cold balls |
| Advanced.AdvancedFeatureProcessor.CalculateGeneticFeatures | data/advanced_processor.py:199-214 | record 0 is untouched; record k ≥ 1 gets the reds shared with record k - 1 and whether the blue repeats |
| Advanced.AdvancedFeatureProcessor.CalculateTrendFeatures | data/advanced_processor.py:216-261 | nothing below 5 records and for records 0..3; record k ≥ 4 gets the direction of its last three sums (a missing sum as 0), its streak and, when its omission map is set, the truncated mean omission |
| Advanced.AdvancedFeatureProcessor.CalculatePatternFeatures | data/advanced_processor.py:263-298 | every record gets its risk level and, when its AC value is set, its pattern |
| Processor.Process | data/processor.py:16-49 | a truthy stored red sum and average are kept; a falsy one is replaced by the sum of the reds and its average; sum tail and sum range stay as they were while the sum is falsy |
| Processor.ProcessIdempotent | data/processor.py:16-49 | processing a record a second time changes none of its fields |
| Processor.ProcessRecord | data/processor.py:16-49 | the record's fields afterwards are `Process` of its fields before, for its own draw; no other field changes |
| Processor.FillSums | data/processor.py:22-31 | a falsy red sum is replaced by the draw's sum with its rounded mean, a truthy one and its mean are kept; afterwards a truthy sum sets the tail to sum % 10 and the sum range, and a falsy one leaves both as they were |
| Processor.ProcessedIsStage1 | data/processor.py:22-47 | a processed record whose stored sum was missing or correct (and non-zero) holds the correct sum and every stage-1 feature of its draw |
| Processor.ProcessRecords | data/processor.py:51-60 | every record is processed and the result is the input list itself, in order, with none dropped; a record listed twice ends as if processed once |
| Validation.FirstRedProblemFacts | utils/validation_utils.py:21-25 | the element loop reports the first element that is not an int or lies outside 1..33, and reports nothing exactly when every element is an int in 1..33 |
| Validation.RedBallsPass | utils/validation_utils.py:12-35 | the red check passes exactly for a list of six ints in 1..33 that is strictly ascending |
| Validation.RedBallsOrder | utils/validation_utils.py:14-33 | a non-list fails first, then a wrong length whatever the elements, then a bad element before any repeat or disorder |
| Validation.BlueBallPass | utils/validation_utils.py:37-45 | the blue check passes exactly for ints in 1..16; `True` passes as 1 and `False` fails as 0 |
| Validation.IssueParts | utils/validation_utils.py:53-63 | on an issue of seven digits the year is the value of the first four and the sequence the value of the last three (a trailing newline is ignored) |
| Validation.IssuePass | utils/validation_utils.py:47-67 | an issue passes exactly when it is a string of seven digits (optionally newline-ended) with year in 2003..current year + 1 and sequence in 1..154 |
| Validation.IssueTextParts | utils/validation_utils.py:52-63 | the issue text of a four-digit year and a sequence below 1000 is seven digits and reads back as that year and sequence |
| Validation.IssueRoundTrip | utils/validation_utils.py:47-67 | every year 2003..current year + 1 (up to 9999) and sequence 1..154 has an issue text that passes and reads back |
| Validation.IssueTrailingNewline | utils/validation_utils.py:53-55 | seven digits and the same seven digits followed by one newline get the same verdict |
| Validation.ParseDateSound | utils/validation_utils.py:69-75 | a date string is accepted only when its year, month and day name a day of the calendar |
| Validation.DateRoundTrip | utils/validation_utils.py:69-75 | every calendar date of years 1..9999 written as zero-padded YYYY-MM-DD is accepted and read back as itself |
| Validation.DateUnpadded | utils/validation_utils.py:72 | the format also accepts unpadded fields: "2023-1-5" is 5 January 2023 |
| Validation.DateSpacePadded | utils/validation_utils.py:72 | a space may stand for the leading zero of a day: "2023-01- 5" is 5 January 2023 |
| Validation.DateNoLeapDay | utils/validation_utils.py:72-75 | 29 February of a common year is refused |
| Validation.DateLeapDay | utils/validation_utils.py:72-73 | 29 February of a leap year is accepted |
| Validation.FirstMissingFacts | utils/validation_utils.py:82-84 | the reported field is missing and every field before it present; nothing is reported exactly when all are present |
| Validation.HasFieldsIff | utils/validation_utils.py:79-84 | no field is missing exactly when all nine required fields are present |
| Validation.RecordPass | utils/validation_utils.py:77-111 | a record passes exactly when all nine fields are present and the issue, date, red and blue checks each pass |
| Validation.RecordMissing | utils/validation_utils.py:81-84 | a missing field is reported before anything is checked, and it is the first missing one in field order |
| Validation.DrawRecord | utils/validation_utils.py:97-100 | the record dict of a draw has the nine fields, with red1..red6 the reds in order |
| Validation.GoodRedsOf | utils/validation_utils.py:12-35 | six ascending reds in 1..33, stored as ints, satisfy the red check's condition |
| Validation.RecordOfDraw | utils/validation_utils.py:77-111 | a record written from a real draw (a valid issue, a zero-padded date, ascending reds, a blue in 1..16) passes |
| Validation.ScanFacts | utils/validation_utils.py:119-136 | the loop over 6_plus_1, 7_plus_1, 8_plus_1 accepts exactly when every present dict combination passes its check, and then lists the present keys in that order |
| Validation.PredictionPass | utils/validation_utils.py:113-141 | a prediction passes exactly when it is a dict with at least one combination present as a dict and every present one passing; the accepted keys are then those present, in order |
| Validation.ComboCheck | utils/validation_utils.py:124-134 | a combination passes exactly when it has the key's number of reds and a numeric blue in 1..16; a missing blue (default 0) fails |
| Validation.CheckPathsFacts | utils/validation_utils.py:152-156 | the path loop from a given key on finds nothing exactly when every remaining path key is present |
| Validation.CheckWindowsFacts | utils/validation_utils.py:159-165 | the window loop from a given key on finds nothing exactly when every remaining window key is present with a positive int |
| Validation.ConfigPass | utils/validation_utils.py:143-167 | a configuration whose paths and analysis are dicts passes exactly when all five sections, both path keys and all three windows are present and each window is a positive int |
| Validation.ConfigListWindows | utils/validation_utils.py:159-164 | an analysis section that is a list holding the window name passes the membership test and then raises on indexing |
| Validation.PhoneAccepts | utils/validation_utils.py:174-177 | an accepted number starts with eleven digits, 1 and then 3..9; every eleven-digit number of that form is accepted, and one trailing newline does not change the verdict |
| Validation.NumberRangeFacts | utils/validation_utils.py:179-188 | the check passes exactly when the value converts, under the modelled decimal grammar, to a number within [min, max], both ends included; lists, dicts and None are not numeric |
| Validation.DecimalOfNat | utils/validation_utils.py:182 | a natural number written in decimal converts to itself |
| Validation.UnsignedOfDigits | utils/validation_utils.py:182 | a non-empty digit string converts to its value |
| Validation.DecimalPoint | utils/validation_utils.py:182 | "12.5" converts to 12.5 |
| Validation.DecimalSigned | utils/validation_utils.py:182 | surrounding whitespace is stripped and a sign read: " -3 " converts to -3 |
| AnalysisService.CountRecord | services/analysis_service.py:66-72 | one pass of the record loop extends the red and blue counters of the first i records to those of the first i + 1 |
| AnalysisService.GetFrequencyAnalysis | services/analysis_service.py:54-93 | the counting loops, zero-fills and rankings compute exactly the specification `FrequencyOf` of the window's records |
| AnalysisService.BlueOrderFacts | services/analysis_service.py:72-80 | for valid records the blue counter's key order lists each ball 1..16 exactly once |
| AnalysisService.BlueTableFacts | services/analysis_service.py:72-80 | for valid records the blue table is keyed by exactly 1..16, gives each ball its number of draws, and its counts add up to the number of records |
| AnalysisService.BlueRankFacts | services/analysis_service.py:83 | the sorted blue list holds each ball 1..16 exactly once |
| AnalysisService.BlueRankOrder | services/analysis_service.py:83 | the sorted blue list is by descending count, ties by ascending ball |
| AnalysisService.RedTableFacts | services/analysis_service.py:66-76 | for valid records the red table is keyed by exactly 1..33, gives each ball its count, and its counts add up to six per record |
| AnalysisService.FrequencyFacts | services/analysis_service.py:54-93 | the window is the argument or the default; the records are the newest min(window, n), none for a window <= 0; red and blue tables cover exactly 1..33 and 1..16 with counts adding to 6n and n; both rankings list each ball once |
| AnalysisService.FirstBandIsSumBand | services/analysis_service.py:131-144 | because the low band starts at the smallest sum and the high band ends at the largest, the first-match scan places every sum of the window in its band |
| AnalysisService.RangeCountsFacts | services/analysis_service.py:139-144 | with every sum between the minimum and the maximum, band k counts exactly the sums that fall in band k, and the five counts add up to the number of sums |
| AnalysisService.FindBand | services/analysis_service.py:141-144 | the inner loop with its `break` returns the first band whose bounds hold the value |
| AnalysisService.CountRanges | services/analysis_service.py:139-144 | the outer loop over the sums produces the specification's band counts |
| AnalysisService.SumDirectionFacts | services/analysis_service.py:150-155 | 下降 exactly when at least two sums and the first exceeds the last, 上升 when it is below, 稳定 otherwise |
| AnalysisService.BuildRows | services/analysis_service.py:114-123 | one row per record with its issue, red sum, blue and red sum plus blue |
| AnalysisService.FirstSums | services/analysis_service.py:146-148 | `recent_trend` is the red sums of the first min(5, n) rows |
| AnalysisService.GetSumStatistics | services/analysis_service.py:106-171 | the loops compute exactly the specification `SumStatisticsOf` |
| AnalysisService.AverageBetween | services/analysis_service.py:127-129 | an average lies between the smallest and the largest value |
| AnalysisService.SumStatisticsFacts | services/analysis_service.py:106-171 | an error exactly for an empty window; otherwise the newest min(window, n) draws, a row per draw with its red sum and total, minimum and maximum attained and bounding every sum, the average between them, five band counts adding to n, and the first five sums as the trend |
| AnalysisService.SumBandsCounted | services/analysis_service.py:131-144 | band k of the statistics counts the window's sums that belong to band k |
| AnalysisService.TopAndBottom | services/analysis_service.py:201-208 | in a ranking of 33 distinct balls by descending count the first three and the last three are disjoint, and each of the first three counts at least as much as each of the last three |
| AnalysisService.SummaryTopNumbers | services/analysis_service.py:177-210 | for valid records the summary names three hottest and three coldest balls, none in both, each hottest drawn at least as often as each coldest |
| AnalysisService.FrequencyRanking | services/analysis_service.py:82 | the red ranking of valid records holds 33 distinct balls by descending count |
| AnalysisService.DetermineBallTrendFacts | services/analysis_service.py:313-333 | for two or more percentages: 递增 exactly for a non-decreasing list rising by more than 0.005, 递减 the mirror image, 稳定 exactly when max - min <= 0.005, 波动 otherwise |
| AnalysisService.KeptWindows | services/analysis_service.py:261-269 | at most one analysed window per requested size |
| AnalysisService.KeptWindowsFacts | services/analysis_service.py:261-269 | every analysed window holds at least ten draws and is the period data of one of the requested sizes |
| AnalysisService.AddWindowFacts | services/analysis_service.py:289-302 | appending a window adds a count, a percentage and a name to each ball 1..16 and leaves every other key alone |
| AnalysisService.CollectedFacts | services/analysis_service.py:255-302 | with no window the table is empty; otherwise it is keyed by exactly 1..16 and each ball has one entry per analysed window, in window order |
| AnalysisService.BlueBallTrendsFacts | services/analysis_service.py:246-311 | the blue trends are empty exactly when no window holds ten draws; otherwise exactly the balls 1..16, each with per-window counts and percentages, and the trend 数据不足 exactly when one window was analysed, else `DetermineBallTrend` of the percentages |
| AnalysisService.BlueWindowShares | services/analysis_service.py:271-287 | a window's blue count is the ball's number of draws and its percentage lies in [0, 1] |
| AnalysisService.AddWindowLoop | services/analysis_service.py:290-302 | the loop over balls 1..16 appends the window to each ball's entry |
| AnalysisService.CountBlueWindow | services/analysis_service.py:271-287 | one window's blue counter, zero-filled over 1..16, with its name and size |
| AnalysisService.AnalyzeWindow | services/analysis_service.py:261-302 | after one pass of the window loop the per-ball map is the specification `Collected` of the windows kept among the first k+1 sizes: a window of fewer than ten draws is skipped, otherwise appended to every ball |
| AnalysisService.AnalyzeBlueBallTrends | services/analysis_service.py:246-311 | the window loop and the labelling loop compute exactly the specification `BlueBallTrends` |
| AnalysisService.TrendReportGuardFacts | services/analysis_service.py:335-343 | a report is attempted exactly for ball type red with a ball in 1..33 or blue with a ball in 1..16 |
| PredictionService.CandidatesFacts | services/prediction_service.py:307-322 | the candidates are distinct, and a ball is one exactly when it is a red listed hot or warm |
| PredictionService.CandidatesOfClassify | services/prediction_service.py:300-322 | for a classified window the candidates are exactly the reds that are not cold |
| PredictionService.Middle | services/prediction_service.py:341 | the middle range holds exactly the available balls in 10..24, in the same ascending order |
| PredictionService.SafeExtensionFacts | services/prediction_service.py:333-350 | the safe ball is the smallest unused ball of 10..24; with those all used, the smallest unused red; with every red used, 2 |
| PredictionService.RepeatedCandidate | services/prediction_service.py:233-240 | as written, a first candidate that is already among the reds appears twice in 7+1 and in 8+1 |
| PredictionService.FirstFresh | services/prediction_service.py:233-244 | the picked candidate is a candidate not yet chosen; none is picked only when every candidate is already chosen |
| PredictionService.FirstFreshIsFirst | services/prediction_service.py:233-244 | every candidate before the picked one is already chosen |
| PredictionService.PickFacts | services/prediction_service.py:233-248 | with red candidates and fewer than 33 chosen balls the pick is an unused red |
| PredictionService.ExtendFacts | services/prediction_service.py:232-248 | from six distinct reds, 7+1 is the six plus one unused red and 8+1 the seven plus one more, each distinct and sorted; the first unused candidate is in 7+1 |
| PredictionService.EnsureHierarchyAsWrittenDuplicate | services/prediction_service.py:224-248 | as written, a well-formed 6+1 whose first candidate is one of its reds gives a 7+1 and an 8+1 that repeat a ball |
| PredictionService.HierarchyDuplicateExample | services/prediction_service.py:224-248 | the reds 1..6 with candidates [1, 2] give, as written, a 7+1 holding the ball 1 twice |
| PredictionService.HierarchyAgrees | services/prediction_service.py:224-248 | on a six-red 6+1 whose first candidate is not among its reds and whose second, when there is one, is not in the 7+1 as written, the corrected repair equals the repair as written |
| PredictionService.EnsureHierarchyFacts | services/prediction_service.py:212-288 | without a six-red 6+1 nothing changes; otherwise 6+1 stays, 7+1 and 8+1 hold the six reds plus one and two more distinct reds, the base blue, 0.9 and 0.8 of its confidence and its strategy with the suffix |
| PredictionService.MlAdjustFacts | services/prediction_service.py:352-391 | only 6+1 changes and only with a usable ML prediction: its confidence becomes min(100, itself + 2 × overlap with the first six ML balls), the overlap recorded when positive; the suggestion holds the first six and all ML balls |
| PredictionService.PrimaryWindow | services/prediction_service.py:609-633 | the primary window is the first of the order that was analysed, none exactly when none was |
| PredictionService.FirstMax | services/prediction_service.py:617 | the most likely repeat count is a present key in 0..hi |
| PredictionService.FirstMaxFacts | services/prediction_service.py:617 | no count exactly when no key 0..hi is present; otherwise a present count whose probability is the largest and strictly above every earlier one, as `max` keeps the first maximum |
| PredictionService.FirstMaxIsScanBest | services/prediction_service.py:617 | over the counts 0..6 with no negative probability the service's most likely count is the probability analyzer's |
| PredictionService.ProbabilityAdjustmentFacts | services/prediction_service.py:648-656 | the adjustment is never negative, at most 8 for a probability, and zero exactly when the blue probability is at most 0.15 and the most likely count is not 2 or 3 |
| PredictionService.ProbabilityAdjustedFacts | services/prediction_service.py:643-665 | a zero adjustment leaves a combination as it was; otherwise reds, blue and strategy stay, the confidence is clamped to 0..100, and the adjustment and its reason are recorded |
| PredictionService.ProbabilityAdjustedSetFacts | services/prediction_service.py:599-665 | without an analysed window nothing changes; otherwise the primary window is the first analysed of long, medium, short, all history and every present combination is adjusted by the same amount |
| PredictionService.RepeatTrendsMatch | services/prediction_service.py:1188-1208 | the service's repeat trends are the analyzer's without labels: the same window probabilities per count, empty exactly when no window was analysed |
| PredictionService.DetermineTrendMeaning | services/prediction_service.py:1210-1233 | the label equals the probability analyzer's: 数据不足 below two values, 数据不完整 for other than four, 递增/递减 a monotone change above 0.02, 稳定 a spread of at most 0.02, 波动 otherwise |
| PredictionService.WindowStatisticsFacts | services/prediction_service.py:561-577 | a window has an entry exactly when it is bounded and min(period, stored draws) is at least ten; the entry uses that many draws |
| PredictionService.GatheredFacts | services/prediction_service.py:561-577 | the gathered statistics hold exactly the windows of the list that have an entry |
| PredictionService.MultiWindowStatisticsFacts | services/prediction_service.py:526-587 | an entry for each of short, medium and long term that is bounded (30, 50, 100 when missing) and covers at least ten stored draws, and for no other; each names its window and counts its draws |
| PredictionService.RecordedFacts | services/prediction_service.py:1338-1353 | a failed save changes nothing; a successful one appends its entry and keeps the newest fifty, so the history ends with it and never exceeds fifty |
| PredictionService.HistoryViewFacts | services/prediction_service.py:751-753 | a positive limit gives the newest `limit` entries, a zero limit the whole history (`-0` is 0), a negative limit drops that many of the oldest |
| PredictionService.PredictionResult.constructor | services/prediction_service.py:212-288 | a result holds the three combinations and the ML prediction and no adjustments yet |
| PredictionService.Service.constructor | services/prediction_service.py:23-51 | the service starts with an empty hot/cold cache, an empty history and a fresh hot/cold analyzer using the configured short-term window |
| PredictionService.Service.GetExtensionCandidates | services/prediction_service.py:290-331 | the categories of the short-term window come from the cache, or from the analyzer and are then cached; the candidates are `Candidates` of their hot and warm lists; on a miss the cached categories and the analyzer's own cache are what `analyze` over that window leaves (`AnalyzeOutcome`), including the uncached empty result when there are no records |
| PredictionService.Service.CollectCandidates | services/prediction_service.py:311-322 | the two loops and `dict.fromkeys` compute `Candidates` |
| PredictionService.Service.EnsurePredictionHierarchy | services/prediction_service.py:212-288 | without a six-red 6+1 nothing changes, not even the caches; otherwise the combinations become the corrected `EnsureHierarchy` (see Findings) over the cached candidates, which `HierarchyAgrees` shows equal to the repair as written whenever the candidates it takes are fresh |
| PredictionService.Service.AdjustWithMlPredictions | services/prediction_service.py:352-391 | the combinations become `MlAdjustedSet` and the suggestion is set exactly when the ML prediction is usable |
| PredictionService.Service.AdjustPredictionsWithProbability | services/prediction_service.py:589-670 | the combinations become `ProbabilityAdjustedSet` and the insights are set exactly when a window was analysed |
| PredictionService.Service.GetMultiWindowStatistics | services/prediction_service.py:526-587 | the loop over the windows computes `MultiWindowStatistics` |
| PredictionService.Service.GatherWindow | services/prediction_service.py:561-577 | one pass extends the statistics of the first i windows to the first i + 1 |
| PredictionService.Service.WindowEntry | services/prediction_service.py:562-577 | one window's entry is `WindowStatisticsOf` |
| PredictionService.Service.AddToHistory | services/prediction_service.py:1338-1353 | the history becomes `Recorded` of the old history, and stays within fifty entries |
| PredictionService.Service.GetPredictionHistory | services/prediction_service.py:751-753 | the returned entries are `HistoryView` of the history |
| Predictor.SplitFacts | data/predictor.py:93-96 | a ranking of the 33 reds splits into three tiers of 11 distinct reds that together cover every red |
| Predictor.FallbackCategoriesLoop | data/predictor.py:72-98 | the counting loop, the zero-fill, `most_common()` and the three slices compute the specification `FallbackCategories` |
| Predictor.FallbackFacts | data/predictor.py:73-98 | no records give three empty tiers; otherwise three tiers of 11 distinct reds covering 1..33 |
| Predictor.FallbackRanking | data/predictor.py:91-96 | every fallback-hot ball was drawn at least as often as every warm one and every warm one as every cold one; on equal counts the ball first seen earlier ranks higher |
| Predictor.TopOf | data/predictor.py:100-115 | the result is a prefix of the tier, of length min(top_n, its length) for a non-negative top_n, and the slice `[:top_n]` for a negative one |
| Predictor.BallStatusFacts | data/predictor.py:117-125 | over the fallback tiers each red's status names the one tier that holds it |
| Predictor.ClassifyTiers | data/predictor.py:63-69 | the analyzer's classification also gives three tiers of 11 distinct reds |
| Predictor.SampleOf | data/predictor.py:142-148 | `random.sample(pool, k)` gives k distinct balls of the pool |
| Predictor.SampleOverlap | data/predictor.py:171-172 | a sample of k balls of a pool shares at least k balls with any list that holds it |
| Predictor.BlueCandidates | data/predictor.py:163-167 | the blue candidates are the blues drawn once or twice in the last 20 records, or, when there are none, the blues drawn at most three times |
| Predictor.BlueCandidatesNonEmpty | data/predictor.py:163-168 | with at most 20 valid records some blue was drawn at most three times, so the candidates are never empty and `randint` is never reached |
| Predictor.ChooseBlue | data/predictor.py:168 | the blue is a candidate when there are candidates and a ball 1..16 in any case |
| Predictor.Unused | data/predictor.py:238 | the unused balls of a pool are exactly its balls not among the reds |
| Predictor.AddOne | data/predictor.py:237-248 | the extra ball is an unused red, taken from the pool when the pool has an unused ball; the grown list is the reds plus it, distinct and sorted |
| Predictor.StatusMap | data/predictor.py:176 | the status map is keyed by exactly the predicted reds |
| Predictor.SortedSet | data/predictor.py:160 | sorting keeps the set of balls |
| Predictor.FullSelection | data/predictor.py:141-151 | a 3 hot + 2 warm + 1 cold selection from full tiers shares exactly 3, 2 and 1 balls with the tiers |
| Predictor.SelectReds | data/predictor.py:140-160 | six distinct reds sharing at least min(3, hot), min(2, warm), min(1, cold) balls with the tiers, exactly 3/2/1 with full tiers |
| Predictor.SortedSelectedReds | data/predictor.py:140-160 | the selection in ascending order: six distinct sorted reds with the same tier overlaps as the selection, exactly 3/2/1 with full tiers |
| Predictor.PredictByHotCold | data/predictor.py:127-185 | six distinct sorted reds with the 3/2/1 tier overlaps, a blue among the blue candidates, a confidence within 5 of 60 + 5·hot - 3·cold capped at 85 (67..77 with full tiers), the status of each red and the strategy name |
| Predictor.OverlapMono | data/predictor.py:171 | a list holding another shares at least as many balls with a pool |
| Predictor.OverlapGrows | data/predictor.py:237-248 | adding a ball of the pool that the base lacks raises the overlap with the pool by one |
| Predictor.LongerPoolHasFresh | data/predictor.py:238-240 | a repeat-free pool longer than the base holds a ball the base lacks |
| Predictor.HotExtra | data/predictor.py:237-248 | with at least seven hot balls among the top ones, the extra ball is hot and the hot overlap grows by one |
| Predictor.Predict7Plus1 | data/predictor.py:227-263 | seven distinct sorted reds with at least min(3, hot) hot balls (four with seven hot balls), the 6+1 blue, a confidence of 0.9 × the 6+1 one (at most 76.5; 60.3..69.3 with full tiers), the statuses and the strategy name |
| Predictor.Predict8Plus1 | data/predictor.py:265-314 | eight distinct sorted reds with at least min(3, hot) hot balls (four with seven hot balls), the 6+1 blue, a confidence of 0.8 × the 6+1 one (at most 68; 53.6..61.6 with full tiers), the statuses and the strategy name |
| Predictor.Recommend | data/predictor.py:331-339 | the recommendation is the largest confidence, the first of 6+1, 7+1, 8+1 on ties |
| Predictor.PredictAllCombinations | data/predictor.py:316-341 | three predictions of 6, 7 and 8 reds and the recommendation among their confidences; with full tiers 8+1 is never recommended |
| Statistics.HotThreshold | analysis/statistics.py:47 | `max(1, int(k·0.3))` is at least 1 and at most k for k >= 1, and twice it fits in k exactly when k >= 2 |
| Statistics.RankedRedsFacts | analysis/statistics.py:31-46 | the ranking of the recent reds lists every drawn red exactly once |
| Statistics.SplitShape | analysis/statistics.py:47-49 | of a duplicate-free ranking the hot part is the first t balls and the cold part the last t, none with fewer than two balls, and no ball is in both |
| Statistics.ThirtyPercentSplit | analysis/statistics.py:31-49 | for the recent records the ranking lists every drawn red once, hot is its first t balls, cold its last t (none below two distinct reds), and the two are disjoint |
| Statistics.SplitRanks | analysis/statistics.py:46-49 | in any stable ranking by descending count every hot ball ranks above every cold ball |
| Statistics.HotAboveCold | analysis/statistics.py:31-49 | every hot ball was drawn at least as often as every cold one, and on equal counts was first drawn earlier |
| Statistics.LaplaceTotal | analysis/statistics.py:52-67 | the smoothed probabilities cover exactly 1..33, are positive, and add up to (6T + 33) / (T + 33) over T historical records |
| Statistics.NextProbabilityFacts | analysis/statistics.py:108-121 | the next-draw percentage is positive and at most 30, never less for a more frequent ball, and 1800/330 for a ball not drawn |
| Statistics.LatestAnalysis | analysis/statistics.py:79-89 | one entry per red of the newest record |
| Statistics.AnalyzeHotCold | analysis/statistics.py:21-106 | the Counter loops compute exactly the specification `HotColdOf` |
| Statistics.HotColdFacts | analysis/statistics.py:21-106 | a report exactly when recent_n > 0 and there are records; it covers the newest record's six reds with their recent frequency, 热号 exactly for hot and 冷号 exactly for cold balls, and its blue with its frequency |
| Statistics.TrendsAsWrittenCrashes | analysis/statistics.py:130-150 | as written, window_n of 1 or 2 with any record gives window size 0 and the last window start reads past the data (IndexError) |
| Statistics.WindowSize | analysis/statistics.py:130 | the corrected window size lies in 1..10 |
| Statistics.TrendsFacts | analysis/statistics.py:123-156 | with the corrected size the analysis never raises, reports no data exactly without records, gives one entry per full window starting at its record, and agrees with the source wherever the source does not raise |
| Statistics.WindowEntryFacts | analysis/statistics.py:135-154 | a window's cold count is always 0 since every ranked ball was drawn in it, its hot count is at most the threshold, and the average frequency of a non-empty window is at least 1 |
| Statistics.WindowEntryLoop | analysis/statistics.py:133-154 | one window's entry, counted with a Counter loop, equals the specification `WindowEntry` |
| Statistics.AnalyzeTrends | analysis/statistics.py:123-156 | the loop over the window starts computes the corrected `TrendsOf` |
| Statistics.SumBucketFacts | analysis/statistics.py:182-184 | the bucket b-(b+9) holds the sum and b is a multiple of 10 |
| Statistics.SumBuckets | analysis/statistics.py:181-184 | one sum bucket per record |
| Statistics.OddEvenLabels | analysis/statistics.py:186-188 | one odd:even label per record |
| Statistics.TallyRecord | analysis/statistics.py:174-188 | one pass of the record loop extends the tallies of the first i records to the first i + 1 |
| Statistics.GetBasicStatistics | analysis/statistics.py:158-198 | the record loop and the repeat loop compute exactly the specification `BasicStatisticsOf` |
| Statistics.BasicStatisticsFacts | analysis/statistics.py:158-198 | empty exactly for limit <= 0 or no records; otherwise the red distribution totals 6n, the blue distribution and the sum buckets n, one odd:even label per record and one repeat count in 0..6 per adjacent pair |
| Statistics.OddEvenFacts | analysis/statistics.py:187-188 | each label is "o:e" with o the number of odd reds and e = 6 - o, both in 0..6 |
| TrendAnalysis.DirectionExclusive | analysis/trend_analysis.py:83-88 | 上升 exactly when rises > 1.5 × falls, 下降 exactly when falls > 1.5 × rises, 震荡 exactly when neither; the three are exclusive |
| TrendAnalysis.RisesFallsBound | analysis/trend_analysis.py:77-81 | each neighbour pair rises, falls or is level, so rises and falls together count at most n - 1 |
| TrendAnalysis.NegateSwaps | analysis/trend_analysis.py:77-81 | mirroring a series turns its rises into falls and its falls into rises |
| TrendAnalysis.NegateDirection | analysis/trend_analysis.py:68-88 | mirroring a series swaps 上升 and 下降 and keeps 震荡 and 未知 |
| TrendAnalysis.TrendDirectionCases | analysis/trend_analysis.py:68-88 | 未知 exactly below two values; a level series of two or more gives 震荡, a strictly rising one 上升, a strictly falling one 下降 |
| TrendAnalysis.CalculateTrendDirection | analysis/trend_analysis.py:68-88 | the counting loop computes the specification `TrendDirection` |
| TrendAnalysis.OddCounts | analysis/trend_analysis.py:47-52 | one odd count per record |
| TrendAnalysis.AnalyzeRecentTrends | analysis/trend_analysis.py:21-66 | the loops collecting sums and odd counts compute the specification `RecentTrendsOf` |
| TrendAnalysis.HotNumbersFacts | analysis/trend_analysis.py:90-99 | `most_common()` lists each drawn red once with its count (at least 1), most frequent first |
| TrendAnalysis.RecentTrendsFacts | analysis/trend_analysis.py:21-66 | a report exactly when the window holds ten records; the sum trend is the direction of the last five sums of the newest-first list (the five oldest draws), the current sum and odd count are the oldest record's, the odd count is 0..6, and min(10, distinct reds) hot reds are listed |
| EnhancedAnalyzer.HotColdWithTrendsFacts | core/enhanced_analyzer.py:21-30 | with the fixed window of 30 the trend windows hold ten records, so the combined report never raises and its trends are the corrected ones; the hot/cold and basic parts are empty exactly when there are no records |
| EnhancedAnalyzer.MatchesFacts | core/enhanced_analyzer.py:36-58 | each match comes from a record sharing at least three reds with the prediction and carries the shared reds and their number; every such record gives a match |
| EnhancedAnalyzer.InsertMatch | core/enhanced_analyzer.py:61 | inserting a match keeps every other match and adds exactly it |
| EnhancedAnalyzer.SortMatches | core/enhanced_analyzer.py:61 | the sorted matches are a permutation of the matches |
| EnhancedAnalyzer.SortMatchesDescends | core/enhanced_analyzer.py:61 | the sorted matches are by descending score |
| EnhancedAnalyzer.SortMatchesStable | core/enhanced_analyzer.py:61 | the sort is stable: for every score, the matches of that score appear in the sorted list in record order |
| EnhancedAnalyzer.TopMatchesFacts | core/enhanced_analyzer.py:61 | the top matches are min(top_n, n) of the matches (the Python slice for a negative top_n), best score first, each a match of the prediction; every match left out scores at most each match kept, and for every score the kept matches of that score are the first of them in record order |
| EnhancedAnalyzer.ScoreAtLeastCount | core/enhanced_analyzer.py:45-51 | a record with a non-negative integer issue scores at least its match count |
| EnhancedAnalyzer.CollectMatches | core/enhanced_analyzer.py:36-58 | the match loop computes the specification `MatchesOf` |
| EnhancedAnalyzer.RepeatProbabilityFacts | core/enhanced_analyzer.py:80-104 | 0 below two records; otherwise 100 × (pairs sharing a red) / (pairs), within 0..100, 100 exactly when every pair shares a red and 0 exactly when none does |
| EnhancedAnalyzer.RepeatProbabilityFormula | core/enhanced_analyzer.py:95-102 | the distribution's keys 0..6 total the pairs and its keys 1..6 count the pairs sharing a red |
| EnhancedAnalyzer.CalculateRepeatProbability | core/enhanced_analyzer.py:80-104 | the repeat loop and the Counter compute the specification `RepeatProbability` |
| EnhancedAnalyzer.FindBestMatches | core/enhanced_analyzer.py:32-78 | the loops compute the specification `BestMatchesOf` |
| EnhancedAnalyzer.BestMatchesFacts | core/enhanced_analyzer.py:64-78 | the repeat fields are present exactly when there are records; the newest record then shares 0..6 reds with the prediction |
| Crawler.IssueIdDigits | data/crawler.py:418 | a year part below 100 and a number below 1000 format to five digits whose value is yearPart·1000 + num, the first two digits reading back as the year part and the last three as the number |
| Crawler.IssueIdOrder | data/crawler.py:418-421 | two such ids compare as strings exactly as their numeric keys compare (both directions) |
| Crawler.IdsSorted | data/crawler.py:418-421 | ids of issues in ascending key order are strictly increasing as strings |
| Crawler.YearRunMembers | data/crawler.py:417-418 | `range(first, last + 1)` of one year holds exactly the issues of that year numbered first..last, in ascending order |
| Crawler.AppendYear | data/crawler.py:417-418 | the append loop extends the list by exactly the ids of the year's run, in order |
| Crawler.TableRunMembers | data/crawler.py:411-418 | the 2003..2025 loop generates exactly the numbers 1..`year_issues.get(year, 0)` of each year |
| Crawler.TableRunAscending | data/crawler.py:411-418 | with at most 999 draws a year, the table ids ascend year after year and stay below the next year's |
| Crawler.AllIssuesOrder | data/crawler.py:397-423 | while the latest 2026 number fits three digits, the sorted list is the 2003..2025 ids followed by the 2026 ids, strictly increasing, so no id is repeated |
| Crawler.GenerateAllIssues | data/crawler.py:397-423 | the loops and the final sort compute exactly the specification `AllIssues`, None when the latest id's number is not an integer |
| Crawler.ConfiguredTable | config.py:240-246 | the configured table gives 2003 its 89 draws and lists no year of the 1900s |
| Crawler.RangeSymmetric | data/crawler.py:485-490 | swapping the two ids changes neither the parsed bounds nor the outcome |
| Crawler.BoundsOfIds | data/crawler.py:467-490 | two formatted ids with year parts at least 3 and numbers at least 1 pass the guards and come back as their parts, the earlier first |
| Crawler.DigitRangeRefused | data/crawler.py:467-483 | between two five-digit ids the range is refused exactly when a year part is below 3 or a number is 0 |
| Crawler.DigitBounds | data/crawler.py:471-490 | after the guards the bounds are the two ids' parts in key order, the upper bound formatting back to the later id |
| Crawler.DigitRangeOrder | data/crawler.py:461-526 | otherwise the range never hits the empty-list error and its ids are non-empty, strictly increasing and end at the later id |
| Crawler.RangeRunFacts | data/crawler.py:492-523 | between ordered bounds the generated issues are non-empty, fit five digits, ascend and end at the upper bound |
| Crawler.IssueOf | data/crawler.py:471-474 | the split of a five-digit id has a year part below 100 and a number below 1000 |
| Crawler.IssueOfFacts | data/crawler.py:471-474 | `int(id[:2])` and `int(id[2:])` give the two parts, they format back to the id, and the id's value is their key |
| Crawler.SpansWithinYears | data/crawler.py:502-523 | with the century corrected, no cross-year span asks a year before the last for more draws than the table gives it |
| Crawler.RangeWithinYears | data/crawler.py:502-523 | with the century corrected, every generated issue of a year before the last, listed in the table, is within that year's count |
| Crawler.ExampleIds | data/crawler.py:498 | the ids of year part 3 number 88, year part 4 number 2 and year part 3 number 90 are 03088, 04002 and 03090 |
| Crawler.CrossYearOvershoot | data/crawler.py:502-523 | as written, with no 1900s year in the table, 03088..04002 generates 03090, a draw past the configured 89 of 2003 |
| Crawler.CrossYearCorrected | data/crawler.py:502-523 | with the century corrected, 03088..04002 is exactly 03088, 03089, 04001, 04002 |
| Crawler.RangeAgrees | data/crawler.py:492-523 | for ids of one year, or a range whose year parts all exceed 23, the corrected range equals the range as written |
| Crawler.CrawlIssueRange | data/crawler.py:461-533 | the guarded loops over years and numbers compute exactly the corrected specification `IssueRange` (see Findings), which `RangeAgrees` shows equal to the range as written outside the misread century |
| Crawler.GenerateRange | data/crawler.py:492-523 | the nested loops produce exactly the ids of the corrected run between the bounds |
| Crawler.AcceptedIssueIff | data/crawler.py:729-741 | a prompt answer is accepted exactly when, stripped, it is the id of a year part 3..99 and number 1..154, and the stripped text is returned |
| Crawler.AcceptedIssueRange | data/crawler.py:729-741 | an id accepted at the prompt passes the range guards, and the range from it to itself is just that id |
| Crawler.GroupAt | data/crawler.py:337 | a group of one or two digits followed by the rest of the pattern; length 0 when neither fits |
| Crawler.MatchAt | data/crawler.py:337-350 | a match gives a four-digit year and a one- or two-digit month and day |
| Crawler.SearchLeftmost | data/crawler.py:337-350 | `re.search` returns the match at the leftmost position that matches, and none only when no position matches |
| Crawler.ParseDateShape | data/crawler.py:331-355 | every parsed date has the shape YYYY-MM-DD |
| Crawler.ParseIsoDate | data/crawler.py:344-350 | a YYYY-MM-DD date is read back as itself |
| Crawler.ParseDateIdempotent | data/crawler.py:331-355 | parsing a parsed date gives the same date |
| Crawler.ParseChineseDate | data/crawler.py:336-342 | Y年M月D日 with a one- or two-digit month and day becomes Y-MM-DD with zero padding |
| Crawler.DayOffsetSchedule | data/crawler.py:368-375 | the first draw is day 0, the schedule repeats every three draws a week later, consecutive draws are 2 or 3 days apart and fall on week days 0, 2, 5 |
| Crawler.DayOffsetIncreasing | data/crawler.py:368-375 | a later draw number is always estimated on a later day |
| ModelTraining.TierSizeFacts | services/model_training.py:408-412 | `max(1, int(k*0.33))` is at least one and at most a third of k from three balls on, so the outer tiers leave a warm middle; 33 balls give 10 |
| ModelTraining.CutFacts | services/model_training.py:409-418 | the slices `[:t]`, `[-t:]` and `[t:-t]` are the first t, the last t and the middle of the ranking |
| ModelTraining.SplitTiersFacts | services/model_training.py:407-418 | hot is the first t ranked balls and cold the last t; when the ranking holds both, hot + warm + cold is the ranking, otherwise warm is empty; 33 ranked balls split 10 / 13 / 10 |
| ModelTraining.TrainStatisticalModel | services/model_training.py:377-449 | the guard, the counting loop, the ranking and the cuts compute exactly the specification `StatisticalModelOf` |
| ModelTraining.CountBalls | services/model_training.py:387-397 | the loop leaves the red Counter equal to the counts of all red columns (keys in first-seen order) and the blue Counter equal to the counts of the blues |
| ModelTraining.StatisticalModelGuard | services/model_training.py:381-399 | the model is refused with 数据不足 exactly below fifty records, and an accepted model counts every record as a game |
| ModelTraining.RedRankingFacts | services/model_training.py:405 | `most_common()` lists every drawn red ball exactly once, at least one for a non-empty history and at most 33 for valid records |
| ModelTraining.ModelFields | services/model_training.py:405-449 | an accepted model's tiers are the split of the ranking, its top-10 lists the ranking's first and last ten, and its probabilities the shares of the two Counters |
| ModelTraining.WholeShares | services/model_training.py:421-429 | dividing each count of a Counter by the number counted gives one share per value seen, each in (0, 1], adding up to one over the value range |
| ModelTraining.RedProbabilities | services/model_training.py:421-424 | each red share is count / (6·games), and for valid records the shares add up to one over 1..33 |
| ModelTraining.BlueProbabilities | services/model_training.py:426-429 | each blue share is count / games, and for valid records the shares add up to one over 1..16 |
| ModelTraining.RankingTiersOrder | services/model_training.py:405-418 | on a `most_common()` ranking every hot ball ranks above every warm one and every warm one above every cold one |
| ModelTraining.StatisticalTiers | services/model_training.py:405-418 | hot ranks above warm and warm above cold; from three ranked balls hot + warm + cold is the ranking with outer tiers of the tier size and a non-empty middle; 33 ranked balls give 10 / 13 / 10 |
| ModelTraining.StatisticalTop10 | services/model_training.py:431-433 | the top-10 lists are the first and last ten ranked balls (all of them when fewer), and from twenty ranked balls each of the first ranks above each of the second |
| ModelTraining.PrepareTrainingData | services/model_training.py:62-112 | the loop over adjacent records computes exactly the specification `TrainingData` |
| ModelTraining.TrainingDataFacts | services/model_training.py:65-105 | there is no training data exactly below ten records; otherwise one feature row and one label per adjacent pair |
| ModelTraining.TrainingRow | services/model_training.py:74-105 | row i holds record i's reds and blue, an odd count in 0..6, a mean that is a sixth of the sum, a weekday column in 0..6 and a decay n - i that falls by one per row; its label is record i + 1's balls |

## Left out

- SQLite storage: connections, schema, migrations, backup and every query; the aggregation bodies take the record list instead.
- Network access and HTML scraping in the crawler (`smart_request`, page parsing, `_crawl_issues_list` with its sleeps and saves, `crawl_single_year`, `crawl_recent_years`, `crawl_historical_data`, `crawl_current_year_data`), and the weekday search and `datetime` arithmetic of `_estimate_date_from_issue`; only its day offset is modelled.
- Python's `int()` on strings is modelled for ASCII digits with an optional sign and surrounding whitespace; underscores and non-ASCII digits are not.
- Validation.IssuePass / Validation.PhoneAccepts / Crawler.AcceptedIssueIff / Crawler.GroupAt / Crawler.MatchAt: only the ASCII digits 0..9 count as digits, and `Common.Strip` removes only space, tab, newline, carriage return, form feed and vertical tab. In Python, `\d` in a str pattern and `int()` also accept every other Unicode decimal digit, so full-width "２０２４００１" passes `validate_issue_number`. `str.strip()` also removes U+3000, U+00A0, U+0085 and U+001C..U+001F, so "\u300003088" is accepted at the crawler prompt. These members answer as Python does on ASCII input and refuse the other digits and spaces.
- Validation.NumberRangeFacts / Validation.FloatOf: strings convert under the decimal grammar [sign] digits [. digits] only. Python's `float()` also accepts exponents ("1e3", "2.5E-1"), "inf", "infinity" and "nan" in any case, underscores between digits ("1_000") and non-ASCII digits; the model reports these as not numeric, whereas the source converts them ("1e3" is 1000.0, and "nan" fails both bounds and is reported out of range).
- Machine learning: XGBoost and LightGBM training, pickling, `joblib`, numpy arrays and `PredictionService._get_ml_prediction`; of `prepare_training_data` only the guard and the row layout are modelled.
- ModelTraining.TrainingRow: the standard-deviation column (`np.std`, a floating-point square root) and the float32 conversion are not modelled.
- Report and text generation: `_generate_trend_summary`, `generate_probability_report`, `generate_prediction_report`, `generate_comprehensive_report`, `generate_training_report`, and the body of `get_ball_trend_report` (only its argument checks are modelled); display names of balls and windows.
- Report files, history persistence, system information and the `run_enhanced_prediction` pipeline of the prediction service, `_add_unified_hot_cold_labels` and `_get_default_prediction_result`.
- `Predictor`: `predict_random`, `predict_mixed_strategy` and `predict_with_probability`, which only draw random numbers.
- `AnalysisService`: `get_basic_statistics` and `get_hot_cold_numbers` only delegate to the store's period statistics and to the hot/cold analyzer, which are modelled; `get_individual_ball_trend_analysis` only merges their results.
- The advanced processor's history cache and `get_advanced_analysis`, which assembles a report.
- `validate_email` in utils/validation_utils.py (a regular expression outside the modelled validators).
- Logging, timestamps in results, `print` and the console menus.
- Floating-point rounding: ratios are exact; `round(x, 2)` is captured by bounds only, and the least-squares slope is exact.

## Findings

| source | as written | input that shows it | evidently intended | confidence | as-written member | corrected member |
|---|---|---|---|---|---|---|
| services/prediction_service.py:224-248 | the 7+1 and 8+1 repair adds the first and second extension candidates without checking them against the 6+1 reds | 6+1 reds 1..6 and candidates [1, 2]: the 7+1 holds the ball 1 twice | add the first candidates that are not already among the reds, so 7+1 and 8+1 hold 7 and 8 distinct reds | not executed | PredictionService.EnsureHierarchyAsWrittenDuplicate | PredictionService.EnsureHierarchyFacts |
| analysis/statistics.py:130-150 | `window_size = min(10, window_n // 3)` is 0 when window_n is 1 or 2, so the loop runs over `range(len(all_data) + 1)` and its last pass reads `all_data[len(all_data)]` | window_n 1 and a store holding at least one record: the last window start indexes past the data (IndexError) | a window size of at least 1, so every window start lies inside the data | not executed | Statistics.TrendsAsWrittenCrashes | Statistics.TrendsFacts |
| data/crawler.py:502-523 | across years the per-year count is looked up under 1900 + year part for year parts up to 23, which the table never lists, so the default 154 is used | 03088 to 04002: generates 03090 up to 03154, draws 2003 never had | look up 2000 + year part, so a year is never asked for more draws than it had | not executed | Crawler.CrossYearOvershoot | Crawler.CrossYearCorrected |
