# MLB hitter-versus-stadium projection, modelled in Dafny

This project models the decision and arithmetic core of a tool that compares a baseball
hitter's batted balls with the 30 major-league parks. The modelled parts are:

- **Statcast filtering and the hitter summary** (`hitter_data.dfy`).
  - The balls-in-play filter keeps events of type `X` that have a launch speed and a launch angle.
  - The summary fold computes counts, means, the maximum and rates. A rate whose column is absent is `None`.
- **Stadium registry** (`stadiums.dfy`): the constant 30-entry table in table order, `get_stadium_names` and `get_stadium_info`.
- **Expected-outcome heuristics** (`visualization.dfy`).
  - The clipped xBA formula and the two clipped distance estimates.
  - The five-anchor linear fence used for drawing, and the piecewise fence rule that home runs are actually counted against.
  - The home-run count, and the per-park expected-stats record with its park adjustment.
- **Scorer, comparison, best matches and rankings** (`comparison.dfy`).
  - The closed-form match score and its three-way park label.
  - One hitter compared with every park.
  - `nlargest` top-N selection for a hitter.
  - The per-stadium `groupby` roll-up, sorted by average score.
- **Interactive rules** (`interactive.dfy`).
  - The case-insensitive substring player search and the menu's park-type label.
  - The acceptance rules for the numbered choices and the year prompt.

Helper modules:

- `Optionals`: `Option` with `dict.get`-style defaults.
- `Sequences`: order-preserving filter and subsequence lemmas.
- `Numeric`: clip, mean, max, rates, and the real-arithmetic lemmas.
- `Ordering`: a stable descending insertion sort and `Largest`, which is what `nlargest` returns.

All numbers are exact `real`s and counts are `nat`s. Missing values are `Option`s. The absence of a whole column is a separate flag in `HitterData.Columns`.

The code has no air-density model, no drag-and-gravity trajectory and no wall heights, and it
never reads the `altitude` field. In `calculate_expected_home_runs` a ball counts as a home run
when its distance is at least the fence distance in its direction, and the model counts it the
same way.

The average distance of a summary has three cases, as `get_hitter_summary_stats` produces them:
no value without a `hit_distance_sc` column, NaN when the column is present but every value is
missing, and otherwise the mean. `calculate_stadium_match_score` tests it for truth, and NaN is
truthy. So a NaN average takes the distance branch, where `max(0, nan)` keeps 0, and the
distance score is 0 rather than the hard-hit fallback. `Comparison.DistanceBase` reproduces
this, and `Comparison.WorkedExampleWithoutDistances` shows the effect on the overall score.

The counting fence is reproduced as written. With `lf`, `cf`, `rf` for the left, centre and right
field distances and `F` for the fence distance at a given direction:

- It is continuous at +30°, where both sides give `cf`.
- It jumps at −30°: `F` is `lf` at −30°, but just above −30° it is close to `cf`.
- It jumps at 0°: just below 0° it approaches `2·cf − lf`, and at 0° it is `2·cf − rf`.
- At the foul lines the corner formulas give `cf` at −45° and `rf` at +45°.

`CountingFenceAnchors` and `CountingFenceNearBreaks` pin these values down.

## Model

| member | source | states |
|---|---|---|
| HitterData.BallsInPlay | hitter_data.py:121-125 | keeps exactly the type-`X` events with speed and angle present, in their original order and with their multiplicities; the result is empty iff no event qualifies |
| HitterData.ShareOf | hitter_data.py:158-162 | a column-guarded share is `None` iff the column is absent, lies in [0, 1], and equals matching count / ball count |
| HitterData.Distances | hitter_data.py:163 | the k-th value is the measured distance of the k-th ball that has one, and there is one value per such ball |
| HitterData.HardHitRate | hitter_data.py:159 | the rate is `Rate` of the number of balls with speed ≥ 95 (95 included) over the ball count, so rate × balls = hard-hit count; it lies in [0, 1], is 1 iff every ball reaches 95 and 0 iff none does |
| HitterData.AverageDistance | hitter_data.py:163 | no value iff the distance column is absent; NaN iff the column is present and no ball has a distance; otherwise the mean of the measured distances |
| HitterData.MaxSpeed | hitter_data.py:155-156 | the maximum is one of the speeds, bounds every speed, and is at least the mean |
| HitterData.Summarize | hitter_data.py:151-164 | total_bip is the ball count; the two averages are the means of the speeds and angles; average exit velocity ≤ maximum, which is one of the speeds; hard_hit_rate is `HardHitRate`; barrel, pull, oppo and home-run rates are the matching count over the ball count when their column is present and `None` otherwise; pull + oppo ≤ 1; avg_distance is `AverageDistance` |
| HitterData.HitterSummary | hitter_data.py:146-164 | `None` iff no event is a ball in play; otherwise the summary of the balls-in-play frame, as `Summarize` states it, with total_bip the number of balls in play |
| Numeric.Rate | hitter_data.py:158-162 | `count / total` lies in [0, 1], times total gives count back, and is 0 iff count is 0 and 1 iff count is total |
| Numeric.RatesOfDisjointParts | hitter_data.py:160-161 | the shares of two disjoint counts (pull and oppo) add up to at most 1 |
| Stadiums.StadiumNames | stadiums.py:384-391 | the 30 registered names, in table order, pairwise distinct |
| Stadiums.StadiumLookup | stadiums.py:394-404 | `Some` iff the name is registered, and then the registered entry |
| Stadiums.Find | stadiums.py:394-404 | finds an entry with the name iff one exists |
| Stadiums.NamesDistinct | stadiums.py:10-371 | no two registry entries share a name |
| Stadiums.RegistryInvariants | stadiums.py:10-371 | every entry has park factor in [0.88, 1.30], five positive distances, and centre field deeper than both lines |
| Stadiums.OnlyCoorsFieldIsElevated | stadiums.py:323-334 | an entry's altitude is non-zero iff it is Coors Field, whose altitude is 5280 |
| Visualization.EvFactor | visualization.py:355 | the velocity factor lies in [0, 1]; it is 0 iff ev ≤ 70 and 1 iff ev ≥ 100 |
| Visualization.LaFactor | visualization.py:358-359 | the angle factor lies in [0, 1]; it is 0 iff the angle is at least 30° from 10° and 1 iff the angle is 10° |
| Visualization.Quality | visualization.py:362 | the product of the two factors lies in [0, 1] |
| Visualization.QualityMonotoneInSpeed | visualization.py:355-362 | a higher exit velocity never lowers the factor product |
| Visualization.Xba | visualization.py:355-362 | the heuristic xBA always lies in [0.1, 0.5] |
| Visualization.XbaExtremes | visualization.py:355-362 | xBA is 0.1 iff ev ≤ 70 or the angle is at least 30° from 10°; it is 0.5 iff ev ≥ 100 and the angle is exactly 10° |
| Visualization.XbaMonotoneInSpeed | visualization.py:355-362 | xBA is non-decreasing in exit velocity |
| Visualization.XbaSymmetricInAngle | visualization.py:358-362 | xBA is symmetric in launch angle about 10° |
| Visualization.AngleOnlyDistance | visualization.py:391-392 | the angle-only distance estimate lies in [50, 320] and reaches 320 only at 10° |
| Visualization.SpeedAngleDistance | visualization.py:448 | the velocity-and-angle estimate lies in [50, 450] |
| Visualization.SpeedAngleDistanceMonotone | visualization.py:448 | that estimate is non-decreasing in exit velocity |
| Visualization.LinearFenceAnchors | visualization.py:290-307 | the drawn fence is exactly LF, LC, CF, RC, RF at −45, −22.5, 0, 22.5, 45, and the next segment's formula gives the same value at each inner breakpoint |
| Visualization.LinearFenceBetweenAnchors | visualization.py:290-307 | on each segment the drawn fence lies between that segment's two anchors |
| Visualization.CountingFenceAnchors | visualization.py:485-501 | the counting fence is CF at −45, LF at −30, 2·CF − RF at 0, CF at 30, RF at 45 |
| Visualization.CountingFenceNearBreaks | visualization.py:494-501 | just below 30 the middle band is CF + (CF − RF)·e/30 (continuous at 30); just below 0 it is 2·CF − LF − (CF − LF)·e/30; just above −30 it is CF + (CF − LF)·e/30, a jump of more than CF − LF over the value at −30 |
| Visualization.LeftCornerBounds | visualization.py:486-489 | from −45 to −30 the fence lies between LF and CF |
| Visualization.RightCornerBounds | visualization.py:490-493 | from 30 to 45 the fence lies between RF and CF |
| Visualization.LeftMiddleBounds | visualization.py:496-498 | strictly between −30 and 0 the fence lies between CF and 2·CF − LF |
| Visualization.RightMiddleBounds | visualization.py:499-501 | from 0 up to 30 the fence lies between CF and 2·CF − RF |
| Visualization.CountingFenceBounds | visualization.py:485-501 | over −45..45, with both lines no deeper than centre, the fence lies between the shorter line and 2·CF minus the shorter line |
| Visualization.HomeRunCount | visualization.py:503-506 | the number of home runs never exceeds the number of flights |
| Visualization.HomeRunCountSingle | visualization.py:503-504 | one flight counts iff its distance is at least the fence distance in its direction |
| Visualization.HomeRunCountAppend | visualization.py:503-506 | the count over a concatenation is the sum of the counts |
| Visualization.HomeRunCountMonotone | visualization.py:503-504 | longer flights in the same directions never give fewer home runs |
| Visualization.ZeroDistanceNeverCounts | visualization.py:440-504 | flights with distance 0 (missing distances filled with 0) never count against a positive fence |
| Sequences.Positions | visualization.py:460-464 | the increasing positions of exactly the elements a mask keeps, the k-th position holding the k-th kept element |
| Visualization.ValidFlights | visualization.py:457-464 | one flight per row with pixel coordinates in (0, 250], in row order: the k-th flight has the distance of the k-th such row and that row's direction |
| Visualization.CountedFlights | visualization.py:439-475 | with usable coordinates, the k-th flight has the distance of the k-th valid row and that row's direction; otherwise one flight per row with its measured (or estimated) distance, and with the row's spray direction when there is a spray-angle column, else the distance-only direction |
| Visualization.ExpectedHomeRuns | visualization.py:419-506 | 0 for no balls, and never more than the number of balls |
| Visualization.XbaValues | visualization.py:525-534 | one xBA value per ball, from the estimate column, else the xba column, else the heuristic |
| Visualization.XslgValues | visualization.py:536-541 | one xSLG value per ball, from the estimate column, else 1.5 times xBA |
| Visualization.ParkAdjustedBa | visualization.py:566 | unchanged at park factor 1; strictly larger for a factor above 1 and strictly smaller below 1, for positive values |
| Visualization.ParkAdjustedSlg | visualization.py:567 | unchanged at park factor 1; strictly larger for a factor above 1 and strictly smaller below 1, for positive values |
| Visualization.ParkAdjustmentsCompared | visualization.py:566-567 | the average's adjustment is a tenth of slugging's for the same value and factor, so for a non-negative value it is the smaller of the two above factor 1 and the larger below |
| Visualization.ExpectedBa | visualization.py:525-557 | a column with every value missing gives exactly 0.3, whether it is the estimated column or `xba`; without either column the mean xBA lies in [0.1, 0.5], and is exactly 0.1 when no ball exceeds 70 mph |
| Visualization.ExpectedBaFromEstimates | visualization.py:525-557 | with the estimated column, values (missing read as 0.3) all in [lo, hi] give an average in [lo, hi], and the `xba` column makes no difference |
| Visualization.ExpectedBaFromXba | visualization.py:525-557 | with only the `xba` column, values (missing read as 0.3) all in [lo, hi] give an average in [lo, hi] |
| Visualization.ExpectedSlg | visualization.py:536-558 | an estimated slugging column with every value missing gives exactly 0.4; without that column the expected slugging is 1.5 times the expected average |
| Visualization.ExpectedSlgFromEstimates | visualization.py:536-558 | with the estimated slugging column, values (missing read as 0.4) all in [lo, hi] give slugging in [lo, hi], and the average columns make no difference |
| Visualization.ActualHomeRuns | visualization.py:547-553 | the number of `home_run` events with the events column, 0 without it, never more than the balls |
| Visualization.StatsOf | visualization.py:545-568 | the record satisfies `Consistent`: counts within the ball count, each rate is count over balls in [0, 1] and 0 iff its count is 0, OPS = BA + SLG, and the park adjustment is neutral at 1 and moves positive values in the factor's direction; the park-adjusted values are `ParkAdjustedBa` and `ParkAdjustedSlg` of the two means |
| Visualization.ExpectedStatsFor | visualization.py:509-568 | empty iff there are no balls; otherwise `Consistent`, expected_ba and expected_slg are `ExpectedBa` and `ExpectedSlg` of the balls, the park-adjusted values are `ParkAdjustedBa` and `ParkAdjustedSlg` of those, total_bip is the ball count, the park factor defaults to 1.0, the expected count is the home-run count, actual home runs are 0 without an events column, and xSLG = 1.5·xBA without a slugging estimate |
| Comparison.Advantage | comparison.py:73 | "Hitter-friendly" iff pf > 1.05, "Pitcher-friendly" iff pf < 0.95, "Neutral" iff 0.95 ≤ pf ≤ 1.05 |
| Comparison.BoundaryParksAreNeutral | comparison.py:73 | Yankee Stadium (0.95) and Camden Yards (1.05) are registered and labelled Neutral |
| Comparison.DistanceBase | comparison.py:51-56 | with a non-zero average distance: 0 when it is within the shortest of LF, CF and RF, else the excess over it in units of 50 ft; with a NaN average: 0; without a column or with a zero average: the hard-hit rate; never negative for a non-negative rate |
| Comparison.DistanceScoreMonotoneInParkFactor | comparison.py:51-56 | the distance score is non-negative and non-decreasing in a non-negative park factor |
| Comparison.Score | comparison.py:13-76 | `None` iff either input is missing; the boost is the park factor (default 1.0); the label is `Advantage`; the velocity score is the average exit velocity times the park factor, the hard-hit score is rate × factor × 100, the distance score is the distance base times the factor, and overall is `Overall` of these four parts; expected home runs are `None` iff the home-run rate is missing or 0, and otherwise rate × factor × 100; at factor 1 these reduce to the raw average, 100 × rate, 100 × home-run rate and the unscaled distance base |
| Comparison.OverallMonotone | comparison.py:59-64 | the overall score grows with its velocity and distance parts |
| Comparison.OverallScalesWithPark | comparison.py:59-64 | when every part scales with the park factor, the overall score is non-decreasing in it |
| Comparison.ScoreMonotoneInExitVelocity | comparison.py:30-64 | a higher average exit velocity never lowers the overall score in the same park |
| Comparison.ScoreMonotoneInParkFactor | comparison.py:30-64 | a larger park factor with the same dimensions never lowers the overall score of a hitter with non-negative averages |
| Comparison.WorkedExample | comparison.py:30-73 | 95 mph, half hard-hit, no distance column, pf 1.1 give 104.5 / 55 / 0.55 / 52.36 and "Hitter-friendly" |
| Comparison.WorkedExampleWithoutDistances | comparison.py:51-64 | the same hitter with a NaN average distance gets distance score 0 and overall 52.25 |
| Comparison.CompareToAllStadiums | comparison.py:92-113 | empty without a summary; otherwise one row per registry entry in registry order, carrying that entry's name, team and park factor, its score, and pairwise distinct stadium names |
| Comparison.HitterRows | comparison.py:188 | exactly the rows of the named hitter, as an order-preserving subsequence of the input, each with its full multiplicity |
| Comparison.BestMatches | comparison.py:188-193 | at most top_n rows (all of them when fewer), all of the named hitter, non-increasing in overall score; empty when the hitter is absent |
| Comparison.BestMatchesAreBest | comparison.py:188-193 | the result is a sub-multiset of the hitter's rows; no omitted row scores higher than a kept one; among equal scores the earlier rows are kept |
| Ordering.SortDesc | comparison.py:213 | the sort is a permutation and non-increasing |
| Ordering.SortStable | comparison.py:193 | the sort keeps the input order among equal keys |
| Ordering.Largest | comparison.py:193 | `nlargest` returns min(n, length) elements in non-increasing order |
| Ordering.LargestIsSubmultiset | comparison.py:193 | what `nlargest` returns comes from its input, each element at most as often |
| Ordering.LargestDominates | comparison.py:193 | nothing `nlargest` leaves out has a larger key than anything it keeps |
| Ordering.LargestKeepsEarlierTies | comparison.py:193 | among equal keys `nlargest` keeps the earliest rows, in order |
| Comparison.Names | comparison.py:206 | the group keys: each mentioned stadium exactly once |
| Comparison.ScoresOf | comparison.py:206-207 | the k-th score is the overall score of the k-th row of that stadium, one score per such row; non-empty iff the stadium is mentioned |
| Comparison.FirstIndex | comparison.py:208-209 | the first row of the stadium, which `first` aggregation reads |
| Comparison.Rankings | comparison.py:206-215 | one row per distinct stadium name, non-increasing in average score, empty for no input |
| Comparison.RankingsAggregate | comparison.py:206-212 | each ranking row's count is its stadium's row count (> 0), its average is their mean, and its park factor and team come from the first such row; every input row's stadium is ranked |
| Comparison.RankingsCountAll | comparison.py:206-212 | the num_hitters column sums to the number of input rows |
| Comparison.RankingAverageWithin | comparison.py:207 | a stadium's average lies within any bounds that hold for all of its rows' scores |
| Comparison.RankingsOfDistinctStadiums | comparison.py:206-215 | rows about distinct stadiums rank one to one, each counting 1 with its own score as average |
| Comparison.RankingsOfOneHitter | comparison.py:92-113 | ranking one hitter's comparison gives all 30 stadiums, each counted once |
| Interactive.Contains | interactive.py:27-29 | the scan succeeds iff the query occurs somewhere in the name |
| Interactive.LowerChar | interactive.py:26 | ASCII upper-case letters map to lower case; everything else is unchanged |
| Interactive.LowerIdempotent | interactive.py:26-28 | lower-casing twice is lower-casing once |
| Interactive.SearchPlayer | interactive.py:26-30 | keeps exactly the rows whose lower-cased name contains the lower-cased query; rows without a name never match |
| Interactive.SearchPlayerKeepsOrder | interactive.py:27-30 | the result is an order-preserving subsequence of the table |
| Interactive.SearchEmptyQuery | interactive.py:27-29 | the empty query finds exactly the rows that have a name |
| Interactive.SearchIgnoresQueryCase | interactive.py:26-28 | queries that differ only in letter case give identical results |
| Interactive.SearchIgnoresNameCase | interactive.py:27-28 | names that differ only in letter case match the same queries |
| Interactive.PlayerQuery | interactive.py:82-99 | an exit word quits, an empty query asks again, otherwise the search result decides: empty gives no match, one hitter is selected, two or more are listed exactly as `SearchPlayer` returns them |
| Interactive.PickPlayer | interactive.py:126-128 | a numbered choice is accepted iff 1 ≤ n ≤ the number of matches, and then picks the n-th listed match |
| Interactive.PickStadium | interactive.py:166-170 | a numbered choice is accepted iff 1 ≤ n ≤ 30, and then picks the n-th registry entry, which the name lookup agrees with |
| Interactive.EveryStadiumCanBePicked | interactive.py:41 | every registered stadium has a menu number |
| Interactive.MenuParkTypeAgrees | interactive.py:49-50 | the menu's park-type text is the scorer's label for every park factor |
| Interactive.AcceptYear | interactive.py:227-234 | an empty answer gives 2024; a number is accepted iff 2015 ≤ year ≤ 2024 and is kept as given; anything else is rejected |

## Left out

- Fetching data (pybaseball calls, player id lookups, rate limiting, exceptions that become empty frames): network I/O. The hitter summary takes the Statcast frame as input.
- `compare_all_hitters_to_stadiums`: a loop over fetched hitters. It is network-driven orchestration around `CompareToAllStadiums`.
- Plotting, colour maps, figure saving, and all `print`/`input` loops: presentation and console I/O. The interactive rules take the stripped answer as input.
- Trigonometry: `radians`, `sin`, `cos` and `arctan2`. A hit's horizontal direction is an input (`directions`), except for the distance-only branch. That branch computes `arctan2(0, d)` as 0, or 180 for a negative distance.
- Cubic interpolation of the drawn fence (SciPy): a foreign library call. Only the linear fallback is modelled.
- Random directions in `estimate_hit_location`: nondeterministic.
- The pixel-to-feet filter in `plot_bip_heatmap`: plotting only.
- The standard deviation column of the rankings: it needs a square root, and pandas gives NaN for a one-row group.
- NaN and IEEE rounding: numbers are exact reals.
  - NaN appears only where it changes a branch: a distance column with no values gives the `NotANumber` case of `avg_distance`.
  - A missing `spray_angle` is not modelled: the program turns it into a NaN direction and a NaN fence, so that ball never counts as a home run. The model's directions are always numbers.
  - `fillna` defaults are modelled explicitly.
- The regular-expression reading of the query in `str.contains`: the model treats the query as a literal substring. Lower-casing covers ASCII letters only.
- Parsing answers with `int()`: a year answer is given as blank, a number, or not a number. A choice answer is given as a number.
- The group order of `groupby` (sorted keys) and the tie order of `sort_values` (quicksort, unspecified). The model groups in first-appearance order, then sorts stably by average. The contracts of `Comparison.Rankings` hold for any tie order.
- The in-place write of `stadium_name` into a shared registry entry (interactive.py:257): the registry is immutable.
- The `return 0` of visualization.py:450 (no distance column and no speed or angle column). It cannot happen for balls in play, which always carry both.
- The scorer's defaults for a missing `avg_exit_velocity` or `hard_hit_rate` (comparison.py:30-31). The hitter summary always provides both, so the model's `Summary` always has them.
- Visualization.ExpectedHomeRuns: bounds the count rather than restating it. Its meaning comes from `HomeRunCountSingle` and `HomeRunCountAppend` over the flights that `CountedFlights` selects.
- Visualization.CountedFlights: the directions are inputs, because the program derives them with `arctan2`; the contract says which input direction each flight carries, not how it is computed. A row whose spray angle is missing gets a NaN direction in the program and is never counted; the model gives every row a numeric direction.
