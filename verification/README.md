# Verified model of the crypto quant lab

Dafny models of five connected parts of the repository, each proved against what its code and
documentation promise.

1. **Single-leg replay** (`Market`, `Accounting`, `PositionLog`, `Replay`, `ReplayEngine`,
   `ReplayTheorems`, `ReplayLedger`, `AcceptedReplays`, `FundingSignal`, `Diagnostics`, `WindowDiagnosis`): the
   candle loop with its funding sweep, equity marks, policy calls and next-open fills; the position
   recorder; the funding-carry signal and the diagnostics that replay the same rule a second time.
2. **Hedged two-ledger portfolio** (`Multileg`, `MultilegReplay`, `MultilegRuns`, `MultilegMarks`,
   `MultilegEngine`): the lifecycle, the event-order cursor, the mark and summary invariants, and the
   multi-leg replay.
3. **Validation statistics** (`Combinations`, `FoldModel`, `Cpcv`, `HolmCorrection`, `HacVariance`,
   `EffectiveTrials`, `Pbo`).
4. **Paginators** (`FundingPagination`, `KlinePagination`), driven by an arbitrary page server.
5. **Coverage and provenance** (`Coverage`, `CandleStore`).

`Outcomes`, `Sums`, `SetFacts`, `ProductFacts` and `TextOrder` hold what the others share.

## Conventions

- Instants are integer microseconds (milliseconds where the source talks to the exchange); prices,
  quantities and rates are exact reals. The source computes with 28- or 80-digit decimals; the model
  states the value that arithmetic approximates. Holm's correction is exact in the source and is
  modelled on decimals as sign-free digit strings with an exponent.
- Policies, cost models, funding models, Sharpe ratios of a sample, square roots and page servers
  are function parameters. `Market.LinearFunding` is the one concrete funding model.
- Code that updates variables in loops is a `method` proved against a recursive specification; the
  theorems are about the specification and are connected to the method by its `ensures`. The
  recorder and the candle store are classes.
- A branch in which the source raises although validated input can never reach it holds
  `assert false` and nothing else.
- Validation errors keep their order of checks but not their texts.

## Where the code and its documentation differ

- `backtest/replay.py:216-224` and `328-333` say that an accepted `evaluation_start` always names a
  candle that opens exactly there. The check aligns the boundary to the epoch grid while the dataset
  is only checked for contiguity, so for every explicit boundary the promise holds if and only if the
  dataset lies on the grid (`ReplayEngine.StartIsAnOpenIffAligned`).
- The assertion of `backtest/replay.py:443`, that some candle opens at or after the boundary, is a
  second promise with its own condition: it fires exactly when the last candle opens before the
  accepted boundary (`ReplayEngine.RunBacktestReplay`), which needs a dataset off the grid
  (`ReplayEngine.AlignedDatasetHasEvaluationCandle`). `ReplayEngine.OffGridDatasetCounterexample`
  is an input on which both fail.
- `data_quality/pagination.py:66-71` promises the candles of `[start, end)`. When the requested start
  lies strictly inside a millisecond in which a candle opened just before it, the widened request
  returns that candle first and the page check refuses it. `KlinePagination.StraddlingExample` gives
  an input; `KlinePagination.PaginateHistoricalKlines` proves that this is the only way it raises
  against an honest server, and `KlinePagination.WholeMillisecondStart` that a start on a
  whole millisecond never meets it.
- Candles may carry non-positive prices, on which the multi-leg replay raises in a leg or a mark.
  The statement that only a cash shortage or a bad cost or funding value can stop a validated run
  therefore needs positive prices; `MultilegRuns.NonPositivePriceExample` is an input and
  `MultilegRuns.RunFinishesIff` the exact condition.

## Model

| member | source | states |
|---|---|---|
| `HacVariance.KernelIsEnergy` | src/crypto_quant_lab/validation/sharpe_significance.py:253-271 | for one window the Bartlett-weighted autocovariances (weights scaled by q+1) equal the sum of the squared sums of all sliding blocks of q+1 positions |
| `HacVariance.LongRunFormIsSumOfSquares` | src/crypto_quant_lab/validation/sharpe_significance.py:262-275 | over every split of the returns into windows, (q+1) times the accumulated quadratic form in (d1, d2) is the sum over windows and blocks of squared block sums of d1*a+d2*b; hence it is never negative |
| `HacVariance.LongRunEntrySymmetric` | src/crypto_quant_lab/validation/sharpe_significance.py:262-271 | c12 and c21 agree after every iteration of the lag loop |
| `HacVariance.DegenerateIff` | src/crypto_quant_lab/validation/sharpe_significance.py:246-275 | the sum of squares vanishes exactly when every return has zero influence on the Sharpe ratio |
| `HacVariance.ThreeReturnsNeverDegenerate` | src/crypto_quant_lab/validation/sharpe_significance.py:272-275 | three different returns rule a zero variance out, because the influence is a quadratic with at most two roots |
| `HacVariance.WindowGamma` | src/crypto_quant_lab/validation/sharpe_significance.py:253-261 | the loop over one window computes the four lag-j cross-product sums, pairing only positions inside the window |
| `HacVariance.Gamma` | src/crypto_quant_lab/validation/sharpe_significance.py:253-261 | the pooled autocovariances, each the sum over windows divided by the sample size |
| `HacVariance.LongRunCovariance` | src/crypto_quant_lab/validation/sharpe_significance.py:262-271 | the weighted accumulation over lags 0..q, with c12 == c21 |
| `HacVariance.HacStatistics` | src/crypto_quant_lab/validation/sharpe_significance.py:239-276 | None exactly for a sample without variance; otherwise T(q+1)V is the sum of squared block sums of the influence values for the gradient of the Sharpe ratio, V >= 0, and V == 0 exactly in the degenerate case |
| `HacVariance.GradientOfSharpe` | src/crypto_quant_lab/validation/sharpe_significance.py:272-274 | the weights (d1, d2) are the gradient of (mean - rf) / sigma in mean and variance: for every other mean and deviation the linear term leaves exactly the stated remainder of second order |
| `HacVariance.DeviationsAboutAnyValue` | src/crypto_quant_lab/validation/sharpe_significance.py:243-245 | the squared deviations about any value are T times the variance plus the squared distance to the mean, which fixes the sample mean and variance |
| `HacVariance.MomentsAreCentred` | src/crypto_quant_lab/validation/sharpe_significance.py:248-251 | both moments sum to zero over the sample and differ between returns as the return and its squared deviation do |
| `HacVariance.EvaluateHacTrial` | src/crypto_quant_lab/validation/sharpe_significance.py:292-352 | a trial is evaluated exactly when its sample is long enough, its returns vary and some return has influence |
| `HolmCorrection.ExactMultipleIsExact` | src/crypto_quant_lab/validation/multiple_testing.py:96-100 | the digit-level multiple of a decimal denotes exactly multiplier times its value |
| `HolmCorrection.DigitsRoundTrip` | src/crypto_quant_lab/validation/multiple_testing.py:98-100 | writing a coefficient as digits and reading it back loses nothing |
| `HolmCorrection.StepDownLoop` | src/crypto_quant_lab/validation/multiple_testing.py:138-145 | the loop fills every slot with min(1, running maximum of the step-down products) of its p-value |
| `HolmCorrection.ApplyHolmCorrection` | src/crypto_quant_lab/validation/multiple_testing.py:103-159 | accepts exactly a non-empty family of distinct ids at a level in (0, 1); every hypothesis is rejected exactly when every Bonferroni test of a subset containing it rejects, and its adjusted value lies between its p-value and one |
| `HolmCorrection.HolmIsClosedBonferroni` | src/crypto_quant_lab/validation/multiple_testing.py:138-156 | a hypothesis is rejected if and only if every subset S of the family containing it has a member with |S|*p <= alpha |
| `HolmCorrection.RejectedMemberImpliesSmallP` | src/crypto_quant_lab/validation/multiple_testing.py:138-156 | any set of m0 hypotheses with a rejected member contains one with m0*p <= alpha |
| `HolmCorrection.AdjustedClosedForm` | src/crypto_quant_lab/validation/multiple_testing.py:138-145 | the adjusted value is the largest capped product of a p-value not above its own with the number of p-values not below that one, without any order |
| `HolmCorrection.AdjustedMonotone` | src/crypto_quant_lab/validation/multiple_testing.py:138-145 | adjusted values are monotone in p, hence equal on ties |
| `HolmCorrection.AdjustedIgnoresOrder` | src/crypto_quant_lab/validation/multiple_testing.py:138-145 | reordering the family changes no adjusted value |
| `HolmCorrection.AdjustedInRange` | src/crypto_quant_lab/validation/multiple_testing.py:138-145 | an adjusted value is at most one and never below its p-value |
| `HolmCorrection.PowersMultiply` | src/crypto_quant_lab/validation/multiple_testing.py:96-100 | the power of ten behind an exponent turns sums into products and is ten at one |
| `HolmCorrection.DecimalNotation` | src/crypto_quant_lab/validation/multiple_testing.py:96-100 | a decimal means its positional value: one more digit and a shifted exponent do what they do on paper |
| `Combinations.CombosCount` | src/crypto_quant_lab/validation/combinatorial_folds.py:151-160 | there are C(N, k) combinations |
| `Combinations.CombosSound` | src/crypto_quant_lab/validation/combinatorial_folds.py:158-176 | every listed tuple is an ascending k-subset of the groups |
| `Combinations.CombosComplete` | src/crypto_quant_lab/validation/combinatorial_folds.py:158-176 | every ascending k-subset is listed |
| `Combinations.CombosLexicographic` | src/crypto_quant_lab/validation/combinatorial_folds.py:158-176 | the list is strictly lexicographic, so no combination repeats |
| `Combinations.EachIndexOccurs` | src/crypto_quant_lab/validation/combinatorial_folds.py:178-186 | every group is tested in exactly C(N-1, k-1) of the C(N, k) splits |
| `FoldModel.OverlapIsSharedInstant` | src/crypto_quant_lab/validation/purging.py:39-51 | two half-open windows overlap exactly when they share an instant |
| `FoldModel.PurgeInSampleWindows` | src/crypto_quant_lab/validation/purging.py:69-116 | the loop returns the surviving windows, refusing exactly a negative embargo |
| `FoldModel.PurgedMembers` | src/crypto_quant_lab/validation/purging.py:69-116 | a window survives exactly when it overlaps neither the test window nor its embargo zone |
| `FoldModel.PurgedConcat` | src/crypto_quant_lab/validation/purging.py:96-116 | purging decides every window alone and keeps the order |
| `FoldModel.PurgeIsEmbargo` | src/crypto_quant_lab/validation/combinatorial_folds.py:158-170 | on contiguous groups the purge reduces to the embargo after an earlier test group |
| `FoldModel.SplitPartitions` | src/crypto_quant_lab/validation/combinatorial_folds.py:158-176 | test, train and embargoed groups partition the groups, embargoed exactly when starting in the zone of an earlier test group |
| `FoldModel.NoEmbargoKeepsAll` | src/crypto_quant_lab/validation/combinatorial_folds.py:158-170 | without an embargo every group outside the test set trains |
| `FoldModel.BuildSplits` | src/crypto_quant_lab/validation/combinatorial_folds.py:157-176 | all splits in lexicographic order, or an error exactly when some training set would be empty |
| `FoldModel.BuildCombinatorialFoldModel` | src/crypto_quant_lab/validation/combinatorial_folds.py:117-199 | accepts exactly the valid inputs; the path table is the table of occurrences, every lookup in bounds |
| `FoldModel.BuiltSplitMeaning` | src/crypto_quant_lab/validation/combinatorial_folds.py:158-176 | in every built split a group trains exactly when it is not tested and starts in no embargo zone of an earlier test group, the other untested groups are embargoed, and the listed windows are those of the listed groups |
| `FoldModel.SplitsAreDistinct` | src/crypto_quant_lab/validation/combinatorial_folds.py:158-184 | no test set is used by two splits |
| `FoldModel.PathsAreInjective` | src/crypto_quant_lab/validation/combinatorial_folds.py:178-192 | each (path, group) slot names a split that tests the group, and different paths use different splits |
| `FoldModel.PathsAreSurjective` | src/crypto_quant_lab/validation/combinatorial_folds.py:178-192 | every test slot (split, tested group) is used by a path |
| `FoldModel.PathsAscend` | src/crypto_quant_lab/validation/combinatorial_folds.py:178-192 | a later path takes each group from a later split |
| `FoldModel.PathSplitNeverTrainsItsGroup` | src/crypto_quant_lab/validation/combinatorial_folds.py:158-192 | the split that supplies a group on a path never trains on that group |
| `Cpcv.RowGroups` | src/crypto_quant_lab/validation/cpcv.py:109-123 | succeeds exactly when every row has an owner (start < time <= end) and every group owns a row, and returns the first owner of each row |
| `Cpcv.BlockIntervalRows` | src/crypto_quant_lab/validation/cpcv.py:144-164 | one window block: every entry and exit must be an equity mark, and exactly the non-empty row sets its intervals produce are returned |
| `Cpcv.IntervalRows` | src/crypto_quant_lab/validation/cpcv.py:126-165 | accepts exactly position books whose ids, block counts and entry/exit marks fit the matrix, and returns exactly the non-empty row sets their intervals produce |
| `Cpcv.SplitTrainRows` | src/crypto_quant_lab/validation/cpcv.py:231-250 | the successive filters leave exactly the rows that train |
| `Cpcv.TouchedRows` | src/crypto_quant_lab/validation/cpcv.py:244-250 | exactly the rows of the intervals that also produce a return inside a test group |
| `Cpcv.SelectColumns` | src/crypto_quant_lab/validation/cpcv.py:256-268 | all columns no other column beats on the training rows; an error exactly when some Sharpe ratio is undefined |
| `Cpcv.ComputeSplit` | src/crypto_quant_lab/validation/cpcv.py:231-280 | one split: at least two training rows and defined Sharpe ratios, or the matching error; its selection, its training and purged row counts and its report |
| `Cpcv.ComputeSplits` | src/crypto_quant_lab/validation/cpcv.py:229-280 | all splits with their selections, or an error exactly when one is undefined |
| `Cpcv.ComputePath` | src/crypto_quant_lab/validation/cpcv.py:282-311 | every path return times the number of selected candidates is the sum of their returns in that row, selected by the split the path names for the row's group; an error exactly for an undefined Sharpe ratio |
| `Cpcv.PrepareFrame` | src/crypto_quant_lab/validation/cpcv.py:209-226 | accepts exactly at least two candidates, owned rows, a fitting position book and an affordable cost |
| `Cpcv.ComputePaths` | src/crypto_quant_lab/validation/cpcv.py:282-311 | all paths from the selections, or an error exactly when some path has no Sharpe ratio; every lookup is in bounds |
| `Cpcv.ComputeCpcvPaths` | src/crypto_quant_lab/validation/cpcv.py:168-316 | the whole study: succeeds if and only if the inputs are accepted and no split and no path is undefined; a result is a frame with its selections and paths |
| `Cpcv.FramesAgree` | src/crypto_quant_lab/validation/cpcv.py:216-250 | inputs with equal ids, times, windows and intervals have one frame: no return enters it |
| `Cpcv.SameTrainRows` | src/crypto_quant_lab/validation/cpcv.py:231-250 | frames that agree have the same training rows in every split |
| `Cpcv.StudyIsDefined` | src/crypto_quant_lab/validation/cpcv.py:231-311 | a finished study excludes every undefined split and path of its inputs |
| `Cpcv.PathReturnsAreMeans` | src/crypto_quant_lab/validation/cpcv.py:282-311 | in a finished study every path return is the mean, in its row, of the returns of the candidates reported as selected by the split that supplies the group, hence between the least and the largest of them |
| `Cpcv.ReportedSplitMeaning` | src/crypto_quant_lab/validation/cpcv.py:251-280 | every reported Sharpe ratio is that of the candidate's returns on the training rows, and the reported selection is exactly the candidates no other one beats |
| `Cpcv.OwnerOfContiguousGroups` | src/crypto_quant_lab/validation/cpcv.py:109-123 | on the contiguous groups of a built model the owner of a row is the one group with start < time <= end |
| `Cpcv.BlocksOfRows` | src/crypto_quant_lab/validation/cpcv.py:134-138 | the block count exceeds every window index by at least one, and one by exactly one |
| `Cpcv.ProducesMeaning` | src/crypto_quant_lab/validation/cpcv.py:140-164 | an interval produces the returns of the rows of its block after its entry, up to the first one after its exit |
| `Cpcv.IntervalAcceptedMeaning` | src/crypto_quant_lab/validation/cpcv.py:151-162 | an interval is accepted exactly when its entry, and its exit if it has one, is the time of a row of its block |
| `Cpcv.PathLookup` | src/crypto_quant_lab/validation/cpcv.py:283-286 | every lookup of a path is in bounds and names a split that tests, and does not train on, the group |
| `Cpcv.TrainingIsOutOfSample` | src/crypto_quant_lab/validation/cpcv.py:231-233 | no training row of the split that supplies group g on a path lies in group g |
| `Cpcv.ScoreReadsTrainRows` | src/crypto_quant_lab/validation/cpcv.py:256-261 | a training score reads nothing but the training rows |
| `Cpcv.SelectionIgnoresItsGroup` | src/crypto_quant_lab/validation/cpcv.py:231-280 | changing any returns inside group g changes neither whether its split has a selection nor which columns it selects |
| `Cpcv.PathReadsTheSameColumns` | src/crypto_quant_lab/validation/cpcv.py:282-311 | two finished studies of one design whose returns differ only inside a group own the same rows, select the same candidates in the split that supplies the group, and read the group as the mean over them |
| `Cpcv.NoSharedInterval` | src/crypto_quant_lab/validation/cpcv.py:244-250 | after interval purging no training row shares a recorded position interval with a test row |
| `Cpcv.PurgingIsExact` | src/crypto_quant_lab/validation/cpcv.py:231-250 | a training-group row stays if and only if it shares no backtest window (when windows are purged) and no recorded interval (when intervals are given) with any test row |
| `EffectiveTrials.EffectiveBounds` | src/crypto_quant_lab/validation/trial_statistics.py:72-89 | for unit columns -1/(M-1) <= rho <= 1, and the count satisfies |u1+...+uM|^2 = M(M+1-N_eff): it lies in [1, M+1], is 1 exactly when every pair is perfectly correlated, M exactly for a zero and above M exactly for a negative mean correlation, M+1 exactly when the columns cancel |
| `EffectiveTrials.EnergyIsPairs` | src/crypto_quant_lab/validation/trial_statistics.py:72-79 | the squared length of the sum of M unit columns is M plus twice the sum over all pairs |
| `EffectiveTrials.UnitDotAtMostOne` | src/crypto_quant_lab/validation/trial_statistics.py:74-79 | Cauchy-Schwarz for a pair of normalized columns |
| `EffectiveTrials.CorrelationIsDot` | src/crypto_quant_lab/validation/trial_statistics.py:76-78 | the divided correlation is the dot product of the normalized columns |
| `EffectiveTrials.ZeroVarianceIffConstant` | src/crypto_quant_lab/validation/trial_statistics.py:62-71 | a column has zero norm exactly when it is constant |
| `EffectiveTrials.CenteredMeaning` | src/crypto_quant_lab/validation/trial_statistics.py:64-65 | centering shifts a column as a whole to the sum zero |
| `EffectiveTrials.CenterColumn` | src/crypto_quant_lab/validation/trial_statistics.py:63-71 | deviations and norm of one column; the norm is zero exactly for a constant column |
| `EffectiveTrials.AddCorrelations` | src/crypto_quant_lab/validation/trial_statistics.py:72-79 | the nested accumulation adds every pair once and counts M(M-1)/2 pairs |
| `EffectiveTrials.EstimateEffectiveTrialCount` | src/crypto_quant_lab/validation/trial_statistics.py:50-89 | refuses exactly too few trials or observations or a constant column; otherwise the mean pairwise correlation of the normalized columns and the count their geometry fixes, with its anchors |
| `Pbo.RankMeaning` | src/crypto_quant_lab/validation/pbo.py:160-166 | a mid-rank exceeds the median rank by half of what more candidates are worse than better; so it lies in [1, N] and is at or below the median exactly when no more are worse |
| `Pbo.RanksFollowValues` | src/crypto_quant_lab/validation/pbo.py:160-166 | ranks are ordered as the scores are, and equal exactly on ties |
| `Pbo.RanksConserveTheirSum` | src/crypto_quant_lab/validation/pbo.py:160-166 | with any ties the mid-ranks sum to N(N+1)/2 |
| `Pbo.HalvesPartitionRows` | src/crypto_quant_lab/validation/pbo.py:220-227 | every row is in sample or out of sample, never both |
| `Pbo.RowsOfBlocks` | src/crypto_quant_lab/validation/pbo.py:222-227 | the blocks are consecutive runs of equally many rows |
| `Pbo.EachBlockInHalf` | src/crypto_quant_lab/validation/pbo.py:206-220 | every block is in sample in exactly half of the combinations |
| `Pbo.ComplementIsListed` | src/crypto_quant_lab/validation/pbo.py:220-221 | the out-of-sample half of a combination is itself a listed in-sample half |
| `Pbo.ColumnSharpes` | src/crypto_quant_lab/validation/pbo.py:138-157 | the scores of every candidate on the given rows, or an error exactly when one is undefined |
| `Pbo.RankSelected` | src/crypto_quant_lab/validation/pbo.py:245-256 | the out-of-sample ranks of the selected candidates and the share of them at or below the median |
| `Pbo.EvaluateCombination` | src/crypto_quant_lab/validation/pbo.py:220-264 | one combination: in-sample argmax with ties, out-of-sample ranks, tie-split weight in [0, 1] |
| `Pbo.ComputeProbabilityOfBacktestOverfitting` | src/crypto_quant_lab/validation/pbo.py:169-273 | the estimate is the mean weight over exactly the C(S, S/2) combinations in lexicographic order, in [0, 1] |
| `Market.ValidateDataset` | src/crypto_quant_lab/backtest/replay.py:74-134 | accepts exactly non-empty, uniform, contiguous datasets available by the as-of instant |
| `Market.ValidateFundingEvents` | src/crypto_quant_lab/backtest/replay.py:137-208 | accepts exactly one-partition, in-range, ordered, duplicate-free events |
| `Market.FundingStrictlyIncreasing` | src/crypto_quant_lab/backtest/replay.py:199-208 | accepted events strictly increase in (time, rate type) |
| `TextOrder.TextLessMeaning` | src/crypto_quant_lab/backtest/replay.py:199-208 | texts compare by the first character in which they differ, a proper prefix first |
| `Market.OpensAscend` | src/crypto_quant_lab/backtest/replay.py:100-134 | in an accepted dataset a candle closes no later than any later one opens |
| `Market.FundingIsLinear` | src/crypto_quant_lab/funding/calculator.py:37-67 | the linear charge is linear in position, price and rate, and one for units |
| `Accounting.FillKeepsBalance` | src/crypto_quant_lab/backtest/accounting.py:57-118 | every accepted open, close and reversal keeps cash + position at entry == initial cash + realized - cost |
| `Accounting.CashCostKeepsBalance` | src/crypto_quant_lab/backtest/accounting.py:121-144 | a cash cost keeps the same balance |
| `Accounting.BalancedEquity` | src/crypto_quant_lab/backtest/accounting.py:147-165 | in a balanced account equity minus initial cash is realized plus unrealized minus cost, at every mark |
| `Accounting.TargetsAreLegal` | src/crypto_quant_lab/backtest/execution.py:31-123 | from one target quantity to another the fill is an open, a close or a full reversal, never a resize |
| `Accounting.ApplyFill` | src/crypto_quant_lab/backtest/accounting.py:57-118 | refuses exactly no change and resizes; otherwise the new quantity is the sum, cash pays fill and cost, an open position is entered at the price, and realized profit grows by the closed position's move |
| `PositionLog.PositionIntervalRecorder.OnFill` | src/crypto_quant_lab/backtest/position_log.py:65-81 | the recorder's two fields follow the log step, unchanged on a refusal |
| `PositionLog.RecorderNeverRaises` | src/crypto_quant_lab/backtest/position_log.py:65-81 | on the fills of an engine no call is refused |
| `PositionLog.IntervalsOrdered` | src/crypto_quant_lab/backtest/position_log.py:83-89 | recorded intervals are non-empty, chronological and at most touch |
| `PositionLog.TransitionsAreRecorded` | src/crypto_quant_lab/backtest/position_log.py:91-94 | the recorder counts the same transitions as the engine |
| `PositionLog.OpenPersists` | src/crypto_quant_lab/backtest/position_log.py:65-89 | every position a fill left is on record: long or short by the sign of the position, of its size, entered at the fill and left at the next one (or still open) |
| `PositionLog.IntervalIsHolding` | src/crypto_quant_lab/backtest/position_log.py:65-89 | conversely every recorded interval is the position some fill left, with its side, size, entry and exit |
| `PositionLog.ClosePersists` | src/crypto_quant_lab/backtest/position_log.py:65-89 | a fill that leaves a position closes an interval ending at that fill, for good |
| `PositionLog.ReturnMarksMeaning` | src/crypto_quant_lab/backtest/position_log.py:43-54 | a return mark is a mark after the entry with no other mark between the exit and it |
| `PositionLog.SharedMark` | src/crypto_quant_lab/backtest/position_log.py:43-54 | two ordered intervals share at most the first mark after a reversal |
| `Replay.LedgerAlwaysHolds` | src/crypto_quant_lab/backtest/replay.py:381-441 | in every run the account is balanced, at a target quantity, and the total cost is the charges plus the fill costs |
| `Replay.FillsAlwaysHold` | src/crypto_quant_lab/backtest/replay.py:381-441 | in every run the fills are linked, legal, strictly later than one another, and counted by the trade count |
| `Replay.PointsAlwaysAscend` | src/crypto_quant_lab/backtest/replay.py:401-403 | equity points strictly ascend in time |
| `Replay.FinalPoint` | src/crypto_quant_lab/backtest/replay.py:401-456 | the last equity point is the final mark |
| `Replay.DecisionNeverFails` | src/crypto_quant_lab/backtest/execution.py:49-123 | no guard of the execution, the accounting or the trade count can fire from an engine state; an execution is priced at the next open and charged for it |
| `ReplayEngine.ResolveEvaluationStart` | src/crypto_quant_lab/backtest/replay.py:211-247 | accepts exactly an aligned boundary inside the run, or none |
| `ReplayEngine.StartIsAnOpenIffAligned` | src/crypto_quant_lab/backtest/replay.py:216-224 | an accepted explicit boundary is some candle's open, as documented, if and only if the dataset lies on the grid of its timeframe |
| `ReplayEngine.AlignedDatasetHasEvaluationCandle` | src/crypto_quant_lab/backtest/replay.py:443-446 | on a grid-aligned dataset, or without an explicit boundary, an accepted boundary leaves a candle to evaluate |
| `ReplayEngine.OffGridDatasetCounterexample` | src/crypto_quant_lab/backtest/replay.py:216-224 | a valid dataset off the grid with an accepted boundary after its last open: neither promise holds |
| `ReplayEngine.ApplyDueFundingEvents` | src/crypto_quant_lab/backtest/replay.py:250-282 | the cursor sweep charges exactly the due events and stops at the first later one |
| `ReplayEngine.ExecuteDecision` | src/crypto_quant_lab/backtest/replay.py:414-441 | one decision filled at the next open and shown to the observer, computing the run; the error branches are dead |
| `ReplayEngine.ReplayCandles` | src/crypto_quant_lab/backtest/replay.py:381-456 | the candle loop computes the run; it fails exactly when no candle is evaluated |
| `ReplayEngine.RunBacktestReplay` | src/crypto_quant_lab/backtest/replay.py:285-456 | accepts exactly validated inputs with a candle to evaluate; the assertion fires exactly when the last candle opens before the boundary |
| `ReplayEngine.BuildBacktestResult` | src/crypto_quant_lab/backtest/results.py:67-139 | assembles the result, refusing exactly an inconsistent one |
| `ReplayEngine.FinalRunConsistent` | src/crypto_quant_lab/backtest/results.py:91-126 | neither consistency check can fire on a finished run |
| `ReplayTheorems.EveryEventChargedOnce` | src/crypto_quant_lab/backtest/replay.py:250-282 | the cursor ends at the number of events, each charged once by the funding model on the net quantity of the fills stamped strictly before it, at its own reference price and rate; total cost is these charges plus fill costs |
| `ReplayTheorems.FundingFollowsRule` | src/crypto_quant_lab/backtest/replay.py:393-399 | the same rule at every candle of every run |
| `ReplayTheorems.NoLookAhead` | src/crypto_quant_lab/backtest/replay.py:381-441 | two runs that agree on the first n candles and the events due by then agree on everything up to there |
| `ReplayTheorems.FinalRunsShareTheirPast` | src/crypto_quant_lab/backtest/replay.py:381-456 | whatever follows, the finished runs share those equity points, contexts and fills |
| `ReplayTheorems.ContextsAreAvailable` | src/crypto_quant_lab/backtest/replay.py:405 | every candle shown to the policy is available at the context instant |
| `ReplayTheorems.PointsOfRun` | src/crypto_quant_lab/backtest/replay.py:381-405 | one equity point and one context per evaluated candle, stamped with its availability |
| `ReplayTheorems.FillsExecuteDecisions` | src/crypto_quant_lab/backtest/replay.py:414-430 | every fill executes the decision of a candle: target quantity, time and cost of the next candle's open, and the account books it at that open: cash pays (after - before) times it plus the cost, it becomes the entry of what is held, and closed profit is measured against it |
| `ReplayTheorems.ReturnsAreAttributed` | src/crypto_quant_lab/backtest/position_log.py:43-94 | if equity differs between consecutive marks, the later mark is a return mark of some recorded interval |
| `ReplayTheorems.IntervalsShareOnlyReversalMarks` | src/crypto_quant_lab/backtest/position_log.py:43-89 | two recorded intervals of a run share a mark only at a reversal, and then only one |
| `ReplayTheorems.FillIsMark` | src/crypto_quant_lab/backtest/replay.py:437-441 | every fill is stamped at an equity mark |
| `ReplayTheorems.TradesAreRecordedTransitions` | src/crypto_quant_lab/backtest/results.py:43-64 | the engine's trade count is the recorder's transition count |
| `AcceptedReplays.AcceptedRunKeepsItsPromises` | src/crypto_quant_lab/backtest/replay.py:285-456 | from accepted inputs and linear funding alone: each event charged once by the rule, every equity change attributed to a recorded position, every fill decided and booked at the next open, final cash is initial cash less total cost less what the fills paid at those opens, trade count equal to the recorder's |
| `AcceptedReplays.ResultFollowsFills` | src/crypto_quant_lab/backtest/results.py:91-139 | the reported cash, equity, open profit and total profit, from the fills of the run, their opens and the last close alone |
| `ReplayLedger.AccountFollowsFills` | src/crypto_quant_lab/backtest/execution.py:99-123 | after any number of candles cash is initial cash less every cost less what the fills paid, each at the open of the candle that opens when it is stamped, and the entry is the open of the last fill |
| `ReplayLedger.EquityOfPoint` | src/crypto_quant_lab/backtest/replay.py:401-403 | every equity point values the position held at its candle's close: initial cash, less costs and prices paid so far, plus quantity times that close |
| `FundingSignal.NewHistory` | src/crypto_quant_lab/research/funding_carry.py:115-167 | accepts exactly strictly ascending settled events inside the coverage |
| `FundingSignal.LatestSettledMeaning` | src/crypto_quant_lab/research/funding_carry.py:196-217 | the event read is the last one settled by the cutoff; none exactly when none is settled |
| `FundingSignal.CarryDecisionMeaning` | src/crypto_quant_lab/research/funding_carry.py:289-313 | short exactly when the last settled event is fresh and its rate at or above the short threshold, long exactly when it is fresh, below that and at or below the long threshold; each of the five reasons exactly in its case; the event is the last settled one |
| `FundingSignal.NeverPaysIff` | src/crypto_quant_lab/research/funding_carry.py:309-312 | over every history, instant, size and price, a decided position never pays the linear funding of the event it acts on, if and only if the long threshold is at most zero and the short one at least zero |
| `FundingSignal.DecisionIgnoresUnsettledEvents` | src/crypto_quant_lab/research/funding_carry.py:196-313 | events after the knowledge cutoff never change a decision |
| `Diagnostics.DiagnoseWindow` | src/crypto_quant_lab/research/diagnostics.py:84-138 | the decision loop counts changes, executable changes, reasons and signals of the decisions it takes; the control arm never changes its target |
| `Diagnostics.EngineSimulated` | src/crypto_quant_lab/research/diagnostics.py:90-120 | before each decision the engine holds the diagnosed position and has made one fill per change |
| `Diagnostics.ExecutableChangesAreFills` | src/crypto_quant_lab/research/diagnostics.py:90-120 | on a closed window the executable changes are the engine's fill count |
| `Diagnostics.OpenWindowAgreement` | src/crypto_quant_lab/research/diagnostics.py:90-120 | how the two counts relate while records run past the engine's candles |
| `Diagnostics.DiagnosticsConsistentWithEngine` | src/crypto_quant_lab/research/diagnostics.py:63-138 | for the carry and control strategies the diagnosis of the evaluated candles reproduces the engine's fill count |
| `WindowDiagnosis.ClosedIffWholeWindow` | src/crypto_quant_lab/data_quality/time.py:43-85 | the effective end is the window's own end exactly when the window is closed as of the instant |
| `WindowDiagnosis.EffectiveEndMeaning` | src/crypto_quant_lab/data_quality/time.py:43-85 | the effective end is the latest grid instant up to both the end and the as-of instant, and exists exactly for an ordered, aligned range with a closed candle |
| `WindowDiagnosis.ReadSplits` | src/crypto_quant_lab/storage/sqlite.py:490-515 | a read of a range is the read of its first part followed by the read of the rest |
| `WindowDiagnosis.ClosedWindowIsConsistent` | src/crypto_quant_lab/research/diagnostics.py:80-136 | for a window closed as of the run's instant the diagnosis of the stored candles always reproduces the engine's fill count |
| `WindowDiagnosis.OpenWindowIsConsistentIff` | src/crypto_quant_lab/research/diagnostics.py:80-136 | for an open window the counts agree exactly when no later diagnosed target but the last changes |
| `Multileg.CursorIsLatestEvent` | src/crypto_quant_lab/backtest/multileg.py:349-359 | the cursor recomputed from the records is the latest event of the history |
| `Multileg.OrderErrorMeaning` | src/crypto_quant_lab/backtest/multileg.py:362-380 | on a reachable state the order check means "after the latest event", and the history is never inconsistent |
| `Multileg.OpenKeepsReachable` | src/crypto_quant_lab/backtest/multileg.py:429-476 | an open succeeds exactly for a flat state, the pair's two instruments bought and sold in equal quantity at one instant, accepted costs and enough spot cash, and stays reachable |
| `Multileg.CloseKeepsReachable` | src/crypto_quant_lab/backtest/multileg.py:479-532 | a close succeeds exactly for an open state, the pair's two instruments sold and bought back in the open quantity, in order and with accepted costs, and stays reachable |
| `Multileg.FundingKeepsReachable` | src/crypto_quant_lab/backtest/multileg.py:535-583 | a funding succeeds exactly for an open state, its own instrument, a new key in order, and stays reachable |
| `Multileg.HedgedEquity` | src/crypto_quant_lab/backtest/multileg.py:604-653 | in a hedged state the quantities offset and equity is capital plus quantity times the basis move minus costs and funding |
| `Multileg.CommonShiftIsNeutral` | src/crypto_quant_lab/backtest/multileg.py:604-653 | adding one amount to both marks leaves equity unchanged |
| `Multileg.ClosedEquity` | src/crypto_quant_lab/backtest/multileg.py:604-706 | after the close equity is the two wallets |
| `Multileg.MarkNeverMismatches` | src/crypto_quant_lab/backtest/multileg.py:604-670 | the accounting invariant of a mark never fires; a mark fails only for a non-positive price or a time before the last event |
| `Multileg.MarkMeaning` | src/crypto_quant_lab/backtest/multileg.py:625-670 | every field of a mark in terms of the wallets and the recorded fills: spot equity, the open profit of the short, margin equity, their sum and the total profit |
| `Multileg.SummaryAlwaysBalances` | src/crypto_quant_lab/backtest/multileg.py:673-706 | a closed state always has a summary; the two final wallets are given by the recorded fills, costs and funding, equity is their sum, profit its excess over the capital, and it agrees with every mark |
| `Multileg.StrictScriptsStayAccepted` | src/crypto_quant_lab/backtest/multileg.py:341-380 | every script accepted under strict times is accepted with fundings before fills, with equal ledgers |
| `Multileg.StrictIffTimesIncrease` | src/crypto_quant_lab/backtest/multileg.py:341-380 | a script accepted with fundings before fills is accepted under strict times if and only if its recorded event times strictly increase, and then with equal ledgers |
| `Multileg.SameInstantFundingsNeedRelaxedOrder` | src/crypto_quant_lab/backtest/multileg.py:341-380 | two fundings at one instant need the relaxed order |
| `MultilegReplay.SettleOneHolds` | src/crypto_quant_lab/backtest/multileg_replay.py:308-333 | a due event is refused only for a non-zero charge on a flat position, and leaves the declarative record |
| `MultilegReplay.SweepHolds` | src/crypto_quant_lab/backtest/multileg_replay.py:308-340 | a sweep consumes exactly the due events and keeps every invariant |
| `MultilegReplay.NextEventFollows` | src/crypto_quant_lab/backtest/multileg_replay.py:308-320 | events still to come follow the whole recorded history |
| `MultilegRuns.OpenHolds` | src/crypto_quant_lab/backtest/multileg_replay.py:349-384 | the scripted open fills exactly when its prices, costs and cash are acceptable |
| `MultilegRuns.CloseHolds` | src/crypto_quant_lab/backtest/multileg_replay.py:349-384 | the scripted close fills exactly when its prices and costs are acceptable |
| `MultilegRuns.RunAlwaysHolds` | src/crypto_quant_lab/backtest/multileg_replay.py:296-398 | after n candles lifecycle, ledgers, records, cursor, unexecuted intents and the number and times of the marks are given by the inputs; a run reaches candle n exactly when every earlier candle's inputs are acceptable |
| `MultilegMarks.MarksAreDetermined` | src/crypto_quant_lab/backtest/multileg_replay.py:341-348 | every recorded mark is the valuation of the swept pre-fill state at its candle's closes |
| `MultilegMarks.FlatMarkEquity` | src/crypto_quant_lab/backtest/multileg_replay.py:341-348 | before the open every mark is worth the capital |
| `MultilegMarks.HedgedMarkEquity` | src/crypto_quant_lab/backtest/multileg_replay.py:341-348 | a hedged mark is worth the capital plus the basis move from the fill candle's opens to the mark's closes, less fill costs and the charges due by then |
| `MultilegMarks.ClosedMarkEquity` | src/crypto_quant_lab/backtest/multileg_replay.py:341-348 | after the close every mark is fixed by the basis of the two fill candles, less fill costs and charges |
| `MultilegRuns.NonPositivePriceExample` | src/crypto_quant_lab/backtest/multileg.py:604-625 | a validated run of one candle per leg that zero prices stop |
| `MultilegRuns.RunFinishesIff` | src/crypto_quant_lab/backtest/multileg_replay.py:296-398 | a validated run finishes exactly when prices, costs, flat funding and spot cash are acceptable; no ordering, lifecycle, collateral, mark or unsettled-funding check can stop it |
| `MultilegRuns.OnlyShortageRemains` | src/crypto_quant_lab/backtest/multileg_replay.py:296-398 | with positive prices, costs never negative and free flat funding only a spot-cash shortage remains |
| `MultilegRuns.FinishedRun` | src/crypto_quant_lab/backtest/multileg_replay.py:394-417 | every event is settled by the declarative rule, funding paid is the sum of the records, the history strictly increases and its maximum is the cursor; final mark and summary never fail |
| `MultilegRuns.FillsExecuteIntents` | src/crypto_quant_lab/backtest/multileg_replay.py:349-384 | every fill of a finished run executes its intent at the opens of the candle that opens at the decision, with both instruments, sides, quantities, prices and costs |
| `MultilegRuns.FundingOfRun` | src/crypto_quant_lab/backtest/multileg_replay.py:308-333 | every event of a finished run is charged on the short exactly when the open was decided and the close was not strictly before it, on nothing otherwise, at its own price and rate |
| `MultilegRuns.FinalEquityHedged` | src/crypto_quant_lab/backtest/multileg_replay.py:394-399 | a run left open is worth its capital plus the basis move since the fill candle's opens, less costs and recorded funding |
| `MultilegRuns.FinalEquityClosed` | src/crypto_quant_lab/backtest/multileg_replay.py:394-417 | a closed run keeps exactly the basis move between its two fill candles, less costs and recorded funding |
| `MultilegRuns.MarksArePreFill` | src/crypto_quant_lab/backtest/multileg_replay.py:341-348 | each equity point values the position held before that candle's fill |
| `MultilegEngine.ValidateLeg` | src/crypto_quant_lab/backtest/multileg_replay.py:169-183 | accepts exactly a tradable, valid dataset of the leg's instrument |
| `MultilegEngine.ValidateFundingIdentity` | src/crypto_quant_lab/backtest/multileg_replay.py:186-207 | accepts exactly events of the perpetual with distinct keys |
| `MultilegEngine.ValidateIntents` | src/crypto_quant_lab/backtest/multileg_replay.py:210-240 | accepts exactly lawful scripts on candle closes and tabulates them by instant |
| `MultilegEngine.ValidateInputs` | src/crypto_quant_lab/backtest/multileg_replay.py:260-294 | accepts exactly the validated inputs |
| `MultilegEngine.SettleDueFunding` | src/crypto_quant_lab/backtest/multileg_replay.py:308-340 | the funding loop is the sweep |
| `MultilegEngine.ReplayCandles` | src/crypto_quant_lab/backtest/multileg_replay.py:296-393 | the candle loop computes the run |
| `MultilegEngine.RunMultilegReplay` | src/crypto_quant_lab/backtest/multileg_replay.py:246-417 | succeeds exactly on validated inputs that behave, with the run's state, records, marks, final mark and closed summary; otherwise fails with one of the external causes |
| `FundingPagination.ValidatePage` | src/crypto_quant_lab/funding/binance_pagination.py:97-149 | accepts exactly well-formed pages of the request |
| `FundingPagination.WellFormedMeaning` | src/crypto_quant_lab/funding/binance_pagination.py:97-149 | well formed means: of the symbol, on whole milliseconds inside the inclusive bounds, in time order, no two records of one instant and rate type |
| `FundingPagination.ConflictMeaning` | src/crypto_quant_lab/funding/binance_pagination.py:198-205 | two records conflict exactly when they agree on instant and rate type and differ in rate or mark price |
| `FundingPagination.BlankMeaning` | src/crypto_quant_lab/funding/binance_pagination.py:51-52 | a symbol is blank when it is empty or only white space |
| `FundingPagination.CountUnseen` | src/crypto_quant_lab/funding/binance_pagination.py:198-205 | fails exactly on a conflicting payload; zero exactly when the page brings no new key |
| `FundingPagination.Absorb` | src/crypto_quant_lab/funding/binance_pagination.py:214-217 | appends exactly the records with a new key, keeping the index |
| `FundingPagination.MergeWellFormed` | src/crypto_quant_lab/funding/binance_pagination.py:214-225 | the output stays ordered, in range and free of repeats |
| `FundingPagination.MergeShrinksUnseen` | src/crypto_quant_lab/funding/binance_pagination.py:207-225 | a page that brings something new shrinks the set of unseen keys: the termination measure |
| `FundingPagination.HonestPage` | src/crypto_quant_lab/funding/binance_pagination.py:182-225 | against a prefix server each page extends a contiguous run, or ends it, or proves a crowded timestamp |
| `FundingPagination.InRangeIsTheRange` | src/crypto_quant_lab/funding/binance_pagination.py:152-180 | the promised result holds exactly the database records of the range |
| `FundingPagination.FetchFundingHistory` | src/crypto_quant_lab/funding/binance_pagination.py:152-225 | terminates on every server; against a prefix server returns every record of the range exactly once in order if and only if fewer than `limit` share any timestamp, and otherwise raises |
| `FundingPagination.TwoRateTypesNeverCrowd` | src/crypto_quant_lab/funding/binance.py:28 | with two rate types no timestamp can hold a page of more than two |
| `FundingPagination.FetchEverything` | src/crypto_quant_lab/funding/binance_pagination.py:37 | at the real page limit a prefix server is always read completely |
| `KlinePagination.TransportStart` | src/crypto_quant_lab/data_quality/transport.py:28-31 | the widened start is at most a millisecond early and never late |
| `KlinePagination.TransportEnd` | src/crypto_quant_lab/data_quality/transport.py:34-38 | the widened end is at most a millisecond late and never early |
| `KlinePagination.ValidatePage` | src/crypto_quant_lab/data_quality/pagination.py:29-55 | accepts exactly ascending pages at or after the cursor |
| `KlinePagination.FilterPage` | src/crypto_quant_lab/data_quality/pagination.py:96-98 | appends exactly the in-range candles |
| `KlinePagination.FilterKeeps` | src/crypto_quant_lab/data_quality/pagination.py:94-98 | filtering a validated page keeps the result ascending and in range |
| `KlinePagination.HonestStep` | src/crypto_quant_lab/data_quality/pagination.py:83-110 | against an honest server one page loses and repeats nothing; an empty page means the range is done |
| `KlinePagination.StartCaughtUp` | src/crypto_quant_lab/data_quality/pagination.py:81-89 | the first request starts right exactly when no candle straddles the start within its millisecond |
| `KlinePagination.InRangeIsTheRange` | src/crypto_quant_lab/data_quality/pagination.py:58-71 | the promised result holds exactly the candles of [start, end) |
| `KlinePagination.PaginateHistoricalKlines` | src/crypto_quant_lab/data_quality/pagination.py:58-112 | terminates on every server; against non-empty prefixes of a grid-aligned series it returns exactly the range, unless a candle straddles the start, and then it raises |
| `KlinePagination.WholeMillisecondStart` | src/crypto_quant_lab/data_quality/transport.py:28-31 | a start on a whole millisecond, in particular on the candle grid, is never straddled, so the paginator is then always exact |
| `KlinePagination.StraddlingExample` | src/crypto_quant_lab/data_quality/pagination.py:36-42 | a concrete series on which the paginator raises although no candle lies in the range |
| `Coverage.ComputeCoverageGaps` | src/crypto_quant_lab/funding/quality.py:169-223 | accepts exactly ordered overlapping intervals and returns the maximal uncovered intervals, disjoint and ascending |
| `Coverage.GapsAreUnique` | src/crypto_quant_lab/funding/quality.py:185-223 | there is only one such list |
| `Coverage.NoGapsIffCovered` | src/crypto_quant_lab/funding/quality.py:275-276 | no gap exactly when every instant is covered |
| `Coverage.BuildReport` | src/crypto_quant_lab/funding/quality.py:226-288 | PASS exactly when every instant is covered; counts and the first twenty gaps |
| `Coverage.CoverageContains` | src/crypto_quant_lab/storage/datasets.py:138-154 | true exactly when every instant of the range is covered |
| `Coverage.Covered` | src/crypto_quant_lab/research/usdm_perpetual.py:41-49 | true exactly when every instant of the window is covered |
| `Coverage.SortKeeps` | src/crypto_quant_lab/storage/datasets.py:144-147 | sorting keeps the intervals and orders them by start, then end |
| `CandleStore.HistoricalCandleStore.WriteRecord` | src/crypto_quant_lab/storage/sqlite.py:455-488 | inserts, accepts an identical repeat, refuses a different value and then changes nothing |
| `CandleStore.HistoricalCandleStore.WriteBatch` | src/crypto_quant_lab/storage/sqlite.py:276-302 | commits the whole batch or leaves every table as it was |
| `CandleStore.HistoricalCandleStore.WriteIngestionBatch` | src/crypto_quant_lab/storage/sqlite.py:319-395 | registers, writes and records coverage together, or changes nothing |
| `CandleStore.BatchMeaning` | src/crypto_quant_lab/storage/sqlite.py:276-395 | a batch commits exactly when admissible, whatever the order of its records, and then adds its candles, registration and coverage and nothing else |
| `CandleStore.WriteMeaning` | src/crypto_quant_lab/storage/sqlite.py:455-488 | writing in order succeeds exactly when no two values meet at one key, and gives the union |
| `CandleStore.EveryRunKeepsProvenance` | src/crypto_quant_lab/storage/sqlite.py:319-395 | over every sequence of batches candles of registered namespaces stay covered, and registrations, values and coverage are never withdrawn |
| `CandleStore.QueryMeaning` | src/crypto_quant_lab/storage/sqlite.py:490-515 | a query refuses exactly an empty range; otherwise it returns exactly the stored candles of the range in ascending time |
| `CandleStore.QueriedCandlesAreCovered` | src/crypto_quant_lab/storage/sqlite.py:421-453 | after any run every queried candle of a registered namespace lies in a queried coverage row |
| `CandleStore.CommittedRecordsAreRead` | src/crypto_quant_lab/storage/sqlite.py:490-515 | a committed record is read back |
| `CandleStore.IngestedRecordsFit` | src/crypto_quant_lab/storage/sqlite.py:319-395 | a committed ingestion batch holds only records of its dataset inside its range, and leaves the provenance and the coverage row |
| `CandleStore.CoverageQueryMeaning` | src/crypto_quant_lab/storage/sqlite.py:421-453 | a coverage query refuses exactly an empty range, and otherwise returns exactly the rows of the namespace that share an instant with it |
| `CandleStore.RepeatIsNoOp` | src/crypto_quant_lab/storage/sqlite.py:468-476 | a batch committed anywhere in a run is a no-op when repeated after any later batches |
| `CandleStore.BatchesCommute` | src/crypto_quant_lab/storage/sqlite.py:276-395 | two batches that commit in one order commit in the other, to the same tables |

## Left out

- Decimal rounding: every real-valued statement is about the exact value, not the value rounded to the context's precision.
- Square roots, logarithms and the normal distribution: a root is a parameter whose square is given, logits, p-values and the default lag rule are not modelled.
- HTTP clients, JSON parsing, retries, timeouts and wall clocks: a page server is a function of the call number and the requested bounds.
- SQLite itself (SQL text, schema checks, text encoding of decimals, read-only connections, foreign corruption): only the meaning of the tables and of commit and rollback; the funding store repeats it with less state.
- Type checks, blank-identifier checks and message texts; only the order of the checks that decide between modelled outcomes is kept.
- Trace events of the multi-leg replay and the echo of its inputs in the result.
- The symbol check of the carry policy and the candidate, trial and configuration records around it.
- The quality gate in front of the engine: `WindowDiagnosis` starts from the candles it lets through, which are contiguous, and assumes the diagnostics read the same store contents as the run did.
- Deflated and pooled Sharpe ratios, the plain i.i.d. Sharpe significance, CPCV path summaries and annualised metrics.
- The command line, reports, Markdown, hashing, demos and fixtures.
- Cpcv.IntervalRows: rows are found by their time inside the block instead of through a mark-to-row table, which is the same because times strictly ascend.
- Coverage.SortKeeps: the built-in sort is an insertion sort; only its order and contents matter to the callers.
- Which of several simultaneous input errors is reported: the checks keep the source's order, the contracts say when input is accepted.
- HacVariance.HacStatistics: the sample standard deviation enters as a positive number whose square is the variance.
- EffectiveTrials.EstimateEffectiveTrialCount: the square root is a parameter that is exact on non-negative numbers.
- FundingPagination.FetchFundingHistory: the rate types a server uses come from a finite set, as the record parser guarantees; without it no paginator over free-form keys could terminate.
