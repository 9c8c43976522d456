# Closed-loop controller: verified model

The system is a failover controller for two model services. An agent observes the active service, detects trouble with three
detectors, classifies it, gates its reaction by a confirmation count and a cooldown, fails over, verifies and rolls back. A backend
keeps the registry of model versions with one global serving slot, and an audit trail of incidents, actions and verdicts. This
project models both sides and their composition and proves what holds of every stream, every run and every sequence of calls.

`dafny verify dfyconfig.toml` checks everything.

## What is modelled

| module | part of the system |
|---|---|
| `Schemas`, `Rounding` | the typed objects passed between phases; decimal rounding |
| `Arithmetic`, `Windows` | nonlinear facts used by the proofs; the bounded deque |
| `OrderStats` | sorting, interpolated percentile, median, MAD |
| `AnomalyDetection`, `AnomalyLaws`, `AnomalyTests` | the anomaly detector: rolling buffers, robust z-score, Tukey fence, EWMA chart, breach streaks |
| `StabilityIndex`, `DriftDetection`, `ReferenceBuilder`, `DriftLaws`, `DriftTests` | PSI, binning, the sliding window, the reference builder |
| `Metrics` | the ring buffer of a model service and its nearest-rank percentiles |
| `Decisions`, `DecisionLaws` | threshold detector, severity bands, policy, decision |
| `Retry` | the generic poller and the verification loop |
| `Agent`, `AgentRuns`, `TickLaws` | the control loop, tick by tick, and whole runs |
| `SlowService`, `AgentLimits` | the default detectors on a slow service, and how often the loop can act |
| `Registry` | model versions, the serving slot, get-or-create on ingestion |
| `Incidents`, `IncidentLaws` | incidents, action logs, verdicts |
| `ControlPlane`, `AuditTrail`, `AgentTrail`, `IncidentCap` | agent and backend together, over lossy delivery and with other clients |

Objects that the system updates in place (`AnomalyDetector`, `DriftDetector`, `MetricsTracker`, `AgentRuntime`, the clients and the
tables) are classes whose methods are proved against specification functions on values; the laws are proved about those functions.
Loops are loops with invariants. Floats are exact reals. The logarithm is a parameter of which only two facts are used, that it is
strictly increasing and that it turns quotients into differences (`StabilityIndex.IsLog`), so the results hold for every base; only
`BlindIffCoarse` needs a base of at most four.
The two square roots of the EWMA chart are avoided by comparing squares; `SquaredControlLimit` proves that this is the same test.
Everything a tick reads from outside is an arbitrary input: probe results, the detectors (functions of the context they are shown),
the executor's answer, the backend's reply, which messages arrive, and what other clients post in between.

## Where the code and its documentation differ

The model follows the code. Where a promise fails, the project gives the exact condition under which it holds and an input on which
it does not.

- Attempt cap. The design allows one recovery attempt per incident (`docs/failure_scenarios.md:60`). No code reads that limit: the
  attempt counter only counts, up to an exact maximum (`ExactMaximum`, `CapHoldsIff`, `NoCapEver`). What keeps the promise is the
  audit trail. No incident has two executed switches iff every executed switch that is followed by another to the same version has
  had its verdict delivered (`CapIffVerdictsArrive`), so it holds when nothing is lost (`CapHoldsWhenDelivered`), and whatever is
  lost no two verdicts share an incident (`VerdictsNeverShare`). `CapFailsUnanswered` is an input: the answers to the posts are
  lost, and the same failing switch is tried again within one incident.
- Retries. After a recovery that did not verify the agent is not to retry by itself (`docs/failure_scenarios.md:377`). The loop goes
  on: every run of n ticks keeps the promise iff n ticks leave room for at most one switch (`NoRetryIff`). With the shipped settings
  the second attempt comes three ticks after the first failed (`RetriesAfterFailure`).
- Cooldown. The design keeps `cooldown_cycles` cycles free of switches after any act (`docs/failure_scenarios.md:58`). The counter is
  decremented in the tick that sets it, so after a switch the next one can come exactly `cooldown_cycles` ticks later, one too early,
  and does on a steadily HIGH run (`SteadySwitches`). Failing closed sets no counter at all, so a switch can follow at once
  (`SwitchRightAfterDisable`). Either promise is kept iff no cooldown is configured (`CooldownKeepsFreeIff`,
  `DisableKeepsFreeIff`).
- "Revert to the previous known-good state". A rollback restores the model; the version that was serving comes back iff no newer
  version of that model is usable by then (`RollbackRestoresVersion`). `SwitchBackMayPromoteNewVersion` is an input on which a
  version that has never served gets the slot.
- Switch without a version. The most recent version is promised; it is promoted iff it is not retired (`MostRecentIffUsable`).
  `MostRecentMayBePassedOver` is an input.
- Terminal incidents. RESOLVED and ESCALATED are drawn as terminal; a call keeps every closed incident closed iff it is not a REVERT
  of one (`StayClosedIff`), and keeps at most one open incident per version iff it does not reopen one beside another
  (`StepOneOpen`). `RevertAfterKeepDuplicates` is an input. The agent never sends such a call (`TrailSafeOnEveryRun`).
- Drift findings. A breached aggregate is reported twice; neither severity nor what the agent posts is affected (`DriftSeverity`,
  `DriftPosted`). A numeric feature whose reference has at most two edges, as for a constant column, can never be flagged, and only
  such a feature is blind (`ZeroIffCoarse`, `BlindIffCoarse`).
- Mean confidence. A collapse to exactly 0 reads as "no data" and silences that signal. Alone, the signal keeps its severity when
  confidence falls iff the new value is positive or the old one was below no band edge (`ConfidenceFall`). Overall severity does,
  whatever the other detectors add, iff the new value is positive or another signal reaches every band that was lost
  (`ConfidenceFallOverall`). `ConfidenceCollapse` is an
  input: with the shipped settings 0.5 is HIGH and 0 is LOW.
- EWMA. The smoothing factor is not validated. Above 1 the average leaves the range of what it has seen
  (`EwmaInRangeIffConvex`; `Overshoot` is the stream); outside [0, 2) an evaluation raises iff some supplied metric is past its warm-up
  (`EvaluationRaisesIff`).

## Model

| member | source | states |
|---|---|---|
| `OrderStats.SortedUnique` | control-plane/agent_core/detection/anomaly_detector.py:42 | a non-decreasing permutation is unique, so the modelled sort stands for any library sort |
| `OrderStats.SortMap` | control-plane/agent_core/detection/anomaly_detector.py:42 | sorting commutes with every increasing map and reverses under every decreasing one |
| `OrderStats.MedianIsPercentile` | control-plane/agent_core/detection/anomaly_detector.py:41-55 | the median is the interpolated 0.5-percentile, for odd and even sample sizes |
| `OrderStats.MedianOf` | control-plane/agent_core/detection/anomaly_detector.py:41-45 | on any non-decreasing arrangement of the sample the median is the middle value or the mean of the two middle ones |
| `OrderStats.PercentileOf` | control-plane/agent_core/detection/anomaly_detector.py:48-55 | where q of the way from first to last falls t beyond number k, the percentile is t of the way from that value to the next, on any non-decreasing arrangement |
| `OrderStats.PercentileMonotone` | control-plane/agent_core/detection/anomaly_detector.py:48-55 | percentiles never decrease in q |
| `OrderStats.PercentileInRange` | control-plane/agent_core/detection/anomaly_detector.py:48-55 | every percentile lies between any bounds of the sample |
| `OrderStats.QuartilesEncloseMedian` | control-plane/agent_core/detection/anomaly_detector.py:110 | Q1 <= median <= Q3 on every non-empty history |
| `OrderStats.PercentileAffine` | control-plane/agent_core/detection/anomaly_detector.py:48-55 | the q-percentile of a*x+b is a*(q-percentile)+b for a >= 0, and comes from the (1-q)-percentile for a < 0 |
| `OrderStats.MadAffine` | control-plane/agent_core/detection/anomaly_detector.py:100-101 | the MAD of a*x+b is abs(a) times the MAD |
| `OrderStats.MedianBreakdown` | control-plane/agent_core/detection/anomaly_detector.py:41-45 | if a strict majority lies in [lo, hi], so does the median, whatever the other values are |
| `OrderStats.MadBreakdown` | control-plane/agent_core/detection/anomaly_detector.py:100-101 | ... and then the MAD is at most hi - lo |
| `OrderStats.ZeroIqrZeroMad` | control-plane/agent_core/detection/anomaly_detector.py:100-113 | IQR = 0 forces MAD = 0: whenever the fence is off the z-test is off too |
| `AnomalyDetection.SquaredControlLimit` | control-plane/agent_core/detection/anomaly_detector.py:123-130 | the root-free EWMA test is the code's test, for the roots of the variance and of alpha/(2-alpha) |
| `AnomalyDetection.AnomalyDetector.Observe` | control-plane/agent_core/detection/anomaly_detector.py:68-93 | one sample advances exactly its metric's channel, reports as specified, and raises after storing sample and average where the control limit is undefined |
| `AnomalyDetection.AnomalyDetector.Evaluate` | control-plane/agent_core/detection/anomaly_detector.py:65-94 | one evaluation sweeps the table in order, each supplied metric from its own channel, and stops where scoring raises; for every configured smoothing factor |
| `AnomalyDetection.AnomalyDetector.ScoreSample` | control-plane/agent_core/detection/anomaly_detector.py:96-133 | the three tests on one sample; the average moves even when the control limit then raises |
| `AnomalyTests.BreachIff` | control-plane/agent_core/detection/anomaly_detector.py:71-133 | after its warm-up a metric is reported iff the sample is 3.5 robust deviations out on its bad side, or 1.5 IQR beyond the quartile, or took the average more than 3*sigma*rho beyond the median; with score, method, streak, pattern and the new average, bad side and constants written out |
| `AnomalyTests.WarmUpOnlyStores` | control-plane/agent_core/detection/anomaly_detector.py:71-76 | with fewer than 12 samples one is stored and nothing else happens |
| `AnomalyTests.DetectionTells` | control-plane/agent_core/detection/anomaly_detector.py:83-93 | a detection names its metric and pattern, and carries value and score to six and four decimals |
| `AnomalyTests.OnlyTheChartSees` | control-plane/agent_core/detection/anomaly_detector.py:119-133 | an input: after eleven 10s and an 11 a latency of 20 is reported, and by the control chart, for MAD and IQR are 0 |
| `AnomalyLaws.EvaluationRaisesIff` | control-plane/agent_core/detection/anomaly_detector.py:65-94 | an evaluation raises iff the factor is outside [0, 2) and some supplied metric has 12 samples; inside, every metric is treated by itself |
| `AnomalyLaws.TicksAreStream` | control-plane/agent_core/detection/anomaly_detector.py:65-94 | over any series of evaluations, with values missing anywhere, a metric's channel and detections are those of the stream of values it had |
| `AnomalyLaws.BufferIsRecent` | control-plane/agent_core/detection/anomaly_detector.py:60-73 | the rolling buffer is always the newest 50 samples |
| `AnomalyLaws.WarmUpIsSilent` | control-plane/agent_core/detection/anomaly_detector.py:75-76 | nothing is reported before 12 samples have been seen |
| `AnomalyLaws.RobustZAffine` | control-plane/agent_core/detection/anomaly_detector.py:100-106 | the robust z-score is invariant under a*x+b up to the sign of a |
| `AnomalyLaws.IqrBreakAffine` | control-plane/agent_core/detection/anomaly_detector.py:109-117 | so is the Tukey fence, with its side turned over when a < 0 |
| `AnomalyLaws.EwmaBreakAffine` | control-plane/agent_core/detection/anomaly_detector.py:119-130 | so is the EWMA control limit |
| `AnomalyLaws.StepAffine` | control-plane/agent_core/detection/anomaly_detector.py:71-93 | from rescaled state a rescaled sample gets the same verdict, score, method, streak and pattern, and leaves rescaled state |
| `AnomalyLaws.RunAffine` | control-plane/agent_core/detection/anomaly_detector.py:65-133 | affine equivariance on every stream from every state: changing unit or origin of a metric changes no report at any sample |
| `AnomalyLaws.WorseSampleBreaches` | control-plane/agent_core/detection/anomaly_detector.py:96-133 | if a sample breaches, every sample at least as bad would have breached from the same state |
| `AnomalyLaws.OutlierCaught` | control-plane/agent_core/detection/anomaly_detector.py:100-107 | with a strict majority of the history in [lo, hi] and a positive MAD, a sample 3.5/0.6745 widths beyond it on the bad side breaches |
| `AnomalyLaws.GoodSideIsQuiet` | control-plane/agent_core/detection/anomaly_detector.py:106-117 | a sample on the good side of the median fires neither the z-test nor the fence |
| `AnomalyLaws.StreakCounts` | control-plane/agent_core/detection/anomaly_detector.py:78-82 | the streak in a report is the number of consecutive reports ending at it |
| `AnomalyLaws.SustainedIsFiveInARow` | control-plane/agent_core/detection/anomaly_detector.py:79-82 | on every stream a report is "sustained" iff it and the four samples before it were all reported |
| `AnomalyLaws.FlatHistoryIsQuiet` | control-plane/agent_core/detection/anomaly_detector.py:100-133 | a sample equal to a constant history breaches none of the tests, wherever the average stands |
| `AnomalyLaws.QuietAfter` | control-plane/agent_core/detection/anomaly_detector.py:65-94 | once a metric has had 50 equal samples, no equal sample is reported and each resets the streak |
| `AnomalyLaws.AlarmsSelfClear` | control-plane/agent_core/detection/anomaly_detector.py:65-94 | whatever came before, a constant level shift is reported at most 50 times and then the streak is zero |
| `AnomalyLaws.ConstantIsSilent` | control-plane/agent_core/detection/anomaly_detector.py:65-94 | a metric that never changes is never reported |
| `AnomalyLaws.AnomalySeverity` | control-plane/agent_core/decision_engine/severity_classifier.py:80-81 | the findings of an evaluation are MEDIUM iff some metric's anomaly persists, else LOW, however many and however far off |
| `AnomalyLaws.RunWithin` | control-plane/agent_core/detection/anomaly_detector.py:119-122 | for a smoothing factor in [0, 1] buffer and average stay within any bounds of the samples seen |
| `AnomalyLaws.EwmaInRangeIffConvex` | control-plane/agent_core/detection/anomaly_detector.py:119-122 | among the factors on which the code does not raise, the average stays in range on every stream iff the factor is at most 1 |
| `StabilityIndex.ComputePsi` | control-plane/agent_core/detection/drift_detector.py:172-178 | the accumulating loop over the zipped lists computes the index |
| `StabilityIndex.TermFacts` | control-plane/agent_core/detection/drift_detector.py:175-177 | a bin contributes at least 0, exactly 0 iff the floored shares agree, and the same either way round |
| `StabilityIndex.PsiFacts` | control-plane/agent_core/detection/drift_detector.py:172-178 | PSI >= 0; PSI = 0 iff the floored vectors agree; PSI is symmetric; for lists of any lengths |
| `StabilityIndex.PsiBounded` | control-plane/agent_core/detection/drift_detector.py:172-178 | between lists of shares PSI lies in [0, 2 ln(1/EPS)], for any number of bins |
| `DriftDetection.EveryValueBinned` | control-plane/agent_core/detection/drift_detector.py:121-127 | whatever the edges, even unsorted, every value falls in some bin |
| `DriftDetection.CountsSum` | control-plane/agent_core/detection/drift_detector.py:121-128 | bin counts add up to the number of values |
| `DriftDetection.CountBins` | control-plane/agent_core/detection/drift_detector.py:121-127 | the nested counting loops count each value once, in the first bin that takes it |
| `DriftDetection.PsiContinuous` | control-plane/agent_core/detection/drift_detector.py:118-130 | the numeric PSI is the index between the reference and the shares of the values |
| `DriftDetection.PsiCategorical` | control-plane/agent_core/detection/drift_detector.py:132-139 | the categorical PSI is the same for every iteration order of the set of categories |
| `DriftDetection.DriftDetector.Extend` | control-plane/agent_core/detection/drift_detector.py:59 | the window becomes the newest n_cur of its rows followed by the new non-empty rows |
| `DriftDetection.DriftDetector.EvaluateNumeric` | control-plane/agent_core/detection/drift_detector.py:67-84 | one finding per numeric column with a reference and enough values, in column order |
| `DriftDetection.DriftDetector.EvaluateCategorical` | control-plane/agent_core/detection/drift_detector.py:86-96 | one finding per categorical column with a non-empty reference, in column order |
| `DriftDetection.DriftDetector.EvaluateDataDrift` | control-plane/agent_core/detection/drift_detector.py:58-108 | slides the window, is silent without reference or enough rows, else reports drifted features, a breached aggregate, and the aggregate again |
| `DriftTests.FlaggedIff` | control-plane/agent_core/detection/drift_detector.py:79-81 | above 0.25 a feature is flagged, up to 0.10 it is not, in between it is flagged iff its p-value is below 0.05 |
| `DriftTests.NumericEvaluated` | control-plane/agent_core/detection/drift_detector.py:67-84 | a numeric column gives a finding iff it has a reference and at least n_cur_min values; its PSI, and flagged iff PSI > 0.25 or PSI > 0.10 and p < 0.05 |
| `DriftTests.CategoricalEvaluated` | control-plane/agent_core/detection/drift_detector.py:86-96 | the same for a categorical column, which needs only a non-empty reference |
| `DriftTests.ColumnsInOrder` | control-plane/agent_core/detection/drift_detector.py:67-96 | the six numeric and two categorical columns, in this order |
| `DriftTests.NumericByColumn` | control-plane/agent_core/detection/drift_detector.py:67-84 | each column contributes by itself, with the p-value of its own test |
| `DriftTests.CategoricalByColumn` | control-plane/agent_core/detection/drift_detector.py:86-96 | the same for the categorical columns |
| `DriftTests.NumbersOf` | control-plane/agent_core/detection/drift_detector.py:71 | a column of a window is that of its parts, missing values dropped |
| `DriftTests.VanishedShare` | control-plane/agent_core/detection/drift_detector.py:172-178 | both floors at work: the index between [1] and [0] |
| `DriftTests.AggregateTells` | control-plane/agent_core/detection/drift_detector.py:98-106 | the aggregate carries the exact share of the eight features and breaches from 0.30 on |
| `DriftTests.FindingsAre` | control-plane/agent_core/detection/drift_detector.py:107-108 | the findings are the drifted features in order, then the aggregate, twice iff at least three drifted |
| `DriftTests.StrongerEvidence` | control-plane/agent_core/detection/drift_detector.py:58-108 | lowering p-values, column by column, never lowers the number of drifted features or the severity of the findings |
| `ReferenceBuilder.Build` | data_sim/build_reference_summary.py:42-63 | the loops store for exactly the numeric columns edges, shares and sorted draw, and for exactly the categorical ones the label frequencies, beside sample size and baseline figures |
| `ReferenceBuilder.StoredReference` | data_sim/build_reference_summary.py:48-56 | stored are the edges as they are, the share of the sample in each of the detector's bins, and a sorted draw without replacement of at most 1000 values |
| `ReferenceBuilder.SameBin` | data_sim/build_reference_summary.py:48-49 | for sorted edges the histogram bin and the detector's bin of a value in range are the same bin |
| `ReferenceBuilder.SameHistogram` | data_sim/build_reference_summary.py:48-50 | with at least one bin the builder's histogram of its sample is what the detector counts |
| `DriftLaws.PropsAreProportions` | control-plane/agent_core/detection/drift_detector.py:128-129 | the current shares of a non-empty sample are non-negative and sum to 1, for any edges |
| `DriftLaws.ContinuousPsiBounded` | control-plane/agent_core/detection/drift_detector.py:118-130 | the PSI of a numeric feature lies in [0, 2 ln(1/EPS)] for any edges and any values, none included |
| `DriftLaws.CategoricalPsiBounded` | control-plane/agent_core/detection/drift_detector.py:132-139 | the same for a categorical feature whose reference frequencies sum to 1, for any values, unseen categories and none at all included; it is 0 iff all floored frequencies agree |
| `DriftLaws.BuilderDetectorAgree` | control-plane/agent_core/detection/drift_detector.py:118-130 | with at least one bin the stored proportions are those the detector computes on the sample they were built from |
| `DriftLaws.SampleNeverDrifts` | control-plane/agent_core/detection/drift_detector.py:74-81 | round trip: a sample measured against its own reference has PSI 0 and is not flagged, for any p-value |
| `DriftLaws.WindowOfSampleIsClean` | control-plane/agent_core/detection/drift_detector.py:67-84 | on a window holding the reference samples no numeric feature drifts, for any p-values |
| `DriftLaws.LabelsNeverDrift` | control-plane/agent_core/detection/drift_detector.py:132-139 | the categorical round trip: labels have PSI 0 against the reference built from them |
| `DriftLaws.ReferenceWindowIsClean` | control-plane/agent_core/detection/drift_detector.py:58-108 | on a window holding the sample of every reference the evaluation returns one clean aggregate, of severity LOW, for any p-values |
| `DriftLaws.ZeroIffCoarse` | control-plane/agent_core/detection/drift_detector.py:118-130 | for every base, all non-empty windows have PSI 0 against a built reference iff it has at most two edges |
| `DriftLaws.BlindIffCoarse` | control-plane/agent_core/detection/drift_detector.py:74-81 | for a logarithm of base at most four, a feature is never flagged, for any window and p-value, iff its reference has at most two edges; else some window is flagged whatever its p-value |
| `DriftLaws.PValueMattersInBand` | control-plane/agent_core/detection/drift_detector.py:79-81 | the p-value can change the decision iff 0.10 < PSI <= 0.25, where a feature is flagged iff p < 0.05; at or below 0.10 nothing is flagged |
| `DriftLaws.AggregateSeverity` | control-plane/agent_core/decision_engine/severity_classifier.py:57-65 | of eight features, four drifted make the aggregate HIGH, three MEDIUM, and it breaches from three on |
| `DriftLaws.DriftSeverity` | control-plane/agent_core/detection/drift_detector.py:98-108 | classifying the drift findings gives exactly the severity of the number of drifted features, despite the repeated aggregate |
| `DriftLaws.DriftPosted` | control-plane/agent_core/_files/agent.py:113-115 | the drift score and count the agent posts are the share and number of drifted features |
| `Metrics.NearestRankIsRank` | model-services/_common/metrics.py:29-34 | the result is a value of the sample with at least ceil(q*n) values at or below it and n - ceil(q*n) + 1 at or above it |
| `Metrics.NearestRankMonotone` | model-services/_common/metrics.py:29-34 | nearest-rank percentiles never decrease in q |
| `Metrics.PercentilesOrdered` | model-services/_common/metrics.py:91-93 | the reported p50 <= p95 <= p99 after rounding, on every window |
| `Metrics.PercentileWithinWindow` | model-services/_common/metrics.py:71-79 | a non-empty window reports no percentile outside its latencies, even when every request failed |
| `Metrics.AverageWithinWindow` | model-services/_common/metrics.py:76-82 | nor does its average latency leave their range |
| `Metrics.MetricsTracker.Record` | model-services/_common/metrics.py:47-52 | the window stays the newest window_size requests ever recorded and the lifetime counters stay exact totals |
| `Metrics.MetricsTracker.TakeSnapshot` | model-services/_common/metrics.py:58-100 | every field of the snapshot, told of the newest window_size requests (`Tells`): counts of requests and failures, error rate, average and percentiles of the latencies of the successes, or of all if none succeeded, and confidence, each to its rounding; exact lifetime totals, which bound the window's; p50 <= p95 <= p99 |
| `Metrics.SnapshotTells` | model-services/_common/metrics.py:67-100 | on every window: error rate 0 without failures, 1 when all failed, else failures over requests within half a millionth; p50, p95 and p99 within 0.0005 of a latency with that share of the latencies at or below it and the rest at or above |
| `Metrics.SnapshotInRange` | model-services/_common/metrics.py:76-94 | average and percentiles lie, up to rounding, within any bounds of the latencies used, the confidence within those of the successes |
| `Metrics.LatencySourceIs` | model-services/_common/metrics.py:71-76 | latencies are those of the successes if not every request failed, else of every request |
| `Metrics.SuccessesOf` | model-services/_common/metrics.py:71 | the successes are the requests that did not fail, in order |
| `Decisions.Detect` | control-plane/agent_core/detection/threshold_detector.py:26-98 | the successive appends produce one finding per signal beyond its floor, in order; without metrics only the outside signals |
| `DecisionLaws.SignalsAre` | control-plane/agent_core/detection/threshold_detector.py:38-98 | a finding is reported iff it is one of six: each signal beyond its written-out floor, under its own name, with its rounded value |
| `DecisionLaws.HighFindings` | control-plane/agent_core/decision_engine/severity_classifier.py:32-84 | exactly which single findings are HIGH |
| `DecisionLaws.RaisedFindings` | control-plane/agent_core/decision_engine/severity_classifier.py:32-84 | exactly which are above LOW; unknown detectors and signals are LOW |
| `DecisionLaws.ShippedBands` | control-plane/agent_core/decision_engine/severity_classifier.py:32-54 | the bands under the shipped settings |
| `DecisionLaws.EvidenceIsFirstWorst` | control-plane/agent_core/decision_engine/decision.py:17-26 | ties go to the earliest signal: everything before the evidence is strictly milder |
| `DecisionLaws.ClassifyIsMax` | control-plane/agent_core/decision_engine/severity_classifier.py:87-93 | overall severity is the least bound of the breaching signals, LOW if there are none |
| `DecisionLaws.ClassifyConcat` | control-plane/agent_core/decision_engine/severity_classifier.py:87-93 | classification maps concatenation of findings to the worse severity |
| `DecisionLaws.NeverCritical` | control-plane/agent_core/decision_engine/severity_classifier.py:22-93 | no combination of findings is CRITICAL |
| `DecisionLaws.SeverityTable` | control-plane/agent_core/decision_engine/severity_classifier.py:32-54 | detection then classification equals the severity table read off the raw observation and settings |
| `DecisionLaws.EvidenceMatchesSeverity` | control-plane/agent_core/decision_engine/decision.py:29-61 | a decision has evidence iff something breached, the evidence breached, and the decision's severity is that of its evidence |
| `DecisionLaws.ConfidenceFall` | control-plane/agent_core/detection/threshold_detector.py:78-83 | of the confidence signal alone: a fall keeps or raises its severity iff the new value is positive or the old one was below no band edge |
| `DecisionLaws.ConfidenceFallOverall` | control-plane/agent_core/detection/threshold_detector.py:38-98 | of overall severity, whatever other detectors add: a fall of confidence lowers nothing iff it stays positive or another signal reaches each band it was in |
| `DecisionLaws.ConfidenceCollapse` | control-plane/agent_core/detection/threshold_detector.py:78 | an input: with the shipped settings a mean confidence of 0.5 is HIGH and of 0 is LOW |
| `DecisionLaws.RateFloorAligned` | control-plane/agent_core/decision_engine/severity_classifier.py:35-36 | the 0.01 emission floor (threshold_detector.py:21-23) suppresses only rates the bands would call LOW iff the configured threshold is not below it |
| `DecisionLaws.LatencyFloorAligned` | control-plane/agent_core/decision_engine/severity_classifier.py:37-38 | the same for the 150 ms floor and the p95 threshold |
| `DecisionLaws.ConfidenceEdgeAligned` | control-plane/agent_core/decision_engine/severity_classifier.py:39-44 | suppressing confidences above the notable edge loses nothing iff that edge, rounded to six decimals from above, lies below neither band edge |
| `DecisionLaws.SeverityMonotone` | control-plane/agent_core/detection/threshold_detector.py:38-98 | for any settings, detection then classification never drops when any signal gets worse (a confidence falling to a positive value) |
| `DecisionLaws.DownIsSevere` | control-plane/agent_core/decision_engine/severity_classifier.py:52-53 | a service that is down is at least MEDIUM, and HIGH from the configured failure count on, whatever else is detected |
| `Retry.LastCall` | control-plane/agent_core/_files/retry.py:26-32 | polling ends at the first success within the budget, or at the last attempt |
| `Retry.LastCallUnique` | control-plane/agent_core/_files/retry.py:26-32 | ... and those two clauses determine where |
| `Retry.TraceTotals` | control-plane/agent_core/_files/retry.py:30-31 | k+1 calls have exactly k waits between them, k delays in all, or 2^k - 1 of them when they double |
| `Retry.PollUntil` | control-plane/agent_core/_files/retry.py:15-32 | the loop makes exactly those calls and waits and returns the last call's result, truthy or falsy, for every number of attempts |
| `Retry.ProbeVerdicts` | control-plane/agent_core/verification/health_check.py:28-45 | without traffic a probe is recovered iff healthy; with traffic a confidence of 0 fails a positive floor; better figures never lose a recovery |
| `Retry.Verify` | control-plane/agent_core/verification/health_check.py:61-74 | the verification loop probes, waits and answers as specified for every outcome sequence |
| `Retry.RecoveredIffSomeProbe` | control-plane/agent_core/verification/health_check.py:61-74 | verification succeeds iff one of the first max(1, verify_retries) probes is recovered |
| `Retry.VerifyRefinesPoll` | control-plane/agent_core/verification/health_check.py:67-74 | the verification loop is the generic poller with "recovered" for truthy: same calls, same waits, same last probe |
| `Retry.Calls` | control-plane/agent_core/_files/retry.py:25-32 | what is never ready is called max(1, attempts) times; what is ready in time is called until it is |
| `Retry.ProbeRecoveredIff` | control-plane/agent_core/verification/health_check.py:28-45 | a probe is recovered iff it was reached healthy and, if it has served requests, its error rate is at most the threshold and its confidence at least the floor |
| `Agent.Execute` | control-plane/agent_core/actions/switch_model.py:23-64 | disable turns serving off and nothing else; same target is skipped; a failed executor changes and sends nothing; a switch records the previous model and sends one call |
| `Agent.Dispatch` | control-plane/agent_core/actions/dispatch.py:15-27 | only a switch moves the model and only a disable stops serving; every other action leaves the runtime alone |
| `Agent.Guard` | control-plane/agent_core/verification/rollback_guard.py:18-46 | nothing on recovery; otherwise always escalates, and rolls back iff there is a previous model other than the active one |
| `Agent.Act` | control-plane/agent_core/_files/agent.py:130-133 | an executed switch starts the cooldown and counts as an attempt; nothing else does |
| `Agent.RunDetectors` | control-plane/agent_core/_files/agent.py:110-112 | every detector is shown the same context; their findings are concatenated in order |
| `Agent.ObserveAndDecide` | control-plane/agent_core/_files/agent.py:76-127 | both counters are updated from this tick, the detectors are shown the new failure count, and the decision, evidence included, is the gated one on their findings; `TickLaws` says from the fields observed what these are |
| `Agent.VerifyAndGuard` | control-plane/agent_core/_files/agent.py:139-147 | after a switch, an unverified one is undone, reported as ROLLBACK and patched as escalated; the no-target branch is not taken |
| `Agent.RunTick` | control-plane/agent_core/_files/agent.py:71-163 | from any state, the tick's effect on the seven counters and flags, its calls in order with their arguments, and its episode; the skipped-switch and no-rollback-target branches are never taken |
| `Agent.Run` | control-plane/agent_core/_files/agent.py:166-190 | the loop adopts a known registry model and then runs the ticks; final state, all calls and all episodes |
| `TickLaws.DetectorsAreShown` | control-plane/agent_core/_files/agent.py:78-112 | the detectors are shown the observed metrics, health, failure rate and low-confidence share, and the failure count this tick brings; a failed observation is shown as unreachable with failure rate 1 |
| `TickLaws.FindingsInOrder` | control-plane/agent_core/_files/agent.py:110-112 | each detector contributes all it finds, in the order of the detectors |
| `TickLaws.SeverityFromFields` | control-plane/agent_core/_files/agent.py:78-118 | with the threshold detector in front a tick is HIGH, or above LOW, iff one of the fields it observed says so, each with its floor and band written out, or the other detectors do |
| `TickLaws.DecidedAs` | control-plane/agent_core/_files/agent.py:98-127 | what a tick decides, from its severity, the counters and the observed backup |
| `TickLaws.LeavesRuntime` | control-plane/agent_core/_files/agent.py:71-150 | all seven fields after a tick that switches nothing, keeps its switch, or undoes it |
| `TickLaws.TroubleAnswered` | control-plane/agent_core/_files/agent.py:78-133 | max(1, confirm_n, cooldown_cycles) ticks in a row that each observe some trouble (failing predictions, errors, slowness, low confidence, an outage that is HIGH at once) contain one that switches, or fails closed if its backup was not observed healthy |
| `TickLaws.HalfFailingSwitches` | control-plane/agent_core/_files/agent.py:88-127 | an input: with the shipped settings, half of the agent's predictions failing and nothing else wrong, the first tick alerts and the second switches |
| `TickLaws.DriftScoreIs` | control-plane/agent_core/_files/agent.py:113-114 | the posted drift score is that of the first aggregate, 0 without one |
| `TickLaws.DriftedCountIs` | control-plane/agent_core/_files/agent.py:115 | the posted count is the number of features reported as drifted |
| `TickLaws.Sends` | control-plane/agent_core/_files/agent.py:129-147 | all calls of a tick, in order, with every argument |
| `TickLaws.PostsItsEvidence` | control-plane/agent_core/_files/agent.py:137 | the posted action, severity and target are the decision's, and the posted severity is that of the posted evidence |
| `TickLaws.EpisodeTells` | control-plane/agent_core/_files/agent.py:152-159 | every field of an episode; the models differ iff the switch was kept, and FAILED is reported iff the executor refused |
| `TickLaws.EpisodesChain` | control-plane/agent_core/_files/agent.py:152-190 | over a run each episode starts on the model the one before ended on, and tells of a change iff that tick's switch was kept |
| `AgentRuns.ConfirmCounter` | control-plane/agent_core/_files/agent.py:119-121 | on every run consecutive_non_low is the length of the longest non-LOW suffix of ticks |
| `AgentRuns.HealthCounter` | control-plane/agent_core/_files/agent.py:94-97 | consecutive_health_failures is the length of the longest unhealthy suffix |
| `AgentRuns.CooldownIsCoolingDown` | control-plane/agent_core/_files/agent.py:131-150 | the cooldown is positive iff fewer than cooldown_cycles ticks have passed since an executed switch |
| `AgentRuns.ActionFromTrace` | control-plane/agent_core/_files/agent.py:117-130 | the agent acts iff the tick is HIGH, ends confirm_n non-LOW ticks and is outside a cooldown; it switches iff then the backup is healthy, else fails closed; it alerts on every other non-LOW tick |
| `AgentRuns.ServingFromTrace` | control-plane/agent_core/actions/switch_model.py:24-30 | serving is off iff some earlier tick fired with an unhealthy backup |
| `AgentRuns.SwitchSpacing` | control-plane/agent_core/_files/agent.py:117-150 | two executed switches are at least cooldown_cycles ticks apart |
| `AgentRuns.RateLimit` | control-plane/agent_core/_files/agent.py:117-150 | any n consecutive ticks hold at most ceil(n / max(1, cooldown_cycles)) executed switches |
| `AgentRuns.SteadySwitches` | control-plane/agent_core/_files/agent.py:117-150 | on a steadily HIGH run a tick switches iff it is the first that can be confirmed or a multiple of max(1, cooldown_cycles) ticks later |
| `AgentLimits.ExactMaximum` | control-plane/agent_core/_files/agent.py:117-150 | n ticks from a fresh start execute at most ceil((n - max(1, confirm_n) + 1) / max(1, cooldown_cycles)) switches, and the slow service makes it exactly that many |
| `AgentLimits.CapHoldsIff` | control-plane/agent_core/_files/agent.py:131-133 | recovery_attempts stays within a cap on every run of n ticks iff that maximum does: nothing else limits the counter |
| `AgentLimits.CapExceeded` | control-plane/agent_core/_files/agent.py:131-133 | an input: with the shipped settings five ticks make two attempts |
| `AgentLimits.NoCapEver` | control-plane/agent_core/_files/agent.py:131-133 | for every setting and every cap some number of ticks takes the counter beyond it |
| `AgentLimits.NoRetryIff` | control-plane/agent_core/verification/rollback_guard.py:3-6 | on every run of n ticks no switch follows one that did not verify, iff n ticks leave room for at most one switch |
| `AgentLimits.RetriesAfterFailure` | control-plane/agent_core/verification/rollback_guard.py:3-6 | an input: with the shipped settings a failed switch on the second tick is followed by another on the fifth |
| `AgentLimits.CooldownKeepsFreeIff` | control-plane/agent_core/_files/agent.py:131-150 | switches are always more than cooldown_cycles apart iff no cooldown is configured |
| `AgentLimits.DisableKeepsFreeIff` | control-plane/agent_core/_files/agent.py:131-150 | after failing closed the next switch is always more than cooldown_cycles ticks away iff no cooldown is configured |
| `AgentLimits.SwitchRightAfterDisable` | control-plane/agent_core/_files/agent.py:131-132 | an input for every setting: a tick fails closed and the next one switches |
| `AgentLimits.AnomaliesNeverAct` | control-plane/agent_core/decision_engine/severity_classifier.py:80-81 | on a run where nothing but anomalies is ever HIGH no tick switches or fails closed, and model and serving stay |
| `AgentRuns.BoundedResponse` | control-plane/agent_core/decision_engine/policy_rules.py:26-35 | any max(1, confirm_n, cooldown_cycles) consecutive HIGH ticks of any run contain one that switches or fails closed |
| `SlowService.BoundIsTight` | control-plane/agent_core/_files/agent.py:117-133 | for every setting the default detectors on a slow service give one HIGH tick fewer in a row without an action |
| `SlowService.AnomaliesSilent` | control-plane/agent_core/detection/registry.py:57-75 | the anomaly detector, fed through its adapter, finds nothing on the slow service at any tick |
| `SlowService.AdapterFeeds` | control-plane/agent_core/detection/registry.py:65-75 | each channel of the anomaly detector gets the metric of its name |
| `AgentRuns.OutageResponse` | control-plane/agent_core/_files/agent.py:94-133 | an outage lasting the largest of 1, failures_to_switch, confirm_n and cooldown_cycles is answered, whatever the other detectors say |
| `AgentRuns.PreviousIsOther` | control-plane/agent_core/_files/agent.py:43-59 | previous_model is empty or the model that is not active |
| `AgentRuns.ActiveByParity` | control-plane/agent_core/_files/agent.py:129-147 | a tick changes the active model iff its switch verified; the active model is the first one flipped by their parity; recovery_attempts counts executed switches |
| `AgentRuns.PatchesNeverRevert` | control-plane/agent_core/_files/agent.py:141-147 | from any state every patch escalates iff it did not recover |
| `Registry.SwitchNeverTwoActive` | control-plane/backend/registry_app/models.py:86-107 | between the statements of the switch there are never two active rows; promoting first would violate the constraint whenever another row is active |
| `Registry.SwitchKeepsConsistent` | control-plane/backend/registry_app/models.py:86-107 | a switch leaves exactly the target active and pointed at, and no row's model or version changes |
| `Registry.ResolveKeepsConsistent` | control-plane/backend/api_common.py:37-57 | ingestion appends at most one row, keeps every old row and the active version, and returns a version of the stripped name |
| `Registry.AutoSelection` | control-plane/backend/registry_app/views.py:45-54 | without a version the newest non-retired one is promoted; 404 iff there is none |
| `Registry.MostRecentIffUsable` | control-plane/backend/registry_app/views.py:39-51 | the most recent version of a model is promoted iff it is not retired |
| `Registry.MostRecentMayBePassedOver` | control-plane/backend/registry_app/views.py:48-51 | an input: the most recent version was rolled back, and an older one is promoted |
| `Registry.PostActiveKeepsConsistent` | control-plane/backend/registry_app/views.py:37-61 | a switch request, rejected or not, keeps the constraints and never empties the serving slot |
| `Registry.RegistryInvariant` | control-plane/backend/registry_app/models.py:60-107 | after any sequence of ingestions and switches: (model, version) pairs unique, at most one active row, exactly the pointer's after the first switch; ingestion never moves it |
| `Registry.StatusInvariant` | control-plane/backend/registry_app/models.py:94-101 | over any such sequence status ACTIVE and the serving flag stay one fact |
| `Registry.SwitchLandsOn` | control-plane/backend/registry_app/views.py:45-58 | switching to a model lands on a given usable version iff no newer version of that model is usable |
| `Registry.SwitchBackMayPromoteNewVersion` | control-plane/backend/registry_app/views.py:48-51 | an input: fail over, ingest a new version, switch back; the new version gets the slot |
| `Registry.RegistryTables.ResolveVersion` | control-plane/backend/api_common.py:37-57 | the tables after get-or-create of the stripped name, and the version it returns |
| `Registry.RegistryTables.SwitchActive` | control-plane/backend/registry_app/models.py:86-107 | demotion, promotion and pointer update, in that order, give the specified tables |
| `Registry.RegistryTables.PostActiveModel` | control-plane/backend/registry_app/views.py:37-61 | the tables and the reply of a switch request, errors included |
| `Registry.StripTrims` | control-plane/backend/api_common.py:45 | stripping removes the white space at both ends, all of it and nothing else |
| `Registry.ResolveNewest` | control-plane/backend/api_common.py:37-57 | ingestion resolves to the newest row it may mean, and only if there is none adds one, a candidate of the named version or "unknown" |
| `Registry.SwitchMovesSlot` | control-plane/backend/registry_app/models.py:86-107 | the promoted row is active and serving, the one that was serving is stable and not, no other row changes |
| `Registry.SwitchToNamed` | control-plane/backend/registry_app/views.py:37-61 | a named version is promoted whatever its status, 404 iff there is none; a request that promotes nothing changes nothing |
| `Incidents.IncidentTables.PostAction` | control-plane/backend/actions_app/views.py:28-45 | the whole store after a post, and the id it returns |
| `Incidents.IncidentTables.PatchAction` | control-plane/backend/actions_app/views.py:57-85 | the whole store after a patch; an unknown id changes nothing |
| `IncidentLaws.PostAttaches` | control-plane/backend/actions_app/views.py:28-45 | every post, a no-op too, attaches to an open incident, opened iff the version has none; no other incident changes; recovery starts iff the action that arrived is a switch, rollback, retraining or disable |
| `IncidentLaws.Vocabularies` | control-plane/backend/actions_app/models.py:91-108 | what each action and outcome is recorded as; no two known actions share a record |
| `IncidentLaws.PostByArrival` | control-plane/backend/actions_app/views.py:16-45 | by the action as it arrives: the whole new record, reversible iff a switch, rollback or disable, and what becomes of its incident; one newly opened by an alert or no-op is OPEN at the posted severity |
| `IncidentLaws.PatchByArrival` | control-plane/backend/actions_app/views.py:57-85 | outcome and execution time of a patched record, the time stamped once and only with an outcome; the verdict and the incident it closes or reopens; nothing else changes |
| `IncidentLaws.ClosedOverTraces` | control-plane/backend/actions_app/models.py:54-76 | closed_at is set iff the incident is terminal, after every sequence of calls |
| `IncidentLaws.StepOneOpen` | control-plane/backend/actions_app/models.py:47-76 | a call keeps at most one open incident per version iff it does not reopen a closed one beside an open one |
| `IncidentLaws.OneOpenOverTraces` | control-plane/backend/actions_app/models.py:47-76 | if REVERT verdicts hit only open incidents, each version has at most one, after every sequence of calls |
| `IncidentLaws.StayClosedIff` | control-plane/backend/actions_app/models.py:42-76 | a call keeps every closed incident closed iff it is not a REVERT of one |
| `IncidentLaws.RevertAfterKeepDuplicates` | control-plane/backend/actions_app/models.py:66-76 | an input on which a REVERT reopens a closed incident and leaves the version two open ones |
| `IncidentLaws.AuditAppendOnly` | control-plane/backend/actions_app/views.py:63-73 | no sequence of calls removes a record, changes what was decided, or moves an execution time once stamped |
| `ControlPlane.BackendApi.PostMetricsView` | control-plane/backend/monitoring_app/views.py:33-38 | ingesting metrics resolves the named version, "unknown" without one, and is rejected without a model name |
| `ControlPlane.BackendApi.PostActionView` | control-plane/backend/actions_app/views.py:28-45 | posting resolves the newest version of the stripped target, "model_a" without one, and returns the new log's id |
| `ControlPlane.BackendApi.Handle` | control-plane/agent_core/clients/django_client.py:82-139 | each of the agent's calls changes registry and trail as specified |
| `ControlPlane.BackendApi.HandleForeign` | control-plane/backend/monitoring_app/views.py:33-38 | a call of another client, through the same views |
| `ControlPlane.MetricsFindTheirVersion` | control-plane/backend/monitoring_app/views.py:33-38 | metrics leave a row of their stripped model and version, "unknown" if none is named; without a model name nothing changes |
| `ControlPlane.ActionsFindTheirVersion` | control-plane/backend/actions_app/views.py:28-35 | an action is filed under the newest version of the model it names, of model_a if it names none |
| `ControlPlane.DeliverActive` | control-plane/backend/registry_app/models.py:86-107 | whatever is lost and whatever others ingest, the registry's model is the last one a delivered call asked for |
| `ControlPlane.TickSets` | control-plane/agent_core/_files/agent.py:129-147 | what a tick makes the registry's model, for every combination of losses |
| `ControlPlane.TickAgreement` | control-plane/agent_core/_files/agent.py:129-147 | wherever it starts from, a tick ends in agreement iff: nothing switched and it started so; or a kept switch arrived or was already made; or an undoing arrived, or neither arrived and it started so |
| `ControlPlane.LastRequestWins` | control-plane/agent_core/_files/agent.py:129-147 | over a whole run with any losses the registry's model is the one the last request that arrived asked for |
| `ControlPlane.RollbackRestoresVersion` | control-plane/agent_core/verification/rollback_guard.py:33-38 | a delivered rollback gives the slot back to the same version iff no newer version of its model is usable at that moment |
| `ControlPlane.InStep` | control-plane/agent_core/_files/agent.py:129-147 | with delivered calls, at every tick boundary of every run the registry's one active version belongs to the agent's active model |
| `ControlPlane.AdoptionAgrees` | control-plane/agent_core/_files/agent.py:173-175 | a freshly started agent agrees with the registry iff the registry has an active model the agent knows |
| `AuditTrail.TrailSafeOnEveryRun` | control-plane/agent_core/_files/agent.py:137-147 | on every run, with any losses, replies and foreign posts: closing times match statuses, at most one open incident per version, verdicts are KEEP or ESCALATE only, nothing closed reopens, and the trail only grows |
| `AuditTrail.SwitchVerdict` | control-plane/agent_core/_files/agent.py:137-147 | if the calls arrive and the reply names the post, a switch ends as SUCCESS with a RESOLVED incident if it recovered, else FAILED with an ESCALATED one |
| `AgentTrail.RecordsTellDecisions` | control-plane/backend/actions_app/views.py:28-45 | where the agent is the only client, whatever is lost, every record a run adds was posted by one of its ticks, and reads SWITCH, ALERT, DISABLE or NO_OP iff that tick decided so, with its severity |
| `AgentTrail.PostsAreRecorded` | control-plane/backend/actions_app/views.py:28-45 | ... and every post that arrives stays on record, as SWITCH iff its tick decided to switch |
| `AgentTrail.PassiveRun` | control-plane/backend/actions_app/views.py:16-45 | a run in which no tick acts leaves no incident RECOVERING: it touches none and those it opens stay OPEN |
| `IncidentCap.AttemptOutcome` | control-plane/backend/actions_app/views.py:75-84 | after its tick the incident of an executed switch is closed iff its verdict arrived |
| `IncidentCap.Filed` | control-plane/backend/actions_app/models.py:47-52 | a switch is filed under the open incident of its version if there is one, never under a closed one or one of another version |
| `IncidentCap.CapIffVerdictsArrive` | control-plane/agent_core/_files/config.py:110 | one attempt per incident, on every run with any losses and foreign posts: it holds iff each executed switch followed by another to the same version has had its verdict delivered |
| `IncidentCap.CapHoldsWhenDelivered` | control-plane/agent_core/_files/config.py:110 | with every verdict delivered each executed switch has an incident of its own, closed by the end of its tick and for good |
| `IncidentCap.VerdictsNeverShare` | control-plane/backend/actions_app/views.py:75-84 | whatever is lost, every verdict closes its incident for good and no two verdicts share one |
| `IncidentCap.CapFailsUnanswered` | control-plane/agent_core/clients/django_client.py:118-131 | an input for every setting: the answers to the posts are lost, and two executed switches share an incident |
| `IncidentCap.SomeSwitchIsJudged` | control-plane/agent_core/_files/agent.py:137-147 | for every setting some run of honest answers has a switch that is recorded and judged |

## Left out

- HTTP, JSON, authentication, throttling, serializers, the dashboard, containers and build jobs: plumbing around the modelled calls.
- The Jenkins executor's internals: `executorOk` is an arbitrary answer. `ControlPlane.InStep` is about the agent's own calls; a
  failed build that has already flipped the registry is outside it.
- Floating point: rounding error, NaN and infinities. Values are exact reals, and `round` is exact half-even rounding.
- `ks_2samp`, `chi2_contingency` (and `_chi2`, which prepares its table): p-values are arbitrary. `np.quantile`, `np.unique`
  and the random draw: edges are arbitrary, strictly increasing and spanning the sample where the builder is concerned. `np.histogram` over a single edge
  counts nothing, so a constant column has an empty list of proportions.
- `Agent.VerifyAndGuard`: covers the state right after an executed switch, the only one in which the tick reaches it; the guard's
  other branches are in `Agent.Guard`.
- `evaluate_concept_drift`: a single comparison that no caller wires in; its severity band is in `Decisions`.
- What follows when a detector raises: the exception ends the agent's loop. `Agent.Run` covers ticks in which none does.
- Wall-clock time, sleeping between ticks, uptime, threads, locks and interruption by the keyboard. `Agent.Run` covers any finite
  number of ticks; an endless run is the union of its prefixes.
- Log and message texts. Only the "sustained" tag, which the classifier reads, is kept.
- `Agent.FromName`: the command line's initial model is one of the two known names; an unknown name would fail on lookup.
- `get_active_model`: the retrying GET is the generic poller with three attempts; its answer is an input of `Agent.Run`.
- The order in which the registry's rows were created is their order by `created_at`; equal instants are not modelled.
- Concurrent database transactions: each call is one step, with the statements of the switch in order inside it.
- `ControlPlane.Foreign`: other clients ingest metrics and post actions between any two calls of the agent; other clients that switch
  or patch are excluded there, and are covered by `Registry.RegistryInvariant` and `IncidentLaws.OneOpenOverTraces`.
- Fields no modelled branch reads: category, root cause, reasons, before and after metrics, build numbers, timestamps of decisions,
  and the metric values posted for display.
- Behaviour described in design documents and not implemented: attempt cap, dry run, rate-limit windows, re-enabling of serving,
  comparison with a baseline in verification, retraining.
