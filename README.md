# Top20Options core, modelled in Dafny

This project models the logic at the centre of the Top20Options repository and
proves properties of that model. The repository has two parts.

**The PolicyEdge weekly pipeline.** It turns policy events into a ranked,
labelled Top-5 table:

- the impact modeler builds one impact record per event;
- the table composer keeps the first five records and ranks them 1..k;
- the options structurer fills a fallback options play in place;
- the evidence verifier stamps a Bayesian posterior and a publish gate;
- the publisher renders the text table.

The calibration metrics (Brier score and expected calibration error) and the
odds form of Bayes' rule are utilities of that pipeline.

**The short-signals kit.** It has two pieces:

- reference formulas: loss given default, the tranche subordination
  waterfall, the composite signal score and the threshold filter over signal
  dictionaries;
- the validation and scoring that the signal-insertion edge function runs
  before it stores a signal.

## How things are modelled

- **Records.** Python dictionaries and parsed JSON objects are
  `map<string, Value>` (`Values.Row`). `Value` is
  null/bool/int/float/string/list/dict.
- **Truthiness and lookup.** Python and JavaScript truthiness are separate
  predicates, because JavaScript counts `[]` and `{}` as true.
  `Values.Field` gives a JavaScript field, standing for `undefined` when the
  key is absent.
- **Numbers.** Floating-point quantities are ideal reals.
- **Rounding and formatting.** `round(x, 4)`, `int(x)` and `format(x, ".1f")`
  are written out exactly (round half to even, truncation toward zero) on
  those reals.
- **Exceptions.** Each exception the code can raise is a `Result` error:
  - `ValueError` for an invalid prior;
  - `TypeError` for `len`, comparison or `format` on the wrong type;
  - `IndexError` for a calibration bucket index out of range.
- **Form of each operation.**
  - Operations that loop, append or mutate are methods with loop invariants.
  - Each method is proved against a specification function or predicate.
  - The options structurer and the threshold filter update an `array<Row>`
    in place, as the source mutates the caller's dictionaries.
  - The pure formulas are functions.
- **Exponential recency decay.** Both composite-score functions take
  `decay`, standing for `exp(-recency_hours / 24)`, as an ordinary
  parameter.

## Model

| member | source | states |
|---|---|---|
| ImpactModeler.ComputeRegImpact | policyedge_top20_report/app/services/impact_modeler.py:1-15 | one record per event, in order (an empty list gives an empty list); each record has exactly the eight keys, signal = headline and agency = agency (both default ""), `inputs_json` the event itself, the four impact fields None and no citations |
| TableComposer.ScoreAndTop5 | policyedge_top20_report/app/services/table_composer.py:1-17 | min(5, n) rows; row i is ranked i+1 (dense, 1-based, in input order) and copies signal/agency (default ""), dollar impact and tradable unit (default None) and citations (default []) from input i; options play and posterior None, publish_as "MonitoringOnly"; the options map does not occur in the contract, so the result cannot depend on it |
| OptionsStructurer.WithOptionsPlay | policyedge_top20_report/app/services/options_structurer.py:4 | a row with a truthy options play is returned unchanged (first writer wins); otherwise the play becomes the fallback template text; the play is truthy afterwards and every other key keeps its value |
| OptionsStructurer.Structured | policyedge_top20_report/app/services/options_structurer.py:3-5 | the pass keeps the number of rows |
| OptionsStructurer.BuildStructuresForRows | policyedge_top20_report/app/services/options_structurer.py:1-5 | updates the caller's array in place, row by row as `Structured` says, and returns the same array; the IV-rank hint defaults to None and has no effect |
| OptionsStructurer.StructuredComplete | policyedge_top20_report/app/services/options_structurer.py:3-4 | after the pass every row has a truthy options play, the same keys plus `options_play`, and all other fields unchanged |
| OptionsStructurer.StructuredKeepsExisting | policyedge_top20_report/app/services/options_structurer.py:4 | a row that already has a truthy play comes out identical |
| OptionsStructurer.StructuredIdempotent | policyedge_top20_report/app/services/options_structurer.py:4 | running the pass twice equals running it once |
| EvidenceVerifier.PublishAs | policyedge_top20_report/app/services/evidence_verifier.py:7 | "Actionable" iff the posterior is at least 0.90, otherwise "MonitoringOnly" |
| EvidenceVerifier.VerifyAndLabel | policyedge_top20_report/app/services/evidence_verifier.py:3-10 | an empty input gives [] whatever the prior; a non-empty input with a prior outside (0,1) fails with the ValueError; otherwise same length and order, each output row is its input row with `posterior` = round(post, 4) and `publish_as` from the unrounded post, all other fields as in the input, and every row gets the same posterior; the prior defaults to 0.55 and the likelihoods to [1.0] |
| EvidenceVerifier.StoredPosteriorClose | policyedge_top20_report/app/services/evidence_verifier.py:8 | the stored posterior is within 0.00005 of the true one and still in [0, 1] |
| EvidenceVerifier.DefaultArgumentsMonitorOnly | policyedge_top20_report/app/services/evidence_verifier.py:3-8 | with the default prior 0.55 and likelihoods [1.0] the posterior is 0.55, stored as 0.55, and the row is MonitoringOnly |
| EvidenceVerifier.GateUsesUnroundedPosterior | policyedge_top20_report/app/services/evidence_verifier.py:7-8 | a posterior of 0.89996 is stored as 0.9 but still labelled MonitoringOnly, because the gate reads the unrounded value |
| EvidenceVerifier.StrongEvidenceStillMonitoring | policyedge_top20_report/app/services/evidence_verifier.py:3-8 | a single ratio of 5 on the default prior gives 55/64, stored as 0.8594, below the gate |
| Bayes.CombinedRatio | policyedge_top20_report/app/utils/bayes.py:6-8 | the product of the floored ratios is strictly positive |
| Bayes.Floored | policyedge_top20_report/app/utils/bayes.py:8 | `max(lr, 1e-6)` is at least 1e-6, is lr when lr reaches the floor and the floor otherwise |
| Bayes.PriorOdds | policyedge_top20_report/app/utils/bayes.py:5 | the odds of a prior in (0,1) are positive |
| Bayes.FromOdds | policyedge_top20_report/app/utils/bayes.py:10 | positive odds give a probability strictly inside (0,1) |
| Bayes.Posterior | policyedge_top20_report/app/utils/bayes.py:5-10 | the posterior lies strictly inside (0,1) |
| Bayes.PosteriorFromLikelihoods | policyedge_top20_report/app/utils/bayes.py:1-10 | ValueError("prior must be in (0,1)") exactly when prior <= 0 or prior >= 1; otherwise the loop's product gives prior_odds·ΠLR / (1 + prior_odds·ΠLR), strictly inside (0,1) |
| Bayes.OddsRoundTrip | policyedge_top20_report/app/utils/bayes.py:5-10 | converting a prior to odds and back returns the prior |
| Bayes.FromOddsStrictlyIncreasing | policyedge_top20_report/app/utils/bayes.py:10 | o/(1+o) is strictly increasing on positive odds |
| Bayes.PosteriorNeutral | policyedge_top20_report/app/utils/bayes.py:5-10 | a combined ratio of 1 leaves the prior unchanged |
| Bayes.AllOnesCombineToOne | policyedge_top20_report/app/utils/bayes.py:6-8 | an empty list, or one of ratios all equal to 1, combines to 1 (so the posterior is the prior) |
| Bayes.ScaleOdds | policyedge_top20_report/app/utils/bayes.py:9-10 | scaling positive odds by a factor above (below) 1 raises (lowers) the probability |
| Bayes.PosteriorDirection | policyedge_top20_report/app/utils/bayes.py:9-10 | a combined ratio above 1 gives posterior > prior, below 1 gives posterior < prior, exactly 1 gives the prior |
| Bayes.CombinedRatioSnoc | policyedge_top20_report/app/utils/bayes.py:7-8 | one more loop step multiplies the product by the floored ratio |
| Bayes.CombinedRatioMoveToEnd | policyedge_top20_report/app/utils/bayes.py:6-8 | moving one ratio to the end of the list keeps the product |
| Bayes.CombinedRatioRemove | policyedge_top20_report/app/utils/bayes.py:6-8 | moving the k-th ratio to the end keeps the product |
| Bayes.CombinedRatioPermutation | policyedge_top20_report/app/utils/bayes.py:6-8 | any two lists with the same multiset of ratios have the same product |
| Bayes.PosteriorOrderIndependent | policyedge_top20_report/app/utils/bayes.py:6-10 | the posterior does not depend on the order of the likelihood list |
| Bayes.FloorApplies | policyedge_top20_report/app/utils/bayes.py:8 | a ratio at or below 1e-6 counts as exactly 1e-6, so the posterior stays above 0 |
| Bayes.DefaultPriorExamples | policyedge_top20_report/app/utils/bayes.py:5-10 | prior 0.55 with [1.0] gives 0.55; with [5.0] it gives 55/64 |
| Calibration.Zip | policyedge_top20_report/app/utils/calibration.py:4 | `zip` pairs the i-th probability with the i-th outcome, as many pairs as the shorter list |
| Calibration.Square | policyedge_top20_report/app/utils/calibration.py:4 | a square is non-negative |
| Calibration.RawIndex | policyedge_top20_report/app/utils/calibration.py:11 | `min(bins - 1, int(p * bins))` is at most both arguments and equal to one of them |
| Calibration.SquaredErrors | policyedge_top20_report/app/utils/calibration.py:4 | the sum of squared errors is non-negative |
| Calibration.Divisor | policyedge_top20_report/app/utils/calibration.py:4 | `max(len, 1)` is at least 1 and at least the length, and equals a non-zero length |
| Calibration.BrierScore | policyedge_top20_report/app/utils/calibration.py:3-4 | the score is non-negative, and 0 for an empty probability list |
| Calibration.SquareBelowOne | policyedge_top20_report/app/utils/calibration.py:4 | a probability in [0, 1] and a 0/1 outcome have squared error at most 1 |
| Calibration.SquaredErrorsAtMostCount | policyedge_top20_report/app/utils/calibration.py:4 | the squared-error sum is at most the number of pairs |
| Calibration.BrierAtMostOne | policyedge_top20_report/app/utils/calibration.py:3-4 | for probabilities in [0, 1] and 0/1 outcomes the Brier score is at most 1 |
| Calibration.PerfectForecastsScoreZero | policyedge_top20_report/app/utils/calibration.py:4 | forecasts equal to their outcomes give squared error 0 |
| Calibration.UnpairedProbabilitiesDilute | policyedge_top20_report/app/utils/calibration.py:4 | the sum runs over the zipped pairs but divides by len(probabilities): [1.0, 1.0] against [0] scores 0.5 |
| Calibration.BucketCount | policyedge_top20_report/app/utils/calibration.py:9 | there are exactly `bins` buckets (none for a negative count) |
| Calibration.BucketIndex | policyedge_top20_report/app/utils/calibration.py:11-12 | `buckets[min(bins-1, int(p*bins))]`, with Python's negative indexing, exists exactly when the raw index is in [-bins, bins), and then names a bucket in range |
| Calibration.Bucketed | policyedge_top20_report/app/utils/calibration.py:9-12 | a successful placement yields exactly `bins` buckets |
| Calibration.BucketedIsFilter | policyedge_top20_report/app/utils/calibration.py:10-12 | placement succeeds iff every pair has a valid index, and then bucket j holds exactly the pairs indexed j, in input order |
| Calibration.TotalSizeAppend | policyedge_top20_report/app/utils/calibration.py:12 | appending to one bucket adds one to the total size |
| Calibration.TotalSizeEmpty | policyedge_top20_report/app/utils/calibration.py:9 | freshly made buckets hold nothing |
| Calibration.BucketSizesSumToPairs | policyedge_top20_report/app/utils/calibration.py:10-12 | every zipped pair lands in exactly one bucket: the sizes add up to the pair count |
| Calibration.IndexInRange | policyedge_top20_report/app/utils/calibration.py:11 | for bins >= 1 and p in [0, 1] the index is in [0, bins-1], and p = 1 lands in the last bucket |
| Calibration.NoBucketsNoIndex | policyedge_top20_report/app/utils/calibration.py:9-12 | with bins <= 0 there is no bucket for any pair (IndexError) |
| Calibration.WeightedAtMost | policyedge_top20_report/app/utils/calibration.py:20 | a gap in [0, 1] weighted by a share weighs between 0 and the share |
| Calibration.Contribution | policyedge_top20_report/app/utils/calibration.py:15-20 | a bucket's contribution (\|b\|/n)·\|avg_p − avg_o\| is non-negative |
| Calibration.EceSum | policyedge_top20_report/app/utils/calibration.py:13-21 | the accumulated ECE is non-negative |
| Calibration.Ece | policyedge_top20_report/app/utils/calibration.py:6-21 | a computed ECE is non-negative, and an empty probability list gives 0.0 |
| Calibration.BucketedErrorPersists | policyedge_top20_report/app/utils/calibration.py:10-12 | once a pair has no bucket, the whole call fails with IndexError |
| Calibration.PlacePairs | policyedge_top20_report/app/utils/calibration.py:9-12 | the bucketing loop produces `Bucketed` (buckets or IndexError) |
| Calibration.SumGaps | policyedge_top20_report/app/utils/calibration.py:13-21 | the summing loop produces `EceSum`, skipping empty buckets |
| Calibration.ExpectedCalibrationError | policyedge_top20_report/app/utils/calibration.py:6-21 | the method computes `Ece` |
| Calibration.BucketSumsBounded | policyedge_top20_report/app/utils/calibration.py:18-19 | the probability and outcome sums of a bucket lie in [0, \|b\|] |
| Calibration.ContributionAtMostShare | policyedge_top20_report/app/utils/calibration.py:18-20 | a bucket contributes at most \|b\|/n |
| Calibration.EceSumAtMostShare | policyedge_top20_report/app/utils/calibration.py:13-21 | the contributions add up to at most (total bucket size)/n |
| Calibration.InBucketFromPairs | policyedge_top20_report/app/utils/calibration.py:10-12 | every pair in a bucket is one of the zipped pairs |
| Calibration.EceAtMostOne | policyedge_top20_report/app/utils/calibration.py:6-21 | for probabilities in [0, 1] and 0/1 outcomes the ECE is at most 1 |
| Numbers.Clamp | short_signals_kit/code/utils/formulas.py:187-189 | `max(lo, min(hi, x))` lies in [lo, hi], is x when x is in range, and is the nearer bound otherwise |
| Numbers.ClampMonotone | short_signals_kit/code/utils/formulas.py:187 | clamping preserves order |
| Numbers.Abs | policyedge_top20_report/app/utils/calibration.py:20 | `abs` is non-negative and is x or −x |
| Numbers.Trunc | policyedge_top20_report/app/utils/calibration.py:11 | `int(x)` truncates toward zero |
| Numbers.RoundHalfEven | policyedge_top20_report/app/services/evidence_verifier.py:8 | rounding to an integer moves the value by at most 1/2 |
| Numbers.Round4 | policyedge_top20_report/app/services/evidence_verifier.py:8 | `round(x, 4)` is within 0.00005 of x |
| Numbers.Round4At | policyedge_top20_report/app/services/evidence_verifier.py:8 | a value strictly within half a unit of k/10000 rounds to k/10000 |
| Numbers.Round4Monotone | policyedge_top20_report/app/services/evidence_verifier.py:8 | four-place rounding preserves order |
| Numbers.Round4UnitInterval | policyedge_top20_report/app/services/evidence_verifier.py:8 | four-place rounding keeps a probability in [0, 1] |
| Numbers.Round4Examples | policyedge_top20_report/app/services/evidence_verifier.py:8 | 0.55 rounds to 0.55, 0.89996 to 0.9 and 55/64 to 0.8594 |
| Numbers.QuotientInUnit | short_signals_kit/code/utils/formulas.py:275-276 | a quotient of a value between 0 and a positive divisor lies in [0, 1] |
| Formulas.BaseLgd | short_signals_kit/code/utils/formulas.py:101-107 | the base LGD lies in [0.25, 0.45] |
| Formulas.LtvAdjustment | short_signals_kit/code/utils/formulas.py:110 | the LTV adjustment is non-negative, 0 for ltv <= 0.8 and (ltv − 0.8)/2 above |
| Formulas.HpiAdjustment | short_signals_kit/code/utils/formulas.py:113 | the HPI adjustment lies in [-0.2, 0.2], and is −hpi/2 for a change within ±0.4 |
| Formulas.StateAdjustment | short_signals_kit/code/utils/formulas.py:116-120 | the state adjustment lies in [-0.05, 0.10] |
| Formulas.LgdBase | short_signals_kit/code/utils/formulas.py:82-124 | the LGD always lies in [0.05, 0.95] |
| Formulas.LgdTables | short_signals_kit/code/utils/formulas.py:101-120 | SFR .25, CONDO .35, COOP .45, MFR .40 and .30 for any other type; −0.05 for CA/NY/MA, +0.10 for NV/FL/AZ and 0 for any other state |
| Formulas.LgdMonotoneInLtv | short_signals_kit/code/utils/formulas.py:110-124 | a higher LTV never lowers the LGD |
| Formulas.LgdAntitoneInHpi | short_signals_kit/code/utils/formulas.py:113-124 | a larger house-price rise never raises the LGD |
| Formulas.LgdExamples | short_signals_kit/code/utils/formulas.py:328-344 | the module's test loan (LTV 0.85, SFR, CA, HPI −20%) has LGD 0.325; the defaults at LTV 0.8 give 0.20 |
| Formulas.PoolLossRate | short_signals_kit/code/utils/formulas.py:267 | the pool loss rate is 0 when the balance is not positive, and losses/balance otherwise |
| Formulas.TrancheLossRate | short_signals_kit/code/utils/formulas.py:270-276 | the tranche loss rate lies in [0, 1]: 0 at or below attachment, 1 at or above detachment, linear in between |
| Formulas.TrancheSubordination | short_signals_kit/code/utils/formulas.py:249-288 | the pool loss rate times a positive balance gives back the pool losses, the tranche loss rate lies in [0, 1], and both points are echoed |
| Formulas.TrancheLossWithinSize | short_signals_kit/code/utils/formulas.py:278-279 | with attachment <= detachment and a non-negative pool, 0 <= tranche_loss <= tranche_size |
| Formulas.TrancheLossRateMonotone | short_signals_kit/code/utils/formulas.py:270-276 | a higher pool loss rate never gives a lower tranche loss rate |
| Formulas.PoolLossRateMonotone | short_signals_kit/code/utils/formulas.py:267 | for a positive pool, more losses never give a smaller pool loss rate |
| Formulas.TrancheLossMonotone | short_signals_kit/code/utils/formulas.py:267-279 | for a positive pool, more pool losses never give a smaller tranche loss |
| Formulas.TrancheExamples | short_signals_kit/code/utils/formulas.py:267-279 | a 10% pool loss wipes out a 5–10% tranche; 7% takes 40% of it (20 of 50) |
| Formulas.RecencyFactor | short_signals_kit/code/utils/formulas.py:192 | the recency factor is at least 0.1, and is the decay itself once that is at least 0.1 |
| Formulas.CompositeScore | short_signals_kit/code/utils/formulas.py:168-201 | the composite score lies in [0, 1]; the model weight defaults to 1.0 |
| Formulas.CompositeWithoutDecay | short_signals_kit/code/utils/formulas.py:187-201 | with a factor of 1 and in-range inputs the score is min(1, 0.4s + 0.4c + 0.2w) |
| Formulas.CompositeMonotoneInStrength | short_signals_kit/code/utils/formulas.py:187-201 | a stronger signal never scores lower, whatever the other inputs and the decay |
| Formulas.CompositeExample | short_signals_kit/code/utils/formulas.py:350 | the module's example call (0.85, 0.80, 1.2) scores 0.9 × the recency factor |
| Formulas.Verdict | short_signals_kit/code/utils/formulas.py:308-314 | the only failure of the test is TypeError (no `len`, or a non-number compared) |
| Formulas.VerdictPasses | short_signals_kit/code/utils/formulas.py:308-314 | a signal passes iff composite >= min (default 0.7), confidence >= threshold (default 0.8) and evidence count >= required (default 2), each a number or a sized value |
| Formulas.MarkedFields | short_signals_kit/code/utils/formulas.py:316-320 | marking sets `threshold_breach` to the verdict, adds `rejection_reason` "Below thresholds" to a rejected signal and leaves every other field as it was |
| Formulas.FirstErrorIs | short_signals_kit/code/utils/formulas.py:307-314 | the first signal that cannot be judged is the one ending a run of signals that can |
| Formulas.FirstError | short_signals_kit/code/utils/formulas.py:307-314 | the index of the first signal that cannot be judged (or the length): every signal before it can be judged, and the one at it cannot |
| Formulas.ValidatedErrorPersists | short_signals_kit/code/utils/formulas.py:307-322 | once a signal cannot be judged the whole call fails |
| Formulas.ValidateSignalThresholds | short_signals_kit/code/utils/formulas.py:291-322 | returns `Validated` of the input; fails exactly when some signal cannot be judged; every signal before the first such one is marked in place, and the rest are untouched |
| Formulas.ValidatedStep | short_signals_kit/code/utils/formulas.py:307-320 | one more signal appends itself, marked, when it passes, nothing when it is rejected, and fails the call when it cannot be judged |
| Formulas.ValidatedAppend | short_signals_kit/code/utils/formulas.py:305-322 | filtering a list in two parts gives the two results in order |
| Formulas.ValidatedOkIff | short_signals_kit/code/utils/formulas.py:307-314 | the call succeeds iff every signal can be judged |
| Formulas.ValidatedExactlyPassing | short_signals_kit/code/utils/formulas.py:305-322 | a successful result holds exactly the passing signals, each marked as a breach |
| Formulas.DefaultThresholds | short_signals_kit/code/utils/formulas.py:312-314 | with no thresholds configured, 0.7/0.8 with two evidence sources passes and with one source does not |
| Formulas.MissingFieldsRejected | short_signals_kit/code/utils/formulas.py:308-314 | a signal with none of the fields is rejected (defaults 0, 0, []), not an error |
| InsertSignal.PushMembers | short_signals_kit/code/edge_functions/insert_signal/index.ts:38-62 | a conditional push adds exactly its message, and only when the condition holds |
| InsertSignal.ValidateSignal | short_signals_kit/code/edge_functions/insert_signal/index.ts:33-69 | the errors and warnings are exactly those of `ErrorsOf`/`WarningsOf`, in check order, and `isValid` holds iff there are no errors |
| InsertSignal.ValidExactly | short_signals_kit/code/edge_functions/insert_signal/index.ts:38-56 | no errors iff model_id, model_name and org_id are truthy, both scores are numbers in [0, 1] and the type is one of the five |
| InsertSignal.ErrorsMembers | short_signals_kit/code/edge_functions/insert_signal/index.ts:37-56 | a message is among the errors iff its check failed |
| InsertSignal.FieldErrors | short_signals_kit/code/edge_functions/insert_signal/index.ts:38-56 | each of the four falsy required fields (model_id, model_name, signal_type, org_id), a signal type outside the allowed list, and each out-of-range or non-numeric score has its own error, and only then |
| InsertSignal.MessagesDistinct | short_signals_kit/code/edge_functions/insert_signal/index.ts:38-55 | the seven error messages are pairwise distinct |
| InsertSignal.ZeroModelIdRefused | short_signals_kit/code/edge_functions/insert_signal/index.ts:38 | a model_id of 0 is refused |
| InsertSignal.MissingTypeTwoErrors | short_signals_kit/code/edge_functions/insert_signal/index.ts:40-56 | a missing type yields both the "required" and the "must be one of" errors |
| InsertSignal.WarningsDoNotAffectValidity | short_signals_kit/code/edge_functions/insert_signal/index.ts:58-66 | changing the symbol or the evidence leaves the errors, hence validity, unchanged |
| InsertSignal.WarningsExactly | short_signals_kit/code/edge_functions/insert_signal/index.ts:58-62 | the symbol warning appears iff the symbol is falsy, the evidence warning iff the evidence is falsy or has no keys, and there are at most two |
| InsertSignal.TypeThreshold | short_signals_kit/code/edge_functions/insert_signal/index.ts:96-104 | the threshold of a signal type lies in [0.65, 0.80], and an unlisted type gets the default 0.75 |
| InsertSignal.EmptyEvidenceWarned | short_signals_kit/code/edge_functions/insert_signal/index.ts:60-62 | an empty evidence array or object still draws the warning |
| InsertSignal.CalculateCompositeScore | short_signals_kit/code/edge_functions/insert_signal/index.ts:71-93 | the score lies in [0, 1] |
| InsertSignal.CallSiteScore | short_signals_kit/code/edge_functions/insert_signal/index.ts:152-157 | with weight 1 and no recency, as the handler calls it, the score is min(1, 0.4s + 0.4c + 0.2) |
| InsertSignal.DetermineThresholdBreach | short_signals_kit/code/edge_functions/insert_signal/index.ts:95-106 | breach iff score >= the type's threshold: TRANCHE_SHORT .75, REG_SHOCK .70, WAREHOUSE_STRESS .80, CYBER_INCIDENT .65, ENFORCEMENT_ACTION .70, and .75 for any other type |
| InsertSignal.ThresholdsCoverAllowedTypes | short_signals_kit/code/edge_functions/insert_signal/index.ts:96-102 | the threshold table has exactly the five allowed types as keys |
| InsertSignal.BreachMonotone | short_signals_kit/code/edge_functions/insert_signal/index.ts:104-105 | a higher score breaches whenever a lower one does |
| InsertSignal.CallSiteBreachExample | short_signals_kit/code/edge_functions/insert_signal/index.ts:152-160 | at the call site 0.7/0.5 scores 0.68 and misses the REG_SHOCK threshold, while 0.7/0.7 breaches it |
| Text.NatText | policyedge_top20_report/app/services/publisher.py:10 | `str(n)` is a non-empty run of digits |
| Text.IntText | policyedge_top20_report/app/services/publisher.py:10 | `str(i)` is non-empty and starts with '-' iff i is negative |
| Text.PadRight | policyedge_top20_report/app/services/publisher.py:10 | `:<w` keeps the text, pads with spaces to width w and never cuts |
| Text.Join | policyedge_top20_report/app/services/publisher.py:12 | `"\n".join` of no lines is empty; otherwise the text starts with the first line, followed by a newline when there is a second |
| Text.OneDecimal | policyedge_top20_report/app/services/publisher.py:7 | `:.1f` gives at least three characters, with a minus sign iff the value is negative |
| Text.SplitJoin | policyedge_top20_report/app/services/publisher.py:12 | joining newline-free lines with "\n" and splitting again gives the lines back |
| Publisher.FormatLeft | policyedge_top20_report/app/services/publisher.py:10 | `format(v, "<w")` fails with TypeError exactly for None, lists and dicts, otherwise is at least w wide, and pads a string |
| Publisher.SignalCell | policyedge_top20_report/app/services/publisher.py:9 | a signal of at most 23 characters is shown unchanged; a longer one is its first 20 characters plus "..." (23 in all); a value with no `len` raises TypeError |
| Publisher.DollarCell | policyedge_top20_report/app/services/publisher.py:7 | "N/A" iff the dollar impact is missing or falsy; a truthy number renders as "~$…B"; a truthy non-number raises TypeError |
| Publisher.TradableCell | policyedge_top20_report/app/services/publisher.py:10 | a missing or None tradable unit shows "N/A" padded to 21; only lists and dicts fail |
| Publisher.TradableCellAsWritten | policyedge_top20_report/app/services/publisher.py:10 | an absent tradable unit shows "N/A" padded to 21; the cell fails exactly when the unit is present and is None, a list or a dict |
| Publisher.RowLineAsWritten | policyedge_top20_report/app/services/publisher.py:7-10 | a row whose tradable unit is present and None fails with TypeError |
| Publisher.RowLine | policyedge_top20_report/app/services/publisher.py:7-10 | a row renders iff its dollar, signal, rank, tradable-unit and options-play cells each format |
| Publisher.LineWith | policyedge_top20_report/app/services/publisher.py:7-10 | a row line starts with "\| " and ends with " \|", and exists iff each of its cells formats |
| Publisher.RowResults | policyedge_top20_report/app/services/publisher.py:6-10 | one line result per row |
| Publisher.Collect | policyedge_top20_report/app/services/publisher.py:6-10 | collected lines are as many as the rows |
| Publisher.CollectInOrder | policyedge_top20_report/app/services/publisher.py:6-10 | collecting succeeds iff every line does, keeps the order, and otherwise reports one of the lines' errors |
| Publisher.RowLines | policyedge_top20_report/app/services/publisher.py:6-10 | one line per row |
| Publisher.RowLinesInOrder | policyedge_top20_report/app/services/publisher.py:6-10 | the row lines exist iff every row renders, and line i is row i's |
| Publisher.TableLines | policyedge_top20_report/app/services/publisher.py:2-11 | the table's lines exist iff every row renders |
| Publisher.RenderTop5Table | policyedge_top20_report/app/services/publisher.py:1-12 | the loop produces the newline-joined table lines, or TypeError when a row cannot be rendered; rows use the corrected tradable-unit cell (see Findings) |
| Publisher.LineErrorIsTypeError | policyedge_top20_report/app/services/publisher.py:7-10 | every failure while rendering a line is a TypeError |
| Publisher.RowErrorFailsTable | policyedge_top20_report/app/services/publisher.py:6-10 | a row that cannot render fails the whole table, with TypeError |
| Publisher.TableShape | policyedge_top20_report/app/services/publisher.py:3-11 | exactly \|rows\| + 4 lines: the fixed border, header and border, the rows' lines in input order, the fixed border |
| Publisher.FrameHasNoNewline | policyedge_top20_report/app/services/publisher.py:3-5 | the border and header each hold no newline |
| Publisher.FramedSplits | policyedge_top20_report/app/services/publisher.py:12 | splitting the joined table at newlines gives back the framed lines when no row line holds a newline |
| Publisher.RenderedSplitsIntoLines | policyedge_top20_report/app/services/publisher.py:2-12 | when every row renders to a single line, the rendered text splits into exactly \|rows\| + 4 lines |
| Publisher.RankCell | policyedge_top20_report/app/services/publisher.py:10 | a missing rank renders as "0    "; an integer rank takes at least five characters |
| Publisher.DollarCellExample | policyedge_top20_report/app/services/publisher.py:7 | 2,500,000,000 renders as "~$2.5B" |
| Publisher.NoneTradableUnitFails | policyedge_top20_report/app/services/publisher.py:10 | a present None tradable unit makes the line fail as written, while the corrected cell shows "N/A" |
| Publisher.CorrectionOnlyAffectsNone | policyedge_top20_report/app/services/publisher.py:10 | for any tradable unit other than None, the corrected line equals the line as written |
| Publisher.RowResultsAsWritten | policyedge_top20_report/app/services/publisher.py:6-10 | one as-written line result per row, the i-th being row i's |
| Publisher.AsWrittenTableFails | policyedge_top20_report/app/services/publisher.py:1-12 | one row with a present None tradable unit makes the whole table, rendered as written (`RenderedAsWritten`), fail with TypeError |

## Left out

- The tripwire evaluator and the dollar-impact finalizer are imported by api/report_generator.py, but their sources are not part of this model.
- The pipeline orchestrator (policyedge_top20_report/app/tasks/orchestrator.py) is not modelled. It only chains the stages above and adds file I/O, `time.time()` and logging.
- The report generator and the HTTP and route wiring are not modelled: api/*.py, app/main.py, app/routers/*.py, scripts/run_local.py, and the edge function's `serve` handler with its Supabase inserts and audit log (index.ts:108-247). They are data loading, templating and network plumbing. Only the handler's call into the score and breach functions (index.ts:152-160) is stated, in `InsertSignal.CallSiteScore` and `InsertSignal.CallSiteBreachExample`.
- vault.py, config.py, logging_config.py and runner/agents/tablecomposer.py are file, environment and logging code.
- `calculate_pd_logistic`, `calculate_expected_loss`, `stress_test_portfolio` and sprt.py rest on `math.exp` and `math.log`, which the reals here do not have.
- Formulas.CompositeScore: the factor `exp(-recency_hours / 24)` is the parameter `decay`, so the Python default of 24 hours (a decay of e⁻¹) has no default here. `InsertSignal.CalculateCompositeScore` keeps the TypeScript default of 0 hours as a decay of 1.
- Floating point is ideal real arithmetic: no IEEE rounding, no NaN and no infinities. `round(x, 4)` and `:.1f` round half to even on the exact real, not on the binary double.
- Publisher.SignalCell: a dict signal longer than 23 keys is sliced with `[:20]`, which raises TypeError as in Python up to 3.11; from Python 3.12 on a dict slice raises KeyError instead. The model keeps TypeError.
- Publisher.FormatLeft: `str()` of floats, lists and dicts is the parameter `show`, not a model of Python's float repr. The integer and fixed-point texts are written out.
- Aliasing between dictionaries is not modelled. Rows are values, so the copy `dict(row)` in the evidence verifier and the shared `inputs_json` reference in the impact modeler are the same thing here. The array methods update the caller's rows in place, but cannot show later mutation through another alias.
- InsertSignal.DetermineThresholdBreach: keys inherited from JavaScript's object prototype (such as "constructor") are treated as unlisted types. In JavaScript they would look up a function and compare as false.
- InsertSignal.ValidateSignal: JSON numbers are integers or reals, so NaN cannot occur. String lengths for `Object.keys` count characters, not UTF-16 code units.

## Findings

| source | as written | input that shows it | evidently intended | confidence | as-written member | corrected member |
|---|---|---|---|---|---|---|
| policyedge_top20_report/app/services/publisher.py:10 | `r.get('tradable_unit','N/A'):<21` applies the "N/A" default only when the key is absent; a present None reaches `format(None, "<21")`, which raises TypeError | any row with `tradable_unit` set to None: the impact modeler always sets None (impact_modeler.py:9) and the composer passes the value through (table_composer.py:11), so a row fails unless the finalizer, which is not part of this model, fills the unit; the orchestrator as shipped (orchestrator.py:22-33) starts from no events and renders an empty list, which does not fail | a missing or None tradable unit shows "N/A", as the dollar-impact column does | not executed | Publisher.TradableCellAsWritten, Publisher.NoneTradableUnitFails, Publisher.AsWrittenTableFails | Publisher.TradableCell, Publisher.CorrectionOnlyAffectsNone |
