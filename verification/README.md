# Exact inference in a two-state hidden Markov model

This project models `ozturk-volkan.py` in Dafny: an exact-inference engine for a hidden Markov model with two states and a binary observation. State 0 is "rain" and state 1 is "no rain". The symbol `"T"` is "umbrella seen". Every other symbol counts as "not seen".

The model covers:
- the model class, with its sensor lookup, normalisation and unnormalised forward and backward steps;
- the four algorithms built on that class: filtering, likelihood, forward-backward smoothing and Viterbi decoding.

## How the source is represented

- **Modules.** The modules follow the source:
  - `HmmModel`: the class and its four methods;
  - `HmmLikelihood`, `HmmFiltering`, `HmmSmoothing` and `HmmViterbi`: one module per algorithm;
  - `Results` and `PyList`: the failure modes and Python's list indexing;
  - `HmmCorrected`: the intended behaviour where the code departs from it (see "## Findings").
- **Numbers.** Probabilities are Dafny `real`s, so arithmetic is exact.
- **Failures.** A division by a zero sum in `normalize` raises `ZeroDivisionError`, and an out-of-range list index raises `IndexError`. Both are returned as `Err` values of a `Result`. `HmmModel.Normalize` itself requires a non-zero sum; every caller checks the sum first and returns `ZeroDivision` when it is zero. `HmmViterbi.FirstRow` likewise requires a first symbol with mass, and `HmmViterbi.Viterbi` returns the error values before calling it.
- **Negative indices.** Python's negative indexing is written out:
  - `PyList.ValidIndex` says which indices a list accepts;
  - `PyList.Resolve` maps an index to a position.

  The last iteration of the smoothing sweep writes `sv[-1]` and reads `ev[-1]`; both are modelled this way.
- **Tables.** The tables are a general `HiddenMarkovModel` datatype.
  - `Build` constructs one the way lines 154-156 do.
  - `WellFormed` captures what every built model has: complementary columns and a prior summing to 1.
  - `InRange` says every entry lies in [0, 1].

  Contracts that need these conditions carry them as hypotheses (`WellFormed(h) ==> ...`). They are not preconditions, so every operation stays defined on every table, as the Python is.

Points where the code's behaviour is easy to misread:
- **Viterbi ties.** The strict `<` at lines 119 and 123 sends a tie to state 0, both in the backtrack table and for the final state. `HmmViterbi.ArgMax` does the same.
- **Backward step.** Lines 50-52 combine with `transition[j][i]`, the same orientation as `forward`. The backward recursion of forward-backward smoothing combines with the transpose, `transition[i][j]`. `HmmModel.Backward` is the code's version; `HmmCorrected.BackwardTransposed` is the transposed one (see "## Findings").
- **Smoothing at k = t.** The program's own comment at line 78 says k is a time point between 1 and t. For k = t the code returns the slot written last, which holds time 0 (see "## Findings").
- **Likelihood.** Under the classic umbrella model (prior 0.5, transition 0.7 / 0.3, emission 0.9 / 0.2), two umbrella days have likelihood 0.3515 (`HmmLikelihood.UmbrellaLikelihood`).

## Model

| member | source | states |
|---|---|---|
| PyList.Resolve | ozturk-volkan.py:94-97 | A valid index, negative ones included, names a position inside the list: k itself when k is non-negative, n + k otherwise |
| PyList.Get | ozturk-volkan.py:97 | Reading `s[k]` succeeds exactly when -n <= k < n and then yields the element at the resolved position; otherwise it is an index error |
| PyList.Repeat | ozturk-volkan.py:82-84 | `[x] * n` has n entries, each equal to x |
| HmmModel.Build | ozturk-volkan.py:154-156 | A model built from five scalars has complementary columns and a prior summing to 1, holds the five inputs at their places, and has all entries in [0, 1] exactly when the five inputs are |
| HmmModel.BuildCoversWellFormed | ozturk-volkan.py:154-156 | Conversely, every well-formed model is the one built from its five free entries |
| HmmModel.Sensor | ozturk-volkan.py:23-27 | `"T"` selects emission row 0 and every other symbol row 1; in a well-formed model the entry for state k is P(umbrella given k) or its complement; the result is a probability vector when the table is |
| HmmModel.Normalize | ozturk-volkan.py:29-31 | With a non-zero sum, the result sums to 1, and a non-negative input gives components in [0, 1] |
| HmmModel.NormalizeRescales | ozturk-volkan.py:29-31 | Normalisation only rescales: the normalised vector times the original mass is the original vector |
| HmmModel.NormalizeScaleInvariant | ozturk-volkan.py:29-31 | Normalisation ignores any non-zero scale factor on its input |
| HmmModel.NormalizeFixesDistributions | ozturk-volkan.py:29-31 | A vector that already sums to 1 is unchanged |
| HmmModel.Predict | ozturk-volkan.py:34-37 | The prediction through complementary transition columns keeps the total mass of the message, and non-negative inputs give non-negative outputs |
| HmmModel.Forward | ozturk-volkan.py:33-42 | The forward message is non-negative for non-negative inputs, and in a well-formed model its mass is at most the input's mass |
| HmmModel.ForwardScales | ozturk-volkan.py:33-42 | The forward step is linear: scaling the input message scales the output by the same factor |
| HmmModel.Backward | ozturk-volkan.py:44-53 | The backward step is the forward orientation's prediction applied to the sensor-weighted message, so it combines with `transition[j][i]`; it keeps non-negativity, and in a well-formed model keeps the weighted mass |
| HmmLikelihood.ForwardFold | ozturk-volkan.py:67-75 | Folding the unnormalised forward step over the rest of the evidence returns the start at the end and stays non-negative |
| HmmLikelihood.LikelihoodFrom | ozturk-volkan.py:67-75 | The recursion returns the message's sum at the end; with probability tables it is non-negative and, in a well-formed model, at most the starting mass |
| HmmLikelihood.Likelihood | ozturk-volkan.py:67-75 | On empty evidence the likelihood is the prior's sum, 1 for a well-formed model; with probability tables it lies in [0, 1] |
| HmmLikelihood.LikelihoodIsFoldMass | ozturk-volkan.py:67-75 | The likelihood recursion equals the total mass of the forward fold |
| HmmLikelihood.ForwardFoldScales | ozturk-volkan.py:74 | The fold is linear in its starting message |
| HmmLikelihood.ForwardFoldSnoc | ozturk-volkan.py:74 | One more symbol costs exactly one more forward step at the end |
| HmmLikelihood.UmbrellaIsBuilt | ozturk-volkan.py:154-156 | The classic umbrella tables are those built from the inputs 0.5 0.7 0.3 0.9 0.2 |
| HmmLikelihood.UmbrellaLikelihood | ozturk-volkan.py:67-75 | Two umbrella days under the classic model have probability 0.3515 |
| HmmFiltering.FilterFrom | ozturk-volkan.py:56-64 | At the end the belief is returned unchanged; a failure is always a zero division; a successful step yields a distribution, of probabilities when the tables are |
| HmmFiltering.Filtering | ozturk-volkan.py:56-64 | Empty evidence returns the prior; otherwise a success sums to 1 and is a probability vector for probability tables; failures are zero divisions |
| HmmFiltering.FilteringLoop | ozturk-volkan.py:56-64 | The recursion run as a loop over the evidence gives the same result |
| HmmFiltering.FilterIsNormalizedFold | ozturk-volkan.py:56-75 | Normalising at every step equals normalising once at the end: a successful filter is the normalised unnormalised forward fold |
| HmmFiltering.FilterSucceedsIffMass | ozturk-volkan.py:56-64 | With probability tables, filtering fails exactly when the forward fold has lost all its mass |
| HmmFiltering.FilteringAgreesWithLikelihood | ozturk-volkan.py:56-75 | Filtering succeeds exactly when the likelihood is non-zero, and then it is the forward fold divided by the likelihood |
| HmmFiltering.UmbrellaFiltering | ozturk-volkan.py:56-64 | Two umbrella days under the classic model leave belief 621/703 in rain |
| HmmSmoothing.ForwardMessages | ozturk-volkan.py:82-89 | The forward list has t + 1 entries: the prior first, then each entry the forward step of the one before with the matching symbol |
| HmmSmoothing.LastForwardMessageIsFold | ozturk-volkan.py:86-89 | The last forward entry is the forward fold of all the evidence, the message the likelihood sums |
| HmmSmoothing.BackwardFrom | ozturk-volkan.py:83-95 | The backward message of the sweep is all ones at position t and non-negative for probability tables |
| HmmSmoothing.Combined | ozturk-volkan.py:91-93 | The vector normalised at position i, `fv[i] * b` component-wise, is non-negative for probability tables |
| HmmSmoothing.CombinedAtEndIsFold | ozturk-volkan.py:82-94 | At position t the backward message is all ones, so the combination is the forward fold of all the evidence and its mass is the likelihood |
| HmmSmoothing.WriterOf | ozturk-volkan.py:90-95 | Each slot of the result list is written by exactly one position: slot i - 1 by position i, and the last slot by position 0 through index -1 |
| HmmSmoothing.SmoothedAt | ozturk-volkan.py:79-97 | A successful answer needs non-empty evidence and a valid index, sums to 1, and is a probability vector for probability tables |
| HmmSmoothing.ForwardSweep | ozturk-volkan.py:82-89 | The source's first loop fills in exactly the forward list |
| HmmSmoothing.BackwardSweep | ozturk-volkan.py:90-95 | The second loop succeeds exactly when no combination is massless and the evidence is non-empty; its failure says which; on success, the slot written at position n holds the normalised combination of `fv[n]` and the backward message there |
| HmmSmoothing.Smoothing | ozturk-volkan.py:79-97 | Both sweeps followed by `sv[k]` give the answer `SmoothedAt` describes, error cases included |
| HmmSmoothing.SmoothingBeforeLastIsFiltering | ozturk-volkan.py:56-97 | Index t - 1 holds the combination at position t, which carries no backward evidence, so it is the filtered belief |
| HmmSmoothing.SmoothingLastIndexWraps | ozturk-volkan.py:94-97 | Index t is index -1: both read the prior weighted by the backward message of all the evidence |
| HmmCorrected.BackwardTransposed | ozturk-volkan.py:44-53 | The intended backward step, through the transposed table, keeps non-negativity |
| HmmCorrected.ForwardBackwardAdjoint | ozturk-volkan.py:33-53 | The transposed step is the adjoint of the forward step: pairing messages gives the same mass on either side of a time step |
| HmmCorrected.BackwardAgreesWhenSymmetric | ozturk-volkan.py:44-53 | With a symmetric transition table the source's backward step equals the transposed one |
| HmmCorrected.BackwardTransposedFrom | ozturk-volkan.py:83-95 | The corrected backward sweep is all ones at the end and non-negative for probability tables |
| HmmCorrected.ForwardBackwardConsistency | ozturk-volkan.py:79-97 | At every time the forward message paired with the corrected backward message has the likelihood as its mass |
| HmmCorrected.SmoothedCorrected | ozturk-volkan.py:79-97 | The intended smoothing answers only 1 <= k <= t, and a success is a distribution |
| HmmCorrected.SmoothedCorrectedSucceedsIffPossible | ozturk-volkan.py:79-97 | For every k in range, corrected smoothing succeeds exactly when the evidence has non-zero likelihood |
| HmmCorrected.SmoothedCorrectedAtEndIsFiltering | ozturk-volkan.py:56-97 | Corrected smoothing at k = t is filtering |
| HmmCorrected.SkewedIsBuilt | ozturk-volkan.py:154-156 | The asymmetric example tables are those built from the inputs 0.5 0.9 0.5 0.9 0.2 |
| HmmCorrected.AsWrittenBackwardBreaksConsistency | ozturk-volkan.py:44-53 | On one umbrella day with an asymmetric table, the source's backward message pairs with the prior to 0.55, where the likelihood and the transposed message give 0.69 |
| HmmCorrected.AsWrittenSlotZero | ozturk-volkan.py:79-97 | On two umbrella days with the asymmetric table, the source's query k = 0 returns 5733/5847 for rain |
| HmmCorrected.CorrectedTimeOne | ozturk-volkan.py:79-97 | The belief at time 1 of those two days is 5229/5559 for rain |
| HmmCorrected.AsWrittenSmoothingMisweighs | ozturk-volkan.py:44-97 | The source's answer for time 1 of those two days differs from the smoothed belief at time 1 |
| HmmCorrected.AsWrittenSlotOne | ozturk-volkan.py:94-97 | On one umbrella day under the classic model, query k = t = 1 returns 69/110 for rain, the belief at time 0 |
| HmmCorrected.UmbrellaOneDayFiltering | ozturk-volkan.py:56-64 | One umbrella day under the classic model filters to 9/11 for rain |
| HmmCorrected.AsWrittenLastIndexIsTimeZero | ozturk-volkan.py:94-97 | The source's answer to k = t on that day is 69/110, not the filtered 9/11 that corrected smoothing returns there |
| HmmViterbi.MaxOf | ozturk-volkan.py:116-117 | `max` of a pair is at least both components and equals one of them |
| HmmViterbi.ArgMax | ozturk-volkan.py:119-123 | `int(v[0] < v[1])` indexes a largest component and picks state 0 on a tie |
| HmmViterbi.Candidates | ozturk-volkan.py:108-113 | `temp1`/`temp2`: for probability tables and a non-negative previous row, the candidates are non-negative and carry at most that row's mass |
| HmmViterbi.CandidatesSplitRow | ozturk-volkan.py:108-113 | With complementary transition columns, `temp1` and `temp2` together share out the previous row's mass exactly |
| HmmViterbi.ViterbiStep | ozturk-volkan.py:108-118 | A new trellis row is non-negative for probability tables and, in a well-formed model, never carries more mass than the row before |
| HmmViterbi.BacktrackRow | ozturk-volkan.py:119 | Each recorded predecessor is one whose candidate equals the best candidate, and it is state 0 when the two candidates tie |
| HmmViterbi.Sensors | ozturk-volkan.py:115 | One sensor vector per symbol, in order, non-negative for probability tables |
| HmmViterbi.FirstRow | ozturk-volkan.py:104 | The first trellis row is a distribution, of probabilities for probability tables |
| HmmViterbi.Trellis | ozturk-volkan.py:107-118 | The first n trellis rows: n of them, starting from the first row |
| HmmViterbi.Backtrack | ozturk-volkan.py:105-119 | The table has one row per trellis row but the last; row i records the predecessors chosen when forming row i + 1 |
| HmmViterbi.PointerRows | ozturk-volkan.py:119 | One pointer row per trellis row, each the predecessor choice for both target states |
| HmmViterbi.Reconstruct | ozturk-volkan.py:121-128 | Reading back from the last state yields t states ending in it, each earlier state being the recorded predecessor of the one after it |
| HmmViterbi.AsPath | ozturk-volkan.py:121-126 | The path has one entry per state, true exactly for state 0 |
| HmmViterbi.DecodedStates | ozturk-volkan.py:121-128 | The decoded sequence ends in the best final state, ties to state 0, and follows the table |
| HmmViterbi.TrellisOf | ozturk-volkan.py:103-118 | The trellis has one row per symbol, starting with the normalised first forward message |
| HmmViterbi.Viterbi | ozturk-volkan.py:100-130 | Succeeds exactly when there is a first symbol whose forward message has mass; empty evidence is an index error and a massless first message a zero division; path and trellis have t entries; the first row sums to 1; the last path entry is true exactly when the last row's state-0 score is at least its state-1 score; each earlier entry is read through the table from the next; in a well-formed model with probability tables every trellis row has a mass between 0 and 1 |
| HmmViterbi.BuildTrellis | ozturk-volkan.py:103-119 | The source's first loop builds exactly the trellis and its backtrack table |
| HmmViterbi.WalkBack | ozturk-volkan.py:121-128 | The source's second loop writes the path of the state sequence read back from the given last state |
| HmmViterbi.ViterbiLoop | ozturk-volkan.py:100-130 | The source's procedure, loops and error cases included, returns what `Viterbi` describes |
| HmmViterbi.ViterbiStates | ozturk-volkan.py:121-128 | The decoded sequence has one state per symbol |
| HmmViterbi.ViterbiStepAt | ozturk-volkan.py:108-118 | Each new trellis entry is the best candidate score times the sensor entry |
| HmmViterbi.CandidateAt | ozturk-volkan.py:108-113 | Candidate p for target j is the previous score of p times the move from p to j |
| HmmViterbi.StepBoundsExtension | ozturk-volkan.py:108-118 | Extending any score bounded by the previous row through one step stays below the new row |
| HmmViterbi.StepAttainsEntry | ozturk-volkan.py:108-119 | Extending the previous entry of the recorded predecessor attains the new entry exactly |
| HmmViterbi.TrellisExtends | ozturk-volkan.py:107-118 | Building more rows leaves the earlier rows unchanged |
| HmmViterbi.TrellisRowStep | ozturk-volkan.py:107-118 | Every row after the first is one Viterbi step from the row before |
| HmmViterbi.TrellisRecurrence | ozturk-volkan.py:107-118 | In the trellis of the evidence, row i is the Viterbi step of row i - 1 with the sensor of symbol i |
| HmmViterbi.TrellisMassBelowFirst | ozturk-volkan.py:107-118 | For probability tables, a well-formed model and a non-negative first row, no trellis row is negative or heavier than the first |
| HmmViterbi.TrellisOfMass | ozturk-volkan.py:103-118 | Every row of the trellis of the evidence has a mass between 0 and 1 in a well-formed model with probability tables |
| HmmViterbi.BoundedRowsBoundEveryPath | ozturk-volkan.py:107-118 | Along any state sequence, the score of its first m + 1 steps is at most the trellis entry of its state at time m |
| HmmViterbi.AttainedRowsAttainFollowers | ozturk-volkan.py:107-128 | A state sequence that follows the table scores exactly the trellis entry of its state at time m |
| HmmViterbi.DecodedPathIsMostLikely | ozturk-volkan.py:100-130 | The decoded sequence scores the largest final trellis entry, and no state sequence scores more |
| HmmViterbi.ViterbiPathIsMostLikely | ozturk-volkan.py:100-130 | The returned path is the decoded sequence, it scores the larger final entry, and no other state sequence explains the evidence better |
| HmmViterbi.ViterbiFirstRowIsFiltering | ozturk-volkan.py:56-64 | On one symbol Viterbi succeeds exactly when filtering does, and its only trellis row is the filtered belief |

## Left out

- `round_two_decimals` (lines 4-9) is not modelled. Rounding floats to two decimals has no meaning over exact reals. `Viterbi` therefore returns the trellis unrounded (line 130 rounds it for display).
- Reading and scanning the input line (lines 140-151) is not modelled: it is input handling.
- Query dispatch and printing (lines 157 onward) is not modelled: it is output.
- Floating-point behaviour is not modelled because the model uses exact `real` arithmetic. This covers rounding and underflow of long Viterbi products. A zero divisor is the `ZeroDivision` error, as Python's float `/` raises.
- Underflow in smoothing is not modelled. On long evidence `fv[i]` underflows to 0.0 in floating point, so the combination normalised at line 94 has sum 0 and raises `ZeroDivisionError`. In exact reals nothing underflows, so `HmmSmoothing.SmoothedAt` fails only when a combination is exactly zero.
- Recursion depth is not modelled. `filtering` and `likelihood` (lines 56-75) recurse once per symbol, so with CPython's default limit of 1000 frames about a thousand symbols raise `RecursionError`. `HmmFiltering.FilterFrom` and `HmmLikelihood.LikelihoodFrom` return a value for evidence of any length.
- Parsing the five scalars into floats (lines 154-156) is modelled only through `Build`, which takes them as reals.
- HmmViterbi.ViterbiPathIsMostLikely: scores are measured from the normalised first row (`PathScore`), not from the prior. This matches what the trellis holds. It differs from the joint probability by the constant factor of the first normalisation.
- HmmModel.Forward: the contract gives non-negativity and a mass bound, not the component formula. The formula is stated through `HmmModel.ForwardScales` and `HmmCorrected.ForwardBackwardAdjoint`.

## Findings

| source | as written | input that shows it | evidently intended | confidence | as-written member | corrected member |
|---|---|---|---|---|---|---|
| ozturk-volkan.py:50-52 | the backward step combines with `transition[j][i]`, the forward orientation | prior 0.5, transition 0.9 / 0.5, emission 0.9 / 0.2, evidence `[T]`: the prior paired with the backward message gives 0.55, but the likelihood is 0.69; on `[T, T]`, time 1 reads 5733/5847 instead of 5229/5559 | combine with `transition[i][j]`, the transpose, so that every time step pairs forward and backward messages to the likelihood | not executed | HmmCorrected.AsWrittenBackwardBreaksConsistency, HmmCorrected.AsWrittenSmoothingMisweighs | HmmCorrected.BackwardTransposed, HmmCorrected.ForwardBackwardConsistency, HmmCorrected.SmoothedCorrected |
| ozturk-volkan.py:94-97 | the combination at position i goes to slot `i - 1`, yet query k reads slot `k`; for k = t that is the slot written last, through index -1, which holds time 0 | classic umbrella model (0.5 0.7 0.3 0.9 0.2), evidence `[T]`, k = 1: returns 69/110 for rain, the belief at time 0, where the filtered belief at time 1 is 9/11 | return the belief at time k, so that k = t is filtering | not executed | HmmCorrected.AsWrittenLastIndexIsTimeZero | HmmCorrected.SmoothedCorrected, HmmCorrected.SmoothedCorrectedAtEndIsFiltering |
