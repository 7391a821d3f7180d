# Random walks, Brownian paths and their histograms

This project models the computational core of three browser scripts. Each
script simulates random processes and draws them with Chart.js.

- `renderer7.js` simulates a weekly score walk. Each of n weeks is secure with
  probability q = (1 − p)^m, and a secure week scores +1 while any other week
  scores −1. The script runs 5000 walks and bins their final scores. It then
  overlays the binomial expectation, computed by a multiplicative `binomPMF`
  loop.
- `renderer.js` covers cumulative-success walks of n Bernoulli(p) trials:
  - `simulateSingle` draws one walk;
  - `allTrajectories` enumerates all 2^n walks from the bits of their index;
  - `plotAll` refuses n > 20 and, above 5000 walks, plots a random sample of
    distinct indices;
  - the plot buttons append `{n, freq}` records to a sorted `histData`;
  - `currentN`, `currentP` and `histData` form a small state machine driven by
    the input listeners and the three buttons.
- `renderer11.js` simulates arithmetic Brownian motion
  `dX = mu dt + sigma dW` over N steps. It runs 5000 paths and puts their
  final values into a 40-bin equal-width histogram over the padded range.

`Math.random()` is an explicit sequence of draws, so every generator is a
function of its draws. Box–Muller normal draws are a sequence `z`, and
`Math.sqrt(dt)` is a given number `sqrtDt`. JavaScript numbers that may be NaN
or infinite are a `JsNumber` datatype, with `||`, `Math.max`, `Math.floor`,
`Math.abs`, `<`, `>=`, `===` and `/` written out for them. Finite numbers are
exact reals.

The modules are:

- `JsNumbers` (`js_numbers.dfy`): JavaScript number values and the operations
  the scripts use on them.
- `Walks` (`walks.dfy`): running sums (`cum.push(s)` after `s += step`), which
  both discrete scripts use.
- `Combinatorics` (`combinatorics.dfy`): reference definitions. Binomial
  coefficients follow Pascal's rule, and powers have natural exponents. The
  module proves the absorption identity and the binomial theorem.
- `SignedWalk` (`signed_walk.dfy`): `renderer7.js`.
- `BernoulliWalks` (`bernoulli_walks.dfy`): the trajectory side of
  `renderer.js`.
- `FrequencyHistogram` (`frequency_histogram.dfy`): the histogram side of
  `renderer.js` and its page state. This is the class `HistogramPage`, whose
  methods follow the pure transitions `BeforePlot`, `AddColumn`, `Click`,
  `Clear`, `NInput` and `PInput`.
- `Brownian` (`brownian.dfy`): `renderer11.js`.

Loops in the source are methods with loops here. Each is proved equal to a
specification function, and lemmas prove the properties of those functions.
In-place array updates (`bins[idx] += 1`, `theory[idx] = ...`,
`bins[binIdx]++`) are Dafny arrays.

## Model

| member | source | states |
|---|---|---|
| JsNumbers.Max | renderer7.js:148 | `Math.max(a, b)` is NaN exactly when an argument is NaN; otherwise it is one of the arguments and not less than either |
| JsNumbers.Floor | renderer11.js:225 | `Math.floor` of a finite number is the integer r with r <= x < r + 1; NaN and the infinities are returned unchanged |
| JsNumbers.Abs | renderer11.js:166 | `Math.abs` is finite exactly for finite input, non-negative, and maps both infinities to +Infinity and NaN to NaN |
| JsNumbers.Add | renderer.js:134 | `a + b` is the real sum for finite operands and NaN when either operand is NaN |
| JsNumbers.Divide | renderer11.js:225 | `a / b` is the real quotient for a non-zero b; for a zero b it is NaN exactly when a is 0 |
| JsNumbers.DivByCount | renderer.js:134 | division by an array length divides a finite sum and leaves NaN and the infinities unchanged |
| JsNumbers.Or | renderer11.js:166-169 | `a \|\| b` on numbers: a when it is truthy (neither 0 nor NaN), b otherwise. Its use for the defaults is stated by Brownian.PositiveOr and Brownian.ValidateInputs |
| JsNumbers.Less | renderer.js:50 | `a < b` on numbers: false whenever either side is NaN, with −Infinity below and +Infinity above every finite value. What it gives for the trials is stated by BernoulliWalks.NoSuccessBelowZero and AllSuccessAboveOne |
| JsNumbers.StrictEquals | renderer.js:199 | `a === b`: NaN equals nothing, itself included. Its effect on the handlers is stated by FrequencyHistogram.NaNPAlwaysResets |
| JsNumbers.AtLeast | renderer11.js:227 | `a >= b`: false whenever either side is NaN. The clamp it guards is stated by Brownian.BinIndex |
| Walks.Cumulative | renderer7.js:36-43 | the running sums of the steps have one more entry than the steps, start at 0 and end at their sum |
| Walks.RealCumulative | renderer11.js:49-60 | the same for real steps: length N + 1, first entry 0.0, last entry the sum |
| Walks.CumulativeStep | renderer7.js:38-42 | consecutive entries of a running-sum walk differ by exactly the step taken between them |
| Walks.CumulativeInjective | renderer.js:63-64 | two walks are equal only if their steps are equal |
| Walks.NonNegativeStepsNonDecreasing | renderer.js:49-51 | a walk whose steps are never negative never decreases |
| Walks.ZeroOneSumBounds | renderer.js:127 | a sum of 0/1 outcomes lies between 0 and the number of outcomes |
| Combinatorics.Absorption | renderer7.js:61-63 | k C(n, k) = n C(n − 1, k − 1), the identity that makes every division of the coefficient loop exact |
| Combinatorics.CoefficientStep | renderer7.js:62 | one multiplication and division of the loop turns C(m − 1, i − 1) into C(m, i) |
| Combinatorics.PowerUnitInterval | renderer7.js:32 | `Math.pow(x, e)` stays in [0, 1] for x in [0, 1] |
| Combinatorics.BinomialTheorem | renderer7.js:64 | the n + 1 terms C(n, k) a^k b^(n − k) add up to (a + b)^n |
| Combinatorics.BinomialProbabilitiesSumToOne | renderer7.js:190-196 | for any q the binomial probabilities C(n, k) q^k (1 − q)^(n − k) add up to 1 |
| SignedWalk.Clamp01 | renderer7.js:24 | `clamp01(x)` lies in [0, 1], returns x unchanged inside [0, 1], 0 below it and 1 above it |
| SignedWalk.WeeklySecureProb | renderer7.js:31-33 | q = (1 − p)^m for a natural m. WeeklySecureProbIsProbability and WeeklySecureProbNonIncreasing state its range and monotonicity |
| SignedWalk.WeeklySecureProbIsProbability | renderer7.js:31-33 | for p in [0, 1], q = (1 − p)^m lies in [0, 1] |
| SignedWalk.WeeklySecureProbNonIncreasing | renderer7.js:31-33 | for p in [0, 1], a longer week (larger m) never raises q |
| SignedWalk.Step | renderer7.js:39 | a week scores +1 when its draw is below q and −1 otherwise. TrajectoryShape and FinalScoreCountsSecureWeeks state what the steps add up to |
| SignedWalk.FinalScoreCountsSecureWeeks | renderer7.js:38-42 | the final score is 2 × (number of secure weeks) − n, and there are at most n secure weeks |
| SignedWalk.SimulateTrajectory | renderer7.js:35-44 | the loop returns the running sums of the ±1 steps, `cum[0] = 0`, length n + 1, and `finalS` is the last entry |
| SignedWalk.TrajectoryShape | renderer7.js:35-44 | each step is +1 when the draw is below q and −1 otherwise; the end is 2 × (secure weeks) − n, in [−n, n] with the parity of n |
| SignedWalk.ReachableScore | renderer7.js:43 | every final score lies in [−n, n] and has the parity of n |
| SignedWalk.ScoreLabels | renderer7.js:46-50 | the labels are n + 1 values and label k is 2k − n |
| SignedWalk.ScoreIndexFromS | renderer7.js:52-54 | (S + n) / 2 as a JavaScript number, not necessarily an integer. ScoreIndexRoundTrip and BinAcceptsExactlyLabels state when it is a bin index |
| SignedWalk.BinAccepts | renderer7.js:183 | the guard `Number.isInteger(idx) && idx >= 0 && idx <= n`. BinAcceptsExactlyLabels states which scores it accepts |
| SignedWalk.ScoreIndexRoundTrip | renderer7.js:52-54 | `scoreIndexFromS(2k − n, n)` is k, so label k maps back to slot k |
| SignedWalk.BinAcceptsExactlyLabels | renderer7.js:52-54 | the guard `Number.isInteger(idx) && idx >= 0 && idx <= n` accepts a score exactly when it is in [−n, n] with the parity of n (both directions), and then idx = (S + n) / 2 |
| SignedWalk.BinomPMF | renderer7.js:58-65 | returns 0 for k < 0 or k > n, and otherwise the binomial term C(n, k) q^k (1 − q)^(n − k) (see PmfClosedForm) |
| SignedWalk.CoefficientLoopStep | renderer7.js:61-63 | iteration i of the loop takes c from C(n − k + i − 1, i − 1) to C(n − k + i, i) |
| SignedWalk.PmfClosedForm | renderer7.js:64 | inside 0..n the value is the integer C(n, k) times q^k (1 − q)^(n − k) |
| SignedWalk.PmfNonNegative | renderer7.js:58-65 | for q in [0, 1] the PMF is never negative |
| SignedWalk.TheoryCurve | renderer7.js:190-196 | n + 1 slots, slot k being the binomial term for k times TRAJECTORIES_TOTAL. PmfClosedForm, PmfNonNegative and TheoryCurveTotal state its values and total |
| SignedWalk.TheoryCurveTotal | renderer7.js:190-196 | the overlay `theory` adds up to TRAJECTORIES_TOTAL, the number of binned runs |
| SignedWalk.AtLeastOne | renderer7.js:148 | `Math.max(1, Math.floor(x))` is an integer >= 1 for numeric x, floor(x) for x >= 1, NaN for NaN and 1 for −Infinity |
| SignedWalk.ValidateInputs | renderer7.js:147-158 | p is clamped to [0, 1] and becomes 0 when not finite; numeric n and m become integers >= 1; NaN n and m stay NaN |
| SignedWalk.RunSimulation | renderer7.js:160-196 | bin k counts the runs ending at 2k − n, the bins sum to TRAJECTORIES_TOTAL, `theory` is the scaled binomial curve, and the fan holds the first TRAJECTORIES_FAN walks |
| SignedWalk.SimulateAndBin | renderer7.js:169-186 | the simulation loop counts every run in the bin of its final score and keeps the first TRAJECTORIES_FAN walks in order |
| SignedWalk.SimulationRound | renderer7.js:170-185 | one pass of that loop extends the bin counts and the kept walks by run r |
| SignedWalk.BinScore | renderer7.js:182-185 | the guarded `bins[idx] += 1` always fires for a reachable score and adds exactly one to the bin of that score |
| SignedWalk.TheoryOverlay | renderer7.js:190-196 | slot k of `theory` receives binomPMF(n, k, q) × TRAJECTORIES_TOTAL, for every k in 0..n |
| BernoulliWalks.SimulateSingle | renderer.js:46-54 | the loop returns the running sums of the 0/1 outcomes (1 exactly when the draw is below p), of length n + 1 and starting at 0 |
| BernoulliWalks.SingleWalkShape | renderer.js:46-54 | each step equals that trial's outcome, the walk never decreases, and it ends in [0, n] |
| BernoulliWalks.Outcome | renderer.js:50 | a trial succeeds (1) exactly when `Math.random() < p` holds on JavaScript numbers, and fails (0) otherwise. SingleWalkShape, NoSuccessBelowZero and AllSuccessAboveOne state its consequences |
| BernoulliWalks.NoSuccessBelowZero | renderer.js:49 | with p <= 0 or NaN no trial succeeds |
| BernoulliWalks.AllSuccessAboveOne | renderer.js:49 | with p >= 1 every trial succeeds |
| BernoulliWalks.TrajectoryCount | renderer.js:58-60 | the number of outer iterations for `i < 2 ** n`: 2^n, and 1 for a negative n (2^n is then a fraction). SamplingNeeded compares it with MAX_PLOT |
| BernoulliWalks.Bit | renderer.js:62 | `(i >> e) & 1` as e halvings and a remainder. BitsValue states that the bits read back give i |
| BernoulliWalks.Bits | renderer.js:61-62 | bits len − 1 down to 0 of i, most significant first. BitsValue and BitTrajectoryShape state their meaning |
| BernoulliWalks.BitTrajectory | renderer.js:60-65 | trajectory i: the running sums of the bits of i. BitTrajectoryShape and BitTrajectoryInjective state its shape and that it determines i |
| BernoulliWalks.AllTrajectories | renderer.js:57-68 | the result is the enumeration: 2^n trajectories (one for negative n), trajectory i being the running sums of the bits of i |
| BernoulliWalks.BitsOf | renderer.js:61-62 | the inner loop yields bits n − 1 down to 0 of i |
| BernoulliWalks.RunningSums | renderer.js:63-64 | the accumulation loop yields the running sums of its input, starting at 0 |
| BernoulliWalks.BitsValue | renderer.js:62 | reading the bits back as a binary number gives i again |
| BernoulliWalks.BitTrajectoryShape | renderer.js:60-65 | trajectory i has n + 1 points from 0, step j is bit n − 1 − j of i (most significant first), and it ends at the number of 1 bits of i |
| BernoulliWalks.BitTrajectoryInjective | renderer.js:60-65 | distinct indices give distinct trajectories |
| BernoulliWalks.SamplingNeeded | renderer.js:84-92 | within the n <= 20 guard, there are more than MAX_PLOT trajectories exactly when n >= 13 |
| BernoulliWalks.PickIndex | renderer.js:97 | `Math.floor(Math.random() * allTraj.length)`. PickIndexInRange states that it is a valid index |
| BernoulliWalks.PickIndexInRange | renderer.js:97 | `Math.floor(Math.random() * allTraj.length)` is a valid index |
| BernoulliWalks.Dedup | renderer.js:96-98 | a Set built from the picks has no duplicates, holds exactly the picked values and is no longer than the picks |
| BernoulliWalks.DedupPrefix | renderer.js:97 | adding more picks never reorders what the Set already holds |
| BernoulliWalks.SampleIndices | renderer.js:95-98 | the sampled indices are the first MAX_PLOT distinct picks in insertion order, distinct and in range, and exactly MAX_PLOT of them when the draws hold that many distinct picks |
| BernoulliWalks.PlotAll | renderer.js:83-99 | nothing is plotted exactly when n > 20; the plot is declined exactly when sampling is needed and refused; all trajectories are plotted when there are at most MAX_PLOT; otherwise the trajectories at the sampled indices, in Set order and pairwise distinct |
| FrequencyHistogram.Frequency | renderer.js:129 | `successes / n` lies in [0, 1] for 1 <= n and 0 <= successes <= n; it is NaN for 0 / 0 and +Infinity for a positive count over 0 |
| FrequencyHistogram.InsertByN | renderer.js:130-132 | the new record placed after every record whose n is not greater. InsertByNSorted, InsertByNPermutes and InsertByNSplits state what it does |
| FrequencyHistogram.SortByN | renderer.js:132 | `histData.sort((a, b) => a.n - b.n)` as a stable insertion sort. SortByNSorts, SortByNPermutes and SortByNKeepsSorted state that it sorts, permutes and fixes sorted input |
| FrequencyHistogram.InsertByNSorted | renderer.js:130-132 | inserting into a history sorted by n keeps it sorted |
| FrequencyHistogram.InsertByNPermutes | renderer.js:130-132 | the insertion adds exactly the new record to the multiset of records |
| FrequencyHistogram.InsertByNSplits | renderer.js:132 | the insertion keeps the old records in their order and puts the new one between them |
| FrequencyHistogram.SortByNSorts | renderer.js:132 | the stable sort by n yields a history sorted by n |
| FrequencyHistogram.SortByNPermutes | renderer.js:132 | the sort is a permutation |
| FrequencyHistogram.SortByNKeepsSorted | renderer.js:132 | sorting an already sorted history changes nothing |
| FrequencyHistogram.PushThenSort | renderer.js:130-132 | push then sort on a sorted history is the ordered insertion of the new record: sorted, and a permutation of the old records plus the new one |
| FrequencyHistogram.FreqTotal | renderer.js:134 | `histData.reduce((sum, d) => sum + d.freq, 0)` with JavaScript addition. FreqTotalIsSum and NaNFreqPoisonsTotal state its value |
| FrequencyHistogram.MeanFreq | renderer.js:134 | that total divided by `histData.length`. MeanFreqIsMean and NaNFreqPoisonsMean state its value |
| FrequencyHistogram.FreqTotalIsSum | renderer.js:134 | the `reduce` total of frequencies in [0, 1] is their real sum, which lies in [0, length] |
| FrequencyHistogram.MeanFreqIsMean | renderer.js:134 | the mean line is the arithmetic mean of the frequencies and lies in [0, 1] |
| FrequencyHistogram.NaNFreqPoisonsMean | renderer.js:129-134 | one record with n = 0 (freq NaN) makes the mean NaN |
| FrequencyHistogram.NaNFreqPoisonsTotal | renderer.js:129-134 | one record with n = 0 (freq NaN) makes the `reduce` total NaN |
| FrequencyHistogram.BeforePlot | renderer.js:199-210 | the two `!==` tests opening each plot handler: a changed p clears the history and `currentN`, and a changed n is stored. ClickOutcome states the result |
| FrequencyHistogram.AddColumn | renderer.js:130-132 | the history after push and sort. PushThenSort states that it is the ordered insertion |
| FrequencyHistogram.Click | renderer.js:195-234 | either plot handler's effect on `currentN`, `currentP` and `histData`. ClickOutcome, ClickGrowsHistory, NaNPAlwaysResets, TypedPKeepsHistory and ClearThenClick state it |
| FrequencyHistogram.Clear | renderer.js:237-243 | the clear handler empties the history and nulls `currentN` and `currentP`. ClearThenClick uses it |
| FrequencyHistogram.NInput | renderer.js:185-188 | the n listener stores a parsed n and ignores NaN. HistogramPage.OnNInput performs it |
| FrequencyHistogram.PInput | renderer.js:190-193 | the p listener stores a parsed p and ignores NaN. TypedPKeepsHistory states its effect on the next click |
| FrequencyHistogram.ClickOutcome | renderer.js:195-235 | after a click, `currentN = n` and `currentP = p`; a changed p leaves only the new record, an unchanged p inserts it into the old history in order; the history stays sorted |
| FrequencyHistogram.ClickGrowsHistory | renderer.js:199-213 | with p unchanged the history grows by exactly one record and keeps every earlier record |
| FrequencyHistogram.NaNPAlwaysResets | renderer.js:199 | since NaN !== NaN, a click with a NaN p always starts a new history |
| FrequencyHistogram.TypedPKeepsHistory | renderer.js:190-199 | the p listener already stores a typed p, so the next click does not reset the history |
| FrequencyHistogram.ClearThenClick | renderer.js:237-243 | after clearing, the next click gives the state (n, p, [record]) |
| FrequencyHistogram.CountSuccesses | renderer.js:126-127 | the trial loop counts the draws below p, at most n of them |
| FrequencyHistogram.HistogramPage.constructor | renderer.js:5-8 | the page starts with `histData = []`, `currentN = null` and `currentP = null` |
| FrequencyHistogram.HistogramPage.OnNInput | renderer.js:185-188 | a parsed n is stored in `currentN` and NaN is ignored |
| FrequencyHistogram.HistogramPage.OnPInput | renderer.js:190-193 | a parsed p is stored in `currentP` and NaN is ignored |
| FrequencyHistogram.HistogramPage.AddHistogramColumn | renderer.js:125-134 | the record `{n, successes / n}` is inserted in order into the sorted `histData`, and the returned mean is that of the new history |
| FrequencyHistogram.HistogramPage.ResetForInputs | renderer.js:199-210 | a changed p empties the history and stores p with `currentN = null`; a changed n is then stored |
| FrequencyHistogram.HistogramPage.PlotSingleClicked | renderer.js:195-214 | the state moves by `Click`, the walk is the running sum of the outcomes, and the record and mean are those of the new column |
| FrequencyHistogram.HistogramPage.PlotAllClicked | renderer.js:216-235 | the state moves by `Click`; the plot is that of `plotAll` (none for n > 20, declined exactly when sampling is refused, all trajectories up to MAX_PLOT, the sampled ones otherwise); the record and mean are those of the new column |
| FrequencyHistogram.HistogramPage.ClearClicked | renderer.js:237-243 | the history is emptied and both `currentN` and `currentP` become null |
| Brownian.DriftTerm | renderer11.js:48-54 | `mu * dt` with dt = T / N. DriftAddsUp states that N of them make mu T |
| Brownian.VolTerm | renderer11.js:53 | `sigma * Math.sqrt(dt)`, with the square root given. TheoryMatchesPath relates N of its squares to sigma² T |
| Brownian.Increments | renderer11.js:57-58 | the increments `driftTerm + volTerm * dW`, one per draw. IncrementsSum states their total |
| Brownian.BrownianPath | renderer11.js:47-60 | the path: running sums of the increments. PathSteps and FinalValueOfPath state its steps and end point |
| Brownian.SimulateBrownianPath | renderer11.js:47-62 | the loop returns the running sums of the increments `driftTerm + volTerm * z[i]`, of length N + 1 from 0, and `finalVal` is the last point |
| Brownian.PathSteps | renderer11.js:56-60 | each step of the path is `mu dt + sigma sqrt(dt) z[i]` |
| Brownian.FinalValueOfPath | renderer11.js:56-61 | the final value is mu T + sigma sqrt(dt) × (sum of the draws) |
| Brownian.IncrementsSum | renderer11.js:56-60 | the increments add up to N drift terms plus volTerm times the sum of the draws |
| Brownian.TheoryMatchesPath | renderer11.js:233-234 | the overlay's mean mu T equals N drift terms, and its variance (sigma sqrt T)^2 equals N squared volatility terms when the square roots are exact |
| Brownian.SeqMin | renderer11.js:206 | `Math.min(...values)` is one of the values and at most each of them |
| Brownian.SeqMax | renderer11.js:207 | `Math.max(...values)` is one of the values and at least each of them |
| Brownian.BinIndex | renderer11.js:225-227 | the clamped bin index is always in [0, HISTOGRAM_BINS − 1]; there is no index (NaN) exactly when binWidth is 0 and v is minVal |
| Brownian.BinOfHalfOpenInterval | renderer11.js:225 | a value in [minVal + i w, minVal + (i + 1) w) is counted in bin i |
| Brownian.PlacedCount | renderer11.js:224-229 | with a positive width every value lands in a bin; with zero width and every value equal to minVal none does |
| Brownian.BuildHistogram | renderer11.js:204-229 | the range is padded by 5% on each side, every value lies in [minVal, maxVal], binWidth is a fortieth of the padded range and never negative, centre i is `minVal + (i + 0.5) binWidth`, bin b counts the values whose index is b, the width is 0 exactly when all values are equal, and with a positive width the bins sum to the number of values (to 0 for zero width) |
| Brownian.FillBins | renderer11.js:224-229 | the fill loop leaves in bin b the number of values whose clamped index is b |
| Brownian.PlaceValue | renderer11.js:225-228 | one pass of the fill loop adds one to the bin of v, and to no bin when its index is NaN |
| Brownian.BinCenter | renderer11.js:220 | centre i is `minVal + (i + 0.5) * binWidth`. CentersIncrease states that the centres increase |
| Brownian.CentersIncrease | renderer11.js:219-221 | with a positive width the bin centres strictly increase |
| Brownian.ZeroWidthMeansConstant | renderer11.js:210-214 | for the padded minVal and maxVal, (maxVal − minVal) / HISTOGRAM_BINS is 0 exactly when every final value equals the smallest one |
| Brownian.RunSimulation | renderer11.js:180-229 | the final values are the end points of the TRAJECTORIES_TOTAL paths, and the fan holds the first TRAJECTORIES_FAN paths. The histogram is the one `BuildHistogram` promises, over those final values: the 5%-padded minVal and maxVal, binWidth = (maxVal − minVal) / 40 (0 exactly when all final values are equal), centres `BinCenter(i)`, and bin b counting the values of index b. The bins sum to TRAJECTORIES_TOTAL for a positive width and to 0 for zero width |
| Brownian.PositiveOr | renderer11.js:166 | `Math.abs(x) \|\| fallback` is positive; 0 and NaN give the fallback |
| Brownian.ValidateInputs | renderer11.js:165-178 | T and sigma are positive (10 and 1 for 0 or NaN), N is an integer >= 1 (100 for NaN), and mu is 0 for NaN and the input otherwise |

## Left out

- The DOM, event-listener wiring, `alert`, Chart.js construction and updates,
  `randomColor`, the note text and the `toFixed` formatting are left out. They
  are presentation. `confirm` becomes the boolean `proceed`.
- `Math.random()` is an explicit sequence of draws. The statistical behaviour
  of the walks is not stated.
- Box–Muller `randn_bm` and `normalPDF` are left out, because they are
  floating-point transcendental functions. The normal draws are a given
  sequence `z`. The normal-density overlay of `renderer11.js` (lines 233-242)
  is represented only by its mean and variance, in `TheoryMatchesPath`.
- `Math.sqrt(dt)` and `Math.sqrt(T)` are given numbers. Only
  `TheoryMatchesPath` assumes their squares are dt and T.
- IEEE rounding is left out: finite numbers are exact reals.
- The `meanLine` (`i * p`) of `plotAll` is display only and is left out.
- SignedWalk.RunSimulation: it takes n and m as natural numbers and p as a
  real. These are the finite values `validateInputs` returns (integers >= 1
  for finite input; 0 is accepted too and behaves as in JavaScript). The
  following inputs are not modelled:
  - A NaN n (non-numeric input) or an infinite n (input such as "1e400"),
    for which `Array(n + 1)` throws.
  - A NaN m. Then q = `Math.pow(1 - p, NaN)` is NaN, `Math.random() < NaN`
    is false, every week scores −1, all runs land in `bins[0]`, and
    `binomPMF` returns NaN for every k.
  - An infinite m. Then q is 0 when p > 0 and NaN when p = 0.
- SignedWalk.WeeklySecureProb: `Math.pow(1 - p, m)` is modelled for a natural
  exponent m only. The NaN or infinite m of the previous line is not
  modelled.
- Brownian.RunSimulation: it takes a finite T, a natural N >= 1 and a finite
  sigma. Infinite inputs, which `validateInputs` lets through, make the
  JavaScript loop run forever or produce NaN paths, and are not modelled.
- BernoulliWalks.SimulateSingle: `parseInt` may give NaN for n. The model takes
  an integer n; a negative n gives the one-point walk `[0]`, as the loop does
  not run.
- BernoulliWalks.Bit: `(i >> j) & 1` is modelled as repeated halving. This is
  the 32-bit shift for the indices below 2^20 that the n <= 20 guard allows.
- BernoulliWalks.SampleIndices: the JavaScript `while` loop runs until the Set
  holds MAX_PLOT indices, however many draws that takes. The model stops when
  the given draws run out. It states the MAX_PLOT count only when the draws
  contain that many distinct picks.
- FrequencyHistogram.SortByN: `Array.prototype.sort` is modelled by a stable
  insertion sort by n. The comparator `a.n - b.n` with a stable sort gives
  exactly this order. Comparators returning NaN are not modelled.
- `resetAll`, `destroyCharts` and `resetChart` only touch charts and are left
  out.
