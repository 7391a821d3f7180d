/**
  renderer7.js: the "weekly score" walk. Each of n weeks is secure with
  probability q = (1 - p)^m (p the daily failure probability, m days a week);
  a secure week scores +1, any other week -1. The script simulates
  TRAJECTORIES_TOTAL such walks, bins their final scores S (which range over
  -n, -n + 2, ..., n) and overlays the binomial expectation.

  Math.random() is replaced by an explicit sequence of draws: run r uses
  draws[r], and week i of that run is secure exactly when draws[r][i] < q.
 */
module SignedWalk {
  import opened JsNumbers
  import opened Walks
  import opened Combinatorics

  const TRAJECTORIES_TOTAL: nat := 5000
  const TRAJECTORIES_FAN: nat := 100

  /** `clamp01(x)`: Math.min(1, Math.max(0, x)). */
  function Clamp01(x: real): (r: real)
    ensures 0.0 <= r <= 1.0
    ensures 0.0 <= x <= 1.0 ==> r == x
    ensures x < 0.0 ==> r == 0.0
    ensures x > 1.0 ==> r == 1.0
  {
    var atLeastZero := if 0.0 < x then x else 0.0;
    if atLeastZero < 1.0 then atLeastZero else 1.0
  }

  /** `weeklySecureProb(p, m)`: the probability (1 - p)^m that no day of the week fails. */
  function WeeklySecureProb(p: real, m: nat): real {
    Power(1.0 - p, m)
  }

  lemma {:induction false} WeeklySecureProbIsProbability(p: real, m: nat)
    requires 0.0 <= p <= 1.0
    ensures 0.0 <= WeeklySecureProb(p, m) <= 1.0
  {
    PowerUnitInterval(1.0 - p, m);
  }

  /** A longer week is never more likely to be secure. */
  lemma {:induction false} WeeklySecureProbNonIncreasing(p: real, m: nat)
    requires 0.0 <= p <= 1.0
    ensures WeeklySecureProb(p, m + 1) <= WeeklySecureProb(p, m)
  {
    var y := Power(1.0 - p, m);
    PowerUnitInterval(1.0 - p, m);
    assert WeeklySecureProb(p, m + 1) == (1.0 - p) * y;
    NonNegativeProduct(p, y);
    assert y - (1.0 - p) * y == p * y;
  }

  lemma {:induction false} NonNegativeProduct(x: real, y: real)
    requires 0.0 <= x && 0.0 <= y
    ensures 0.0 <= x * y
  {
  }

  /** One week: +1 when the draw falls below q, -1 otherwise. */
  function Step(draw: real, q: real): int {
    if draw < q then 1 else -1
  }

  function SignedSteps(q: real, draws: seq<real>): seq<int> {
    seq(|draws|, i requires 0 <= i < |draws| => Step(draws[i], q))
  }

  /** Number of secure weeks: draws below q. */
  function SecureWeeks(q: real, draws: seq<real>): nat {
    if draws == [] then 0
    else SecureWeeks(q, draws[..|draws| - 1]) + (if draws[|draws| - 1] < q then 1 else 0)
  }

  /** The final score is (secure weeks) - (insecure weeks). */
  lemma {:induction false} FinalScoreCountsSecureWeeks(q: real, draws: seq<real>)
    ensures Sum(SignedSteps(q, draws)) == 2 * SecureWeeks(q, draws) - |draws|
    ensures SecureWeeks(q, draws) <= |draws|
  {
    if draws != [] {
      var init := draws[..|draws| - 1];
      FinalScoreCountsSecureWeeks(q, init);
      assert SignedSteps(q, draws)[..|draws| - 1] == SignedSteps(q, init);
    }
  }

  /** `simulateTrajectory(n, q)`: the walk `cum` and its final score. */
  method SimulateTrajectory(n: nat, q: real, draws: seq<real>) returns (cum: seq<int>, finalS: int)
    requires |draws| == n
    ensures cum == Cumulative(SignedSteps(q, draws))
    ensures |cum| == n + 1 && cum[0] == 0 && finalS == cum[n]
  {
    ghost var steps := SignedSteps(q, draws);
    cum := [0];
    var s := 0;
    for i := 0 to n
      invariant cum == Cumulative(steps[..i])
      invariant s == Sum(steps[..i])
    {
      TrajectoryLoopStep(q, draws, i);
      var step := if draws[i] < q then 1 else -1;
      s := s + step;
      cum := cum + [s];
    }
    assert steps[..n] == steps;
    finalS := s;
  }

  /** One pass of the loop of SimulateTrajectory appends the score so far plus the next step. */
  lemma {:induction false} TrajectoryLoopStep(q: real, draws: seq<real>, i: nat)
    requires i < |draws|
    ensures var steps := SignedSteps(q, draws);
      && Sum(steps[..i + 1]) == Sum(steps[..i]) + Step(draws[i], q)
      && Cumulative(steps[..i + 1]) == Cumulative(steps[..i]) + [Sum(steps[..i]) + Step(draws[i], q)]
  {
    var steps := SignedSteps(q, draws);
    assert steps[..i + 1] == steps[..i] + [steps[i]];
    CumulativeSnoc(steps[..i], steps[i]);
    SumSnoc(steps[..i], steps[i]);
  }

  /** A final score lies in [-n, n] and has the parity of n. */
  lemma {:induction false} ReachableScore(q: real, draws: seq<real>)
    ensures var s, n := Sum(SignedSteps(q, draws)), |draws|;
      -n <= s <= n && (s + n) % 2 == 0
  {
    FinalScoreCountsSecureWeeks(q, draws);
    var w := SecureWeeks(q, draws);
    assert Sum(SignedSteps(q, draws)) + |draws| == 2 * w;
  }

  /**
    A trajectory starts at 0, moves +1 in a secure week (draw < q) and -1
    otherwise, and ends at 2 * (secure weeks) - n: a score in [-n, n] with the
    parity of n.
   */
  lemma {:induction false} TrajectoryShape(q: real, draws: seq<real>)
    ensures var cum := Cumulative(SignedSteps(q, draws));
      var n := |draws|;
      && (forall i :: 0 <= i < n ==> cum[i + 1] - cum[i] == (if draws[i] < q then 1 else -1))
      && cum[n] == 2 * SecureWeeks(q, draws) - n
      && -n <= cum[n] <= n && (cum[n] + n) % 2 == 0
  {
    var steps := SignedSteps(q, draws);
    forall i | 0 <= i < |draws| ensures Cumulative(steps)[i + 1] - Cumulative(steps)[i] == (if draws[i] < q then 1 else -1) {
      CumulativeStep(steps, i);
    }
    FinalScoreCountsSecureWeeks(q, draws);
    ReachableScore(q, draws);
  }

  /** `scoreLabels(n)`: the reachable final scores -n, -n + 2, ..., n. */
  method ScoreLabels(n: nat) returns (labels: seq<int>)
    ensures |labels| == n + 1
    ensures forall k :: 0 <= k <= n ==> labels[k] == 2 * k - n
  {
    labels := [];
    var s := -(n as int);
    while s <= n
      invariant s == 2 * |labels| - n && s <= n + 2
      invariant forall k :: 0 <= k < |labels| ==> labels[k] == 2 * k - n
      decreases n + 2 - s
    {
      labels := labels + [s];
      s := s + 2;
    }
  }

  /** `scoreIndexFromS(S, n)`: (S + n) / 2, a JavaScript number that need not be an integer. */
  function ScoreIndexFromS(score: int, n: int): real {
    (score + n) as real / 2.0
  }

  /** The guard `Number.isInteger(idx) && idx >= 0 && idx <= n` before `bins[idx] += 1`. */
  predicate BinAccepts(idx: real, n: int) {
    IsIntegral(idx) && 0.0 <= idx <= n as real
  }

  /** Label k maps back to bin k. */
  lemma {:induction false} ScoreIndexRoundTrip(n: nat, k: int)
    ensures ScoreIndexFromS(2 * k - n, n) == k as real
  {
  }

  /** The guard accepts a score exactly when it is one of the labels -n, -n + 2, ..., n. */
  lemma {:induction false} BinAcceptsExactlyLabels(score: int, n: nat)
    ensures BinAccepts(ScoreIndexFromS(score, n), n) <==> -(n as int) <= score <= n && (score + n) % 2 == 0
    ensures ScoreIndexFromS(score, n).Floor == (score + n) / 2
  {
    var t := score + n;
    var h := t / 2;
    var idx := ScoreIndexFromS(score, n);
    if t % 2 == 0 {
      assert idx == h as real;
      assert idx.Floor == h;
    } else {
      assert t == 2 * h + 1;
      assert idx == h as real + 0.5;
      assert idx.Floor == h;
      assert !IsIntegral(idx);
    }
  }

  /**
    `binomPMF(n, k, q)`: C(n, k) by the multiplicative loop, times q^k (1 - q)^(n - k).
    The result is the k-th term of the expansion of (q + (1 - q))^n.
   */
  method BinomPMF(n: nat, k: int, q: real) returns (pmf: real)
    ensures pmf == Term(q, 1.0 - q, n, k)
    ensures k < 0 || k > n ==> pmf == 0.0
  {
    if k < 0 || k > n {
      assert Term(q, 1.0 - q, n, k) == 0.0;
      return 0.0;
    }
    var c: real := 1.0;
    for i := 1 to k + 1
      invariant c == Binom(n - k + i - 1, i - 1) as real
    {
      CoefficientLoopStep(n, k, i, c);
      c := c * (n - (k - i)) as real / i as real;
    }
    pmf := c * Power(q, k) * Power(1.0 - q, n - k);
    PmfIsTerm(n, k, q, c);
    assert pmf == Term(q, 1.0 - q, n, k);
  }

  /** The loop step `c = c * (n - (k - i)) / i` moves from C(n - k + i - 1, i - 1) to C(n - k + i, i). */
  lemma {:induction false} CoefficientLoopStep(n: nat, k: nat, i: nat, c: real)
    requires 1 <= i <= k <= n
    requires c == Binom(n - k + i - 1, i - 1) as real
    ensures c * (n - (k - i)) as real / i as real == Binom(n - k + i, i) as real
  {
    CoefficientStep(n - k + i, i);
  }

  /** Inside 0..n the term is C(n, k) q^k (1 - q)^(n - k), the binomial probability of k secure weeks. */
  lemma {:induction false} PmfClosedForm(n: nat, k: nat, q: real)
    requires k <= n
    ensures Term(q, 1.0 - q, n, k) == Binom(n, k) as real * Power(q, k) * Power(1.0 - q, n - k)
  {
    RealBinomIsBinom(n, k);
  }

  lemma {:induction false} PmfIsTerm(n: nat, k: nat, q: real, c: real)
    requires k <= n && c == Binom(n, k) as real
    ensures c * Power(q, k) * Power(1.0 - q, n - k) == Term(q, 1.0 - q, n, k)
  {
    RealBinomIsBinom(n, k);
  }

  lemma {:induction false} PmfNonNegative(n: nat, k: int, q: real)
    requires 0.0 <= q <= 1.0
    ensures Term(q, 1.0 - q, n, k) >= 0.0
  {
    if 0 <= k <= n {
      PowerUnitInterval(q, k);
      PowerUnitInterval(1.0 - q, n - k);
      RealBinomIsBinom(n, k);
      var c, x, y := RealBinom(n, k), Power(q, k), Power(1.0 - q, n - k);
      assert c * x >= 0.0;
      assert c * x * y >= 0.0;
    }
  }

  /** The red overlay: expected number of the TRAJECTORIES_TOTAL runs ending in bin k. */
  function TheoryCurve(n: nat, q: real): seq<real> {
    seq(n + 1, k requires 0 <= k <= n => Term(q, 1.0 - q, n, k) * TRAJECTORIES_TOTAL as real)
  }

  lemma {:induction false} ScaledSum(f: int -> real, c: real, j: nat)
    ensures RealSum(seq(j, k requires 0 <= k < j => f(k) * c)) == SumTo(f, j) * c
  {
    if j > 0 {
      ScaledSum(f, c, j - 1);
      var s := seq(j, k requires 0 <= k < j => f(k) * c);
      assert s[..j - 1] == seq(j - 1, k requires 0 <= k < j - 1 => f(k) * c);
      var t := SumTo(f, j - 1);
      assert (t + f(j - 1)) * c == t * c + f(j - 1) * c;
    }
  }

  /** The overlay has the same total mass as the histogram: TRAJECTORIES_TOTAL. */
  lemma {:induction false} TheoryCurveTotal(n: nat, q: real)
    ensures RealSum(TheoryCurve(n, q)) == TRAJECTORIES_TOTAL as real
  {
    var f := Terms(q, 1.0 - q, n);
    ScaledSum(f, TRAJECTORIES_TOTAL as real, n + 1);
    assert TheoryCurve(n, q) == seq(n + 1, k requires 0 <= k < n + 1 => f(k) * TRAJECTORIES_TOTAL as real);
    BinomialProbabilitiesSumToOne(q, n);
  }

  /** Final score of every run. */
  function Finals(q: real, draws: seq<seq<real>>): seq<int> {
    seq(|draws|, r requires 0 <= r < |draws| => Sum(SignedSteps(q, draws[r])))
  }

  /** Bin k counts the scores 2k - n among the finals seen so far. */
  predicate BinsCount(bins: seq<int>, finals: seq<int>, n: nat) {
    |bins| == n + 1 && forall k :: 0 <= k <= n ==> bins[k] == Count(finals, 2 * k - n)
  }

  /** `bins[idx] += 1` for the bin of the next final score keeps the bins counting. */
  lemma {:induction false} BinsStep(bins: seq<int>, finals: seq<int>, score: int, n: nat)
    requires BinsCount(bins, finals, n)
    requires -(n as int) <= score <= n && (score + n) % 2 == 0
    ensures BinsCount(bins[(score + n) / 2 := bins[(score + n) / 2] + 1], finals + [score], n)
    ensures Sum(bins[(score + n) / 2 := bins[(score + n) / 2] + 1]) == Sum(bins) + 1
  {
    var b := (score + n) / 2;
    forall k | 0 <= k <= n ensures bins[b := bins[b] + 1][k] == Count(finals + [score], 2 * k - n) {
      CountSnoc(finals, score, 2 * k - n);
    }
    SumIncrement(bins, b);
  }

  /** The inputs after `validateInputs()`; n and m are NaN for non-numeric input. */
  datatype Inputs = Inputs(n: JsNumber, p: real, m: JsNumber)

  /** Math.max(1, Math.floor(x)), as applied to n and m. */
  function AtLeastOne(x: JsNumber): (r: JsNumber)
    ensures x.Num? ==> r.Num? && IsIntegral(r.v) && r.v >= 1.0
    ensures x.Num? && x.v >= 1.0 ==> r == Num(x.v.Floor as real)
    ensures x.NaN? ==> r.NaN?
    ensures x.NegInf? ==> r == Num(1.0)
    ensures x.PosInf? ==> r.PosInf?
  {
    Max(Num(1.0), Floor(x))
  }

  /**
    `validateInputs()`: p is clamped to [0, 1] (a non-finite p becomes 0);
    n and m become integers >= 1 whenever the input is a number.
   */
  function ValidateInputs(nIn: JsNumber, pIn: JsNumber, mIn: JsNumber): (r: Inputs)
    ensures 0.0 <= r.p <= 1.0
    ensures pIn.Num? && 0.0 <= pIn.v <= 1.0 ==> r.p == pIn.v
    ensures !pIn.Num? ==> r.p == 0.0
    ensures nIn.Num? ==> r.n.Num? && IsIntegral(r.n.v) && r.n.v >= 1.0
    ensures mIn.Num? ==> r.m.Num? && IsIntegral(r.m.v) && r.m.v >= 1.0
    ensures nIn.NaN? ==> r.n.NaN?
    ensures mIn.NaN? ==> r.m.NaN?
  {
    Inputs(AtLeastOne(nIn), Clamp01(if IsFinite(pIn) then pIn.v else 0.0), AtLeastOne(mIn))
  }

  /**
    `runSimulation()` after validation: TRAJECTORIES_TOTAL walks are binned by
    final score (bin k holds score 2k - n), the first TRAJECTORIES_FAN walks are
    kept for display, and the theoretical curve is filled slot by slot.
   */
  method RunSimulation(n: nat, p: real, m: nat, draws: seq<seq<real>>)
    returns (bins: seq<int>, theory: seq<real>, fan: seq<seq<int>>)
    requires |draws| == TRAJECTORIES_TOTAL
    requires forall r :: 0 <= r < |draws| ==> |draws[r]| == n
    ensures BinsCount(bins, Finals(WeeklySecureProb(p, m), draws), n)
    ensures Sum(bins) == TRAJECTORIES_TOTAL
    ensures theory == TheoryCurve(n, WeeklySecureProb(p, m))
    ensures |fan| == TRAJECTORIES_FAN && FanOf(fan, WeeklySecureProb(p, m), draws)
  {
    var q := WeeklySecureProb(p, m);
    bins, fan := SimulateAndBin(n, q, draws);
    theory := TheoryOverlay(n, q);
  }

  /** The walks of the first |fan| rows of draws, in order. */
  predicate FanOf(fan: seq<seq<int>>, q: real, draws: seq<seq<real>>) {
    |fan| <= |draws| && forall t :: 0 <= t < |fan| ==> fan[t] == Cumulative(SignedSteps(q, draws[t]))
  }

  lemma {:induction false} FanSnoc(fan: seq<seq<int>>, q: real, draws: seq<seq<real>>, cum: seq<int>)
    requires FanOf(fan, q, draws) && |fan| < |draws|
    requires cum == Cumulative(SignedSteps(q, draws[|fan|]))
    ensures FanOf(fan + [cum], q, draws)
  {
  }

  lemma {:induction false} FinalsSnoc(q: real, draws: seq<seq<real>>, r: nat, score: int)
    requires r < |draws| && score == Sum(SignedSteps(q, draws[r]))
    ensures Finals(q, draws)[..r + 1] == Finals(q, draws)[..r] + [score]
  {
  }

  /** What the simulation loop has built after its first r rounds. */
  predicate SimulatedUpTo(bins: seq<int>, fan: seq<seq<int>>, n: nat, q: real, draws: seq<seq<real>>, r: nat) {
    && r <= |draws|
    && |fan| == (if r < TRAJECTORIES_FAN then r else TRAJECTORIES_FAN)
    && FanOf(fan, q, draws)
    && BinsCount(bins, Finals(q, draws)[..r], n)
    && Sum(bins) == r
  }

  /** The simulation loop of `runSimulation()`: one walk per row of draws, each counted in the bin of its final score. */
  method SimulateAndBin(n: nat, q: real, draws: seq<seq<real>>) returns (bins: seq<int>, fan: seq<seq<int>>)
    requires |draws| == TRAJECTORIES_TOTAL
    requires forall r :: 0 <= r < |draws| ==> |draws[r]| == n
    ensures BinsCount(bins, Finals(q, draws), n)
    ensures Sum(bins) == TRAJECTORIES_TOTAL
    ensures |fan| == TRAJECTORIES_FAN && FanOf(fan, q, draws)
  {
    var binsArr := new int[n + 1](_ => 0);
    SumOfZeros(binsArr[..]);
    fan := [];
    for r := 0 to TRAJECTORIES_TOTAL
      invariant SimulatedUpTo(binsArr[..], fan, n, q, draws, r)
    {
      fan := SimulationRound(n, q, draws, r, binsArr, fan);
    }
    assert Finals(q, draws)[..TRAJECTORIES_TOTAL] == Finals(q, draws);
    bins := binsArr[..];
  }

  /** One pass of the simulation loop: walk r is drawn, kept for display when r < TRAJECTORIES_FAN, and binned. */
  method SimulationRound(n: nat, q: real, draws: seq<seq<real>>, r: nat, binsArr: array<int>, fan: seq<seq<int>>)
    returns (fan': seq<seq<int>>)
    requires r < |draws| && |draws[r]| == n
    requires SimulatedUpTo(binsArr[..], fan, n, q, draws, r)
    modifies binsArr
    ensures SimulatedUpTo(binsArr[..], fan', n, q, draws, r + 1)
  {
    var cum, finalS := SimulateTrajectory(n, q, draws[r]);
    ReachableScore(q, draws[r]);
    fan' := fan;
    if r < TRAJECTORIES_FAN {
      FanSnoc(fan, q, draws, cum);
      fan' := fan + [cum];
    }
    FinalsSnoc(q, draws, r, finalS);
    BinScore(binsArr, finalS, n, Finals(q, draws)[..r]);
  }

  /** `bins[idx] += 1` behind the guard on `idx = scoreIndexFromS(finalS, n)`; a reachable score always passes it. */
  method BinScore(bins: array<int>, finalS: int, n: nat, ghost seen: seq<int>)
    requires BinsCount(bins[..], seen, n)
    requires -(n as int) <= finalS <= n && (finalS + n) % 2 == 0
    modifies bins
    ensures BinsCount(bins[..], seen + [finalS], n)
    ensures Sum(bins[..]) == Sum(old(bins[..])) + 1
  {
    var idx := ScoreIndexFromS(finalS, n);
    BinAcceptsExactlyLabels(finalS, n);
    assert BinAccepts(idx, n) && idx.Floor == (finalS + n) / 2;
    if BinAccepts(idx, n) {
      var b := idx.Floor;
      ghost var before := bins[..];
      BinsStep(before, seen, finalS, n);
      bins[b] := bins[b] + 1;
      assert bins[..] == before[b := before[b] + 1];
    }
  }

  /** The overlay loop of `runSimulation()`: slot (S + n) / 2 of label S receives binomPMF(n, k, q) * TRAJECTORIES_TOTAL. */
  method TheoryOverlay(n: nat, q: real) returns (theory: seq<real>)
    ensures theory == TheoryCurve(n, q)
  {
    var theoryArr := new real[n + 1](_ => 0.0);
    for k := 0 to n + 1
      invariant forall j :: 0 <= j < k ==> theoryArr[j] == TheoryCurve(n, q)[j]
    {
      var s := 2 * k - n;
      var idx := ScoreIndexFromS(s, n);
      var pK := BinomPMF(n, k, q);
      ScoreIndexRoundTrip(n, k);
      theoryArr[idx.Floor] := pK * TRAJECTORIES_TOTAL as real;
    }
    theory := theoryArr[..];
  }
}
