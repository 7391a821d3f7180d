/**
  renderer.js, trajectory side: cumulative-success walks of n Bernoulli(p)
  trials. `simulateSingle` draws one walk; `allTrajectories` enumerates all 2^n
  of them by reading the bits of 0 .. 2^n - 1, most significant bit first;
  `plotAll` refuses n > 20 and, above MAX_PLOT walks, plots a random sample of
  distinct indices.

  `parseInt` results are integers here (a NaN n is not modelled); p is a
  JavaScript number, so a NaN p is possible and makes every trial fail.
  Math.random() is an explicit sequence of draws, one per call.
 */
module BernoulliWalks {
  import opened JsNumbers
  import opened Walks

  const MAX_N_PLOT: int := 20
  const MAX_PLOT: nat := 5000

  /** Iterations of `for (let i = 1; i <= n; i++)`, and of `for (let i = 0; i < n; i++)`. */
  function Trials(n: int): nat {
    if n < 0 then 0 else n
  }

  /** `Math.random() < p ? 1 : 0` */
  function Outcome(draw: real, p: JsNumber): int {
    if Less(Num(draw), p) then 1 else 0
  }

  function Outcomes(p: JsNumber, draws: seq<real>): seq<int> {
    seq(|draws|, i requires 0 <= i < |draws| => Outcome(draws[i], p))
  }

  /** `simulateSingle(n, p)`: the running count of successes after each trial. */
  method SimulateSingle(n: int, p: JsNumber, draws: seq<real>) returns (arr: seq<int>)
    requires |draws| == Trials(n)
    ensures arr == Cumulative(Outcomes(p, draws))
    ensures |arr| == Trials(n) + 1 && arr[0] == 0
  {
    ghost var steps := Outcomes(p, draws);
    var successes := 0;
    arr := [0];
    var i := 1;
    while i <= n
      invariant 1 <= i <= Trials(n) + 1
      invariant arr == Cumulative(steps[..i - 1])
      invariant successes == Sum(steps[..i - 1])
    {
      SingleLoopStep(p, draws, i - 1);
      if Less(Num(draws[i - 1]), p) {
        successes := successes + 1;
      }
      arr := arr + [successes];
      i := i + 1;
    }
    assert steps[..Trials(n)] == steps;
  }

  /** One pass of the loop of SimulateSingle appends the count so far plus the outcome of the next trial. */
  lemma {:induction false} SingleLoopStep(p: JsNumber, draws: seq<real>, k: nat)
    requires k < |draws|
    ensures var steps := Outcomes(p, draws);
      && Sum(steps[..k + 1]) == Sum(steps[..k]) + Outcome(draws[k], p)
      && Cumulative(steps[..k + 1]) == Cumulative(steps[..k]) + [Sum(steps[..k]) + Outcome(draws[k], p)]
  {
    var steps := Outcomes(p, draws);
    assert steps[..k + 1] == steps[..k] + [steps[k]];
    CumulativeSnoc(steps[..k], steps[k]);
    SumSnoc(steps[..k], steps[k]);
  }

  /**
    The walk of `simulateSingle` starts at 0, moves up by the outcome of each
    trial, never goes down, and ends between 0 and the number of trials.
   */
  lemma {:induction false} SingleWalkShape(p: JsNumber, draws: seq<real>)
    ensures var arr := Cumulative(Outcomes(p, draws));
      && (forall i :: 0 <= i < |draws| ==> arr[i + 1] - arr[i] == Outcome(draws[i], p))
      && (forall i, j :: 0 <= i <= j <= |draws| ==> arr[i] <= arr[j])
      && 0 <= arr[|draws|] <= |draws|
  {
    var steps := Outcomes(p, draws);
    forall i | 0 <= i < |draws| ensures Cumulative(steps)[i + 1] - Cumulative(steps)[i] == Outcome(draws[i], p) {
      CumulativeStep(steps, i);
    }
    NonNegativeStepsNonDecreasing(steps);
    ZeroOneSumBounds(steps);
  }

  /** With p NaN or p <= 0 no trial succeeds (renderer.js does not clamp p). */
  lemma {:induction false} NoSuccessBelowZero(p: JsNumber, draws: seq<real>)
    requires p.NaN? || p.NegInf? || (p.Num? && p.v <= 0.0)
    requires forall i :: 0 <= i < |draws| ==> 0.0 <= draws[i]
    ensures Sum(Outcomes(p, draws)) == 0
  {
    if draws != [] {
      var init := draws[..|draws| - 1];
      NoSuccessBelowZero(p, init);
      assert Outcomes(p, draws)[..|draws| - 1] == Outcomes(p, init);
    }
  }

  /** With p >= 1 every trial succeeds, since every draw is below 1. */
  lemma {:induction false} AllSuccessAboveOne(p: JsNumber, draws: seq<real>)
    requires p.PosInf? || (p.Num? && p.v >= 1.0)
    requires forall i :: 0 <= i < |draws| ==> draws[i] < 1.0
    ensures Sum(Outcomes(p, draws)) == |draws|
  {
    if draws != [] {
      var init := draws[..|draws| - 1];
      AllSuccessAboveOne(p, init);
      assert Outcomes(p, draws)[..|draws| - 1] == Outcomes(p, init);
    }
  }

  function Pow2(e: nat): nat {
    if e == 0 then 1 else 2 * Pow2(e - 1)
  }

  /**
    `(i >> e) & 1`: bit e of i. For 0 <= i < 2^31 the 32-bit shift is e
    halvings, which is all that n <= 20 needs.
   */
  function Bit(i: nat, e: nat): int {
    if e == 0 then i % 2 else Bit(i / 2, e - 1)
  }

  /** The array `arr` built by the inner loop: bits n-1 down to 0 of i. */
  function Bits(len: nat, i: nat): seq<int> {
    seq(len, j requires 0 <= j < len => Bit(i, len - 1 - j))
  }

  /** `2 ** n` bounds the outer loop; for a negative n it is a fraction, so only i = 0 runs. */
  function TrajectoryCount(n: int): nat {
    if n < 0 then 1 else Pow2(n)
  }

  /** Trajectory i of the enumeration. */
  function BitTrajectory(n: int, i: nat): seq<int> {
    Cumulative(Bits(Trials(n), i))
  }

  function AllBitTrajectories(n: int): seq<seq<int>> {
    seq(TrajectoryCount(n), i requires 0 <= i => BitTrajectory(n, i))
  }

  /** `allTrajectories(n)` for n <= 20: trajectory i walks the bits of i, most significant first. */
  method AllTrajectories(n: int) returns (trajs: seq<seq<int>>)
    requires n <= MAX_N_PLOT
    ensures trajs == AllBitTrajectories(n)
  {
    var total := TrajectoryCount(n);
    trajs := [];
    var i := 0;
    while i < total
      invariant 0 <= i <= total && |trajs| == i
      invariant forall t :: 0 <= t < i ==> trajs[t] == BitTrajectory(n, t)
    {
      var arr := BitsOf(n, i);
      var cum := RunningSums(arr);
      trajs := trajs + [cum];
      i := i + 1;
    }
  }

  /** `for (let j = n-1; j >= 0; j--) arr.push((i >> j) & 1)` */
  method BitsOf(n: int, i: nat) returns (arr: seq<int>)
    ensures arr == Bits(Trials(n), i)
  {
    arr := [];
    var j := n - 1;
    while j >= 0
      invariant j <= n - 1 && (n >= 0 ==> -1 <= j) && (n < 0 ==> j == n - 1)
      invariant |arr| == n - 1 - j
      invariant forall t :: 0 <= t < |arr| ==> arr[t] == Bit(i, n - 1 - t)
    {
      arr := arr + [Bit(i, j)];
      j := j - 1;
    }
  }

  /** `let cum = [0], s = 0; for (let v of arr) { s += v; cum.push(s); }` */
  method RunningSums(arr: seq<int>) returns (cum: seq<int>)
    ensures cum == Cumulative(arr)
  {
    cum := [0];
    var s := 0;
    for k := 0 to |arr|
      invariant cum == Cumulative(arr[..k])
      invariant s == Sum(arr[..k])
    {
      assert arr[..k + 1] == arr[..k] + [arr[k]];
      CumulativeSnoc(arr[..k], arr[k]);
      SumSnoc(arr[..k], arr[k]);
      s := s + arr[k];
      cum := cum + [s];
    }
    assert arr[..|arr|] == arr;
  }

  /** Dropping the lowest bit: the bits of i are the bits of i / 2 followed by i % 2. */
  lemma {:induction false} BitsSplit(len: nat, i: nat)
    requires len >= 1
    ensures Bits(len, i) == Bits(len - 1, i / 2) + [i % 2]
  {
    var b := Bits(len - 1, i / 2) + [i % 2];
    forall j | 0 <= j < len ensures Bits(len, i)[j] == b[j] {
      if j < len - 1 {
        assert b[j] == Bits(len - 1, i / 2)[j] == Bit(i / 2, len - 2 - j);
        assert Bit(i, len - 1 - j) == Bit(i / 2, len - 2 - j);
      } else {
        assert b[j] == i % 2 == Bit(i, 0);
      }
    }
  }

  /** Binary value of a bit string, most significant bit first. */
  function Value(bits: seq<int>): int {
    if bits == [] then 0 else 2 * Value(bits[..|bits| - 1]) + bits[|bits| - 1]
  }

  /** Number of 1 bits of i. */
  function Popcount(i: nat): nat {
    if i == 0 then 0 else Popcount(i / 2) + i % 2
  }

  /** Reading the bits back gives i: the enumeration is the binary expansion of its index. */
  lemma {:induction false} BitsValue(len: nat, i: nat)
    requires i < Pow2(len)
    ensures Value(Bits(len, i)) == i
  {
    if len > 0 {
      BitsValue(len - 1, i / 2);
      BitsSplit(len, i);
      var b := Bits(len, i);
      assert b[..len - 1] == Bits(len - 1, i / 2);
    }
  }

  /** The final value of trajectory i is the number of 1 bits of i. */
  lemma {:induction false} BitsSum(len: nat, i: nat)
    requires i < Pow2(len)
    ensures Sum(Bits(len, i)) == Popcount(i)
  {
    if len > 0 {
      BitsSum(len - 1, i / 2);
      BitsSplit(len, i);
      SumSnoc(Bits(len - 1, i / 2), i % 2);
    }
  }

  /**
    Trajectory i starts at 0, has n + 1 points, moves by bit (n - 1 - j) of i at
    step j and ends at the number of 1 bits of i.
   */
  lemma {:induction false} BitTrajectoryShape(n: int, i: nat)
    requires i < TrajectoryCount(n)
    ensures |BitTrajectory(n, i)| == Trials(n) + 1 && BitTrajectory(n, i)[0] == 0
    ensures forall j :: 0 <= j < Trials(n) ==> BitTrajectory(n, i)[j + 1] - BitTrajectory(n, i)[j] == Bit(i, Trials(n) - 1 - j)
    ensures BitTrajectory(n, i)[Trials(n)] == Popcount(i)
  {
    var len := Trials(n);
    forall j | 0 <= j < len ensures BitTrajectory(n, i)[j + 1] - BitTrajectory(n, i)[j] == Bit(i, len - 1 - j) {
      CumulativeStep(Bits(len, i), j);
    }
    BitsSum(len, i);
  }

  /** Distinct indices give distinct trajectories. */
  lemma {:induction false} BitTrajectoryInjective(n: int, i: nat, i': nat)
    requires i < TrajectoryCount(n) && i' < TrajectoryCount(n)
    requires BitTrajectory(n, i) == BitTrajectory(n, i')
    ensures i == i'
  {
    CumulativeInjective(Bits(Trials(n), i), Bits(Trials(n), i'));
    BitsValue(Trials(n), i);
    BitsValue(Trials(n), i');
  }

  lemma {:induction false} Pow2Monotone(a: nat, b: nat)
    requires a <= b
    ensures Pow2(a) <= Pow2(b)
  {
    if a < b {
      Pow2Monotone(a, b - 1);
    }
  }

  /** Within the n <= 20 guard, sampling happens exactly for 13 <= n (2^12 = 4096, 2^13 = 8192). */
  lemma {:induction false} SamplingNeeded(n: int)
    requires n <= MAX_N_PLOT
    ensures TrajectoryCount(n) > MAX_PLOT <==> 13 <= n
  {
    assert Pow2(12) == 4096;
    assert Pow2(13) == 8192;
    if n >= 13 {
      Pow2Monotone(13, n);
    } else if n >= 0 {
      Pow2Monotone(n, 12);
    }
  }

  /** `Math.floor(Math.random() * allTraj.length)` */
  function PickIndex(draw: real, total: nat): int {
    (draw * total as real).Floor
  }

  lemma {:induction false} PickIndexInRange(draw: real, total: nat)
    requires 0.0 <= draw < 1.0 && total > 0
    ensures 0 <= PickIndex(draw, total) < total
  {
    var t := total as real;
    assert t - draw * t == (1.0 - draw) * t;
    assert (1.0 - draw) * t > 0.0;
    assert draw * t >= 0.0;
  }

  function Picks(draws: seq<real>, total: nat): seq<int> {
    seq(|draws|, i requires 0 <= i < |draws| => PickIndex(draws[i], total))
  }

  predicate Distinct(s: seq<int>) {
    forall i, j :: 0 <= i < j < |s| ==> s[i] != s[j]
  }

  /** The elements of a JavaScript Set after adding s[0], s[1], ... in turn, in iteration (first insertion) order. */
  function Dedup(s: seq<int>): (r: seq<int>)
    ensures Distinct(r)
    ensures forall x :: x in r <==> x in s
    ensures |r| <= |s|
  {
    if s == [] then []
    else
      var d := Dedup(s[..|s| - 1]);
      if s[|s| - 1] in d then d else d + [s[|s| - 1]]
  }

  /** Adding more elements to a Set never reorders what it already holds. */
  lemma {:induction false} DedupPrefix(s: seq<int>, k: nat)
    requires k <= |s|
    ensures |Dedup(s[..k])| <= |Dedup(s)|
    ensures Dedup(s[..k]) == Dedup(s)[..|Dedup(s[..k])|]
  {
    if k < |s| {
      var init := s[..|s| - 1];
      DedupPrefix(init, k);
      assert init[..k] == s[..k];
    } else {
      assert s[..k] == s;
    }
  }

  function Take(s: seq<int>, m: nat): seq<int> {
    if |s| <= m then s else s[..m]
  }

  /**
    The sampling loop of `plotAll`: add picked indices to a Set until it holds
    MAX_PLOT of them. The result is the first MAX_PLOT distinct picks, in the
    order they were first drawn; with fewer distinct picks in the draws the
    loop stops when the draws run out.
   */
  method SampleIndices(total: nat, draws: seq<real>) returns (indices: seq<int>)
    requires total > 0
    requires forall i :: 0 <= i < |draws| ==> 0.0 <= draws[i] < 1.0
    ensures indices == Take(Dedup(Picks(draws, total)), MAX_PLOT)
    ensures Distinct(indices)
    ensures forall t :: 0 <= t < |indices| ==> 0 <= indices[t] < total
    ensures |Dedup(Picks(draws, total))| >= MAX_PLOT ==> |indices| == MAX_PLOT
  {
    ghost var picks := Picks(draws, total);
    indices := [];
    var used := 0;
    while |indices| < MAX_PLOT && used < |draws|
      invariant used <= |draws|
      invariant indices == Dedup(picks[..used])
      invariant |indices| <= MAX_PLOT
      invariant forall t :: 0 <= t < |indices| ==> 0 <= indices[t] < total
    {
      var idx := PickIndex(draws[used], total);
      PickIndexInRange(draws[used], total);
      assert picks[..used + 1][..used] == picks[..used];
      if idx !in indices {
        indices := indices + [idx];
      }
      used := used + 1;
    }
    StoppedSetIsTake(picks, used);
  }

  /** Where the sampling loop stops, the Set holds the first MAX_PLOT distinct picks (or all of them). */
  lemma {:induction false} StoppedSetIsTake(picks: seq<int>, used: nat)
    requires used <= |picks|
    requires |Dedup(picks[..used])| == MAX_PLOT || (used == |picks| && |Dedup(picks[..used])| <= MAX_PLOT)
    ensures Dedup(picks[..used]) == Take(Dedup(picks), MAX_PLOT)
    ensures |Dedup(picks)| >= MAX_PLOT ==> |Dedup(picks[..used])| == MAX_PLOT
  {
    DedupPrefix(picks, used);
    if used == |picks| {
      assert picks[..used] == picks;
    }
  }

  /** What `plotAll` puts on the chart, apart from the mean line. */
  datatype PlotResult = TooLarge | Declined | Plotted(trajs: seq<seq<int>>)

  /**
    The sampled branch of `plotAll`: the trajectories at the first MAX_PLOT
    distinct indices picked, in the Set's insertion order, pairwise distinct.
   */
  predicate SampledPlot(trajs: seq<seq<int>>, n: int, draws: seq<real>) {
    var sample := Take(Dedup(Picks(draws, TrajectoryCount(n))), MAX_PLOT);
    |trajs| == |sample| &&
    (forall t :: 0 <= t < |sample| ==> 0 <= sample[t] < TrajectoryCount(n) && trajs[t] == BitTrajectory(n, sample[t])) &&
    (forall a, b :: 0 <= a < b < |trajs| ==> trajs[a] != trajs[b])
  }

  /**
    `plotAll(n, p)`: nothing for n > 20; every trajectory when there are at most
    MAX_PLOT; otherwise, if the user confirms (`proceed`), the trajectories at
    the sampled indices.
   */
  method PlotAll(n: int, proceed: bool, draws: seq<real>) returns (result: PlotResult)
    requires forall i :: 0 <= i < |draws| ==> 0.0 <= draws[i] < 1.0
    ensures result.TooLarge? <==> n > MAX_N_PLOT
    ensures result.Declined? <==> n <= MAX_N_PLOT && TrajectoryCount(n) > MAX_PLOT && !proceed
    ensures n <= MAX_N_PLOT && TrajectoryCount(n) <= MAX_PLOT ==> result == Plotted(AllBitTrajectories(n))
    ensures result.Plotted? && TrajectoryCount(n) > MAX_PLOT ==> SampledPlot(result.trajs, n, draws)
  {
    if n > MAX_N_PLOT {
      return TooLarge;
    }
    var allTraj := AllTrajectories(n);
    if |allTraj| > MAX_PLOT {
      if !proceed {
        return Declined;
      }
      var indices := SampleIndices(|allTraj|, draws);
      var toPlot := [];
      for t := 0 to |indices|
        invariant |toPlot| == t
        invariant forall u :: 0 <= u < t ==> toPlot[u] == BitTrajectory(n, indices[u])
      {
        toPlot := toPlot + [allTraj[indices[t]]];
      }
      forall a, b | 0 <= a < b < |toPlot| ensures toPlot[a] != toPlot[b] {
        if toPlot[a] == toPlot[b] {
          BitTrajectoryInjective(n, indices[a], indices[b]);
        }
      }
      return Plotted(toPlot);
    }
    return Plotted(allTraj);
  }
}
