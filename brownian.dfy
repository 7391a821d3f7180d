/**
  renderer11.js: arithmetic Brownian motion dX = mu dt + sigma dW on [0, T]
  with N steps. TRAJECTORIES_TOTAL paths are simulated, the first
  TRAJECTORIES_FAN are kept for display, and the final values are put into
  an equal-width histogram of HISTOGRAM_BINS bins over their padded range.

  The standard normal draws of `randn_bm` are given as a sequence z, and
  `Math.sqrt(dt)` as a number sqrtDt; only the variance lemma needs its
  square to be dt. Numbers are exact reals; IEEE rounding is not modelled.
 */
module Brownian {
  import opened JsNumbers
  import opened Walks

  const TRAJECTORIES_TOTAL: nat := 5000
  const TRAJECTORIES_FAN: nat := 50
  const HISTOGRAM_BINS: nat := 40

  /** The increments `driftTerm + volTerm * dW` of one path. */
  function Increments(driftTerm: real, volTerm: real, z: seq<real>): seq<real> {
    seq(|z|, i requires 0 <= i < |z| => driftTerm + volTerm * z[i])
  }

  lemma {:induction false} IncrementsSnoc(driftTerm: real, volTerm: real, z: seq<real>)
    requires z != []
    ensures Increments(driftTerm, volTerm, z)
      == Increments(driftTerm, volTerm, z[..|z| - 1]) + [driftTerm + volTerm * z[|z| - 1]]
  {
    var a, b := Increments(driftTerm, volTerm, z), Increments(driftTerm, volTerm, z[..|z| - 1]);
    var c := b + [driftTerm + volTerm * z[|z| - 1]];
    assert |a| == |c|;
    forall i | 0 <= i < |z| ensures a[i] == c[i] {
      if i < |z| - 1 {
        assert z[..|z| - 1][i] == z[i];
        assert c[i] == b[i];
      }
    }
  }

  /** The increments add up to |z| drift terms plus volTerm times the sum of the draws. */
  lemma {:induction false} IncrementsSum(driftTerm: real, volTerm: real, z: seq<real>)
    ensures RealSum(Increments(driftTerm, volTerm, z)) == |z| as real * driftTerm + volTerm * RealSum(z)
  {
    if z != [] {
      var init := z[..|z| - 1];
      IncrementsSum(driftTerm, volTerm, init);
      IncrementsSnoc(driftTerm, volTerm, z);
      var k, s, x := |init| as real, RealSum(init), z[|z| - 1];
      assert (k + 1.0) * driftTerm == k * driftTerm + driftTerm;
      assert volTerm * (s + x) == volTerm * s + volTerm * x;
    }
  }

  /** `mu * dt` with dt = T / N */
  function DriftTerm(T: real, N: nat, mu: real): real
    requires N >= 1
  {
    mu * (T / N as real)
  }

  /** `sigma * Math.sqrt(dt)` */
  function VolTerm(sigma: real, sqrtDt: real): real {
    sigma * sqrtDt
  }

  /** The path of one run: the running sums of its increments. */
  function BrownianPath(T: real, N: nat, mu: real, sigma: real, sqrtDt: real, z: seq<real>): seq<real>
    requires N >= 1
  {
    RealCumulative(Increments(DriftTerm(T, N, mu), VolTerm(sigma, sqrtDt), z))
  }

  /** `simulateBrownianPath(T, N, mu, sigma)` with the draws z of its N calls to `randn_bm`.
      What the path means is stated about BrownianPath by PathSteps and FinalValueOfPath. */
  method SimulateBrownianPath(T: real, N: nat, mu: real, sigma: real, sqrtDt: real, z: seq<real>)
    returns (path: seq<real>, finalVal: real)
    requires N >= 1 && |z| == N
    ensures path == BrownianPath(T, N, mu, sigma, sqrtDt, z)
    ensures |path| == N + 1 && path[0] == 0.0 && finalVal == path[N]
  {
    var dt := T / N as real;
    var volTerm := sigma * sqrtDt;
    var driftTerm := mu * dt;
    assert driftTerm == DriftTerm(T, N, mu) && volTerm == VolTerm(sigma, sqrtDt);
    ghost var incs := Increments(driftTerm, volTerm, z);
    assert incs == Increments(DriftTerm(T, N, mu), VolTerm(sigma, sqrtDt), z);
    path := [0.0];
    var currentVal := 0.0;
    for i := 0 to N
      invariant path == RealCumulative(incs[..i])
      invariant currentVal == RealSum(incs[..i])
    {
      PathLoopStep(driftTerm, volTerm, z, i);
      currentVal := currentVal + (driftTerm + volTerm * z[i]);
      path := path + [currentVal];
    }
    assert incs[..N] == incs;
    finalVal := currentVal;
  }

  /** One pass of the loop of SimulateBrownianPath appends the running sum plus the next increment. */
  lemma {:induction false} PathLoopStep(driftTerm: real, volTerm: real, z: seq<real>, i: nat)
    requires i < |z|
    ensures var incs := Increments(driftTerm, volTerm, z);
      && RealSum(incs[..i + 1]) == RealSum(incs[..i]) + (driftTerm + volTerm * z[i])
      && RealCumulative(incs[..i + 1]) == RealCumulative(incs[..i]) + [RealSum(incs[..i]) + (driftTerm + volTerm * z[i])]
  {
    var incs := Increments(driftTerm, volTerm, z);
    assert incs[..i + 1] == incs[..i] + [incs[i]];
    RealCumulativeSnoc(incs[..i], incs[i]);
    RealSumSnoc(incs[..i], incs[i]);
  }

  /** Each step of the path is one increment. */
  lemma {:induction false} PathSteps(T: real, N: nat, mu: real, sigma: real, sqrtDt: real, z: seq<real>)
    requires N >= 1
    ensures var path := BrownianPath(T, N, mu, sigma, sqrtDt, z);
      forall i :: 0 <= i < |z| ==> path[i + 1] - path[i] == DriftTerm(T, N, mu) + VolTerm(sigma, sqrtDt) * z[i]
  {
    var incs := Increments(DriftTerm(T, N, mu), VolTerm(sigma, sqrtDt), z);
    forall i | 0 <= i < |z|
      ensures RealCumulative(incs)[i + 1] - RealCumulative(incs)[i] == incs[i]
    {
      RealCumulativeStep(incs, i);
    }
  }

  /** The final value is mu T plus the volatility term times the sum of the draws. */
  lemma {:induction false} FinalValueOfPath(T: real, N: nat, mu: real, sigma: real, sqrtDt: real, z: seq<real>)
    requires N >= 1 && |z| == N
    ensures BrownianPath(T, N, mu, sigma, sqrtDt, z)[N] == mu * T + VolTerm(sigma, sqrtDt) * RealSum(z)
  {
    IncrementsSum(DriftTerm(T, N, mu), VolTerm(sigma, sqrtDt), z);
    DriftAddsUp(T, N, mu);
  }

  lemma {:induction false} DriftAddsUp(T: real, N: nat, mu: real)
    requires N >= 1
    ensures N as real * DriftTerm(T, N, mu) == mu * T
  {
    var n := N as real;
    assert n * (T / n) == T;
    assert n * (mu * (T / n)) == mu * (n * (T / n));
  }

  /**
    The overlay N(mu T, (sigma sqrt(T))^2) has the mean and the variance of the
    final value for independent standard normal draws: N drift terms add up to
    mu T, and N squared volatility terms add up to sigma^2 T.
   */
  lemma {:induction false} TheoryMatchesPath(T: real, N: nat, mu: real, sigma: real, sqrtDt: real, sqrtT: real)
    requires N >= 1
    requires 0.0 <= sqrtDt && sqrtDt * sqrtDt == T / N as real
    requires 0.0 <= sqrtT && sqrtT * sqrtT == T
    ensures N as real * DriftTerm(T, N, mu) == mu * T
    ensures N as real * (VolTerm(sigma, sqrtDt) * VolTerm(sigma, sqrtDt)) == (sigma * sqrtT) * (sigma * sqrtT)
  {
    DriftAddsUp(T, N, mu);
    var n, s2 := N as real, sigma * sigma;
    assert (sigma * sqrtDt) * (sigma * sqrtDt) == s2 * (sqrtDt * sqrtDt);
    assert (sigma * sqrtT) * (sigma * sqrtT) == s2 * (sqrtT * sqrtT);
    assert n * (T / n) == T;
    assert n * (s2 * (T / n)) == s2 * (n * (T / n));
  }

  /** `Math.min(...values)` */
  function SeqMin(values: seq<real>): (m: real)
    requires |values| > 0
    ensures m in values
    ensures forall i :: 0 <= i < |values| ==> m <= values[i]
  {
    if |values| == 1 then values[0]
    else
      var rest := SeqMin(values[..|values| - 1]);
      if values[|values| - 1] < rest then values[|values| - 1] else rest
  }

  /** `Math.max(...values)` */
  function SeqMax(values: seq<real>): (m: real)
    requires |values| > 0
    ensures m in values
    ensures forall i :: 0 <= i < |values| ==> values[i] <= m
  {
    if |values| == 1 then values[0]
    else
      var rest := SeqMax(values[..|values| - 1]);
      if values[|values| - 1] > rest then values[|values| - 1] else rest
  }

  /**
    The bin of value v: `Math.floor((v - minVal) / binWidth)` clamped into
    0 .. HISTOGRAM_BINS - 1. When binWidth is 0 and v is minVal the quotient is
    NaN, no clamp applies, and `bins[NaN]++` touches no bin: None.
   */
  function BinIndex(v: real, minVal: real, binWidth: real): (b: Option<int>)
    ensures b.Some? ==> 0 <= b.value < HISTOGRAM_BINS
    ensures b.None? <==> binWidth == 0.0 && v == minVal
  {
    var raw := Floor(Divide(v - minVal, binWidth));
    var low := if Less(raw, Num(0.0)) then Num(0.0) else raw;
    var idx := if AtLeast(low, Num(HISTOGRAM_BINS as real)) then Num((HISTOGRAM_BINS - 1) as real) else low;
    if idx.Num? then Some(idx.v.Floor) else None
  }

  lemma {:induction false} MulMono(a: real, b: real, w: real)
    requires w > 0.0 && a <= b
    ensures a * w <= b * w
  {
    assert (b - a) * w >= 0.0;
  }

  lemma {:induction false} MulStrictMono(a: real, b: real, w: real)
    requires w > 0.0 && a < b
    ensures a * w < b * w
  {
    assert (b - a) * w > 0.0;
  }

  /** x / w rounds down to i exactly when x lies in [i w, (i + 1) w). */
  lemma {:induction false} FloorOfQuotient(x: real, w: real, i: int)
    requires w > 0.0 && i as real * w <= x < (i + 1) as real * w
    ensures (x / w).Floor == i
  {
    var q := x / w;
    assert q * w == x;
    FloorBetween(q, w, i);
  }

  /** When q w lies in [i w, (i + 1) w) for a positive w, q rounds down to i. */
  lemma {:induction false} FloorBetween(q: real, w: real, i: int)
    requires w > 0.0 && i as real * w <= q * w < (i + 1) as real * w
    ensures q.Floor == i
  {
    if q < i as real {
      MulStrictMono(q, i as real, w);
      assert false;
    }
    if (i + 1) as real <= q {
      MulMono((i + 1) as real, q, w);
      assert false;
    }
  }

  /** A value in [minVal + i w, minVal + (i + 1) w) is counted in bin i. */
  lemma {:induction false} BinOfHalfOpenInterval(v: real, minVal: real, binWidth: real, i: int)
    requires binWidth > 0.0 && 0 <= i < HISTOGRAM_BINS
    requires minVal + i as real * binWidth <= v < minVal + (i + 1) as real * binWidth
    ensures BinIndex(v, minVal, binWidth) == Some(i)
  {
    FloorOfQuotient(v - minVal, binWidth, i);
    assert Floor(Divide(v - minVal, binWidth)) == Num(i as real);
  }

  /** Number of values whose bin is b. */
  function CountInBin(values: seq<real>, minVal: real, binWidth: real, b: int): nat {
    if values == [] then 0
    else
      var hit := if BinIndex(values[|values| - 1], minVal, binWidth) == Some(b) then 1 else 0;
      CountInBin(values[..|values| - 1], minVal, binWidth, b) + hit
  }

  /** Number of values that land in some bin. */
  function Placed(values: seq<real>, minVal: real, binWidth: real): nat {
    if values == [] then 0
    else
      var hit := if BinIndex(values[|values| - 1], minVal, binWidth).Some? then 1 else 0;
      Placed(values[..|values| - 1], minVal, binWidth) + hit
  }

  /** With a positive width every value is placed; with zero width, if every value is minVal, none is. */
  lemma {:induction false} PlacedCount(values: seq<real>, minVal: real, binWidth: real)
    ensures binWidth > 0.0 ==> Placed(values, minVal, binWidth) == |values|
    ensures binWidth == 0.0 && (forall i :: 0 <= i < |values| ==> values[i] == minVal) ==> Placed(values, minVal, binWidth) == 0
  {
    if values != [] {
      PlacedCount(values[..|values| - 1], minVal, binWidth);
    }
  }

  /** Bin b counts the values seen so far whose bin is b. */
  predicate BinsCount(bins: seq<int>, values: seq<real>, minVal: real, binWidth: real) {
    |bins| == HISTOGRAM_BINS && forall b :: 0 <= b < HISTOGRAM_BINS ==> bins[b] == CountInBin(values, minVal, binWidth, b)
  }

  /** `bins[binIdx]++` for the next value keeps the bins counting. */
  lemma {:induction false} BinsStep(bins: seq<int>, values: seq<real>, v: real, minVal: real, binWidth: real)
    requires BinsCount(bins, values, minVal, binWidth) && Sum(bins) == Placed(values, minVal, binWidth)
    ensures var idx := BinIndex(v, minVal, binWidth);
      idx.Some? ==>
        BinsCount(bins[idx.value := bins[idx.value] + 1], values + [v], minVal, binWidth) &&
        Sum(bins[idx.value := bins[idx.value] + 1]) == Placed(values + [v], minVal, binWidth)
    ensures BinIndex(v, minVal, binWidth).None? ==>
      BinsCount(bins, values + [v], minVal, binWidth) && Sum(bins) == Placed(values + [v], minVal, binWidth)
  {
    assert (values + [v])[..|values|] == values;
    var idx := BinIndex(v, minVal, binWidth);
    if idx.Some? {
      SumIncrement(bins, idx.value);
    }
  }

  /** The centre `minVal + (i + 0.5) * binWidth` of bin i. */
  function BinCenter(minVal: real, binWidth: real, i: int): real {
    minVal + (i as real + 0.5) * binWidth
  }

  /**
    The histogram block of `runSimulation`: the range of the final values is
    padded by 5% on each side, cut into HISTOGRAM_BINS bins of equal width
    with their centres, and every value is counted in its bin.
   */
  method BuildHistogram(finalValues: seq<real>)
    returns (minVal: real, maxVal: real, binWidth: real, binCenters: seq<real>, bins: seq<int>)
    requires |finalValues| > 0
    ensures minVal == SeqMin(finalValues) - (SeqMax(finalValues) - SeqMin(finalValues)) * 0.05
    ensures maxVal == SeqMax(finalValues) + (SeqMax(finalValues) - SeqMin(finalValues)) * 0.05
    ensures forall i :: 0 <= i < |finalValues| ==> minVal <= finalValues[i] <= maxVal
    ensures binWidth == (maxVal - minVal) / HISTOGRAM_BINS as real && binWidth >= 0.0
    ensures |binCenters| == HISTOGRAM_BINS
    ensures forall i :: 0 <= i < HISTOGRAM_BINS ==> binCenters[i] == BinCenter(minVal, binWidth, i)
    ensures BinsCount(bins, finalValues, minVal, binWidth)
    ensures binWidth == 0.0 <==> forall i :: 0 <= i < |finalValues| ==> finalValues[i] == SeqMin(finalValues)
    ensures binWidth > 0.0 ==> Sum(bins) == |finalValues|
    ensures binWidth == 0.0 ==> Sum(bins) == 0
  {
    minVal := SeqMin(finalValues);
    maxVal := SeqMax(finalValues);
    var range := maxVal - minVal;
    minVal := minVal - range * 0.05;
    maxVal := maxVal + range * 0.05;

    binWidth := (maxVal - minVal) / HISTOGRAM_BINS as real;
    binCenters := [];

    for i := 0 to HISTOGRAM_BINS
      invariant |binCenters| == i
      invariant forall j :: 0 <= j < i ==> binCenters[j] == BinCenter(minVal, binWidth, j)
    {
      var center := minVal + (i as real + 0.5) * binWidth;
      assert center == BinCenter(minVal, binWidth, i);
      binCenters := binCenters + [center];
    }

    bins := FillBins(finalValues, minVal, binWidth);
    PlacedCount(finalValues, minVal, binWidth);
    ZeroWidthMeansConstant(finalValues, minVal, maxVal);
  }

  /** The "Fill bins" loop of `runSimulation`. */
  method FillBins(finalValues: seq<real>, minVal: real, binWidth: real) returns (bins: seq<int>)
    ensures BinsCount(bins, finalValues, minVal, binWidth)
    ensures Sum(bins) == Placed(finalValues, minVal, binWidth)
  {
    var binsArr := new int[HISTOGRAM_BINS](_ => 0);
    SumOfZeros(binsArr[..]);
    for r := 0 to |finalValues|
      invariant BinsCount(binsArr[..], finalValues[..r], minVal, binWidth)
      invariant Sum(binsArr[..]) == Placed(finalValues[..r], minVal, binWidth)
    {
      assert finalValues[..r + 1] == finalValues[..r] + [finalValues[r]];
      PlaceValue(binsArr, finalValues[r], minVal, binWidth, finalValues[..r]);
    }
    assert finalValues[..|finalValues|] == finalValues;
    bins := binsArr[..];
  }

  /** One pass of the "Fill bins" loop: the clamped `Math.floor((v - minVal) / binWidth)` and `bins[binIdx]++`. */
  method PlaceValue(binsArr: array<int>, v: real, minVal: real, binWidth: real, ghost seen: seq<real>)
    requires BinsCount(binsArr[..], seen, minVal, binWidth)
    requires Sum(binsArr[..]) == Placed(seen, minVal, binWidth)
    modifies binsArr
    ensures BinsCount(binsArr[..], seen + [v], minVal, binWidth)
    ensures Sum(binsArr[..]) == Placed(seen + [v], minVal, binWidth)
  {
    var binIdx := Floor(Divide(v - minVal, binWidth));
    if Less(binIdx, Num(0.0)) {
      binIdx := Num(0.0);
    }
    if AtLeast(binIdx, Num(HISTOGRAM_BINS as real)) {
      binIdx := Num((HISTOGRAM_BINS - 1) as real);
    }
    ghost var before := binsArr[..];
    BinsStep(before, seen, v, minVal, binWidth);
    if binIdx.Num? {
      var b := binIdx.v.Floor;
      assert BinIndex(v, minVal, binWidth) == Some(b);
      binsArr[b] := binsArr[b] + 1;
      assert binsArr[..] == before[b := before[b] + 1];
    }
  }

  /** The bin centres strictly increase when the bins have positive width. */
  lemma {:induction false} CentersIncrease(minVal: real, binWidth: real, i: int, j: int)
    requires binWidth > 0.0 && i < j
    ensures BinCenter(minVal, binWidth, i) < BinCenter(minVal, binWidth, j)
  {
    MulStrictMono(i as real + 0.5, j as real + 0.5, binWidth);
  }

  /** The padded range is empty only when every final value is the same. */
  lemma {:induction false} ZeroWidthMeansConstant(finalValues: seq<real>, minVal: real, maxVal: real)
    requires |finalValues| > 0
    requires minVal == SeqMin(finalValues) - (SeqMax(finalValues) - SeqMin(finalValues)) * 0.05
    requires maxVal == SeqMax(finalValues) + (SeqMax(finalValues) - SeqMin(finalValues)) * 0.05
    ensures (maxVal - minVal) / HISTOGRAM_BINS as real == 0.0 <==>
      forall i :: 0 <= i < |finalValues| ==> finalValues[i] == SeqMin(finalValues)
  {
    var lo, hi := SeqMin(finalValues), SeqMax(finalValues);
    assert maxVal - minVal == (hi - lo) * 1.1;
    if hi != lo {
      assert hi in finalValues;
    }
  }

  /** `runSimulation()` after validation, for finite T, N and sigma. */
  method RunSimulation(T: real, N: nat, mu: real, sigma: real, sqrtDt: real, zs: seq<seq<real>>)
    returns (finalValues: seq<real>, fan: seq<seq<real>>, minVal: real, maxVal: real, binWidth: real,
             binCenters: seq<real>, bins: seq<int>)
    requires N >= 1
    requires |zs| == TRAJECTORIES_TOTAL
    requires forall r :: 0 <= r < |zs| ==> |zs[r]| == N
    ensures |finalValues| == TRAJECTORIES_TOTAL
    ensures forall r :: 0 <= r < TRAJECTORIES_TOTAL ==> finalValues[r] == BrownianPath(T, N, mu, sigma, sqrtDt, zs[r])[N]
    ensures |fan| == TRAJECTORIES_FAN
    ensures forall r :: 0 <= r < TRAJECTORIES_FAN ==> fan[r] == BrownianPath(T, N, mu, sigma, sqrtDt, zs[r])
    ensures minVal == SeqMin(finalValues) - (SeqMax(finalValues) - SeqMin(finalValues)) * 0.05
    ensures maxVal == SeqMax(finalValues) + (SeqMax(finalValues) - SeqMin(finalValues)) * 0.05
    ensures forall i :: 0 <= i < |finalValues| ==> minVal <= finalValues[i] <= maxVal
    ensures binWidth == (maxVal - minVal) / HISTOGRAM_BINS as real && binWidth >= 0.0
    ensures binWidth == 0.0 <==> forall i :: 0 <= i < |finalValues| ==> finalValues[i] == SeqMin(finalValues)
    ensures |binCenters| == HISTOGRAM_BINS
    ensures forall i :: 0 <= i < HISTOGRAM_BINS ==> binCenters[i] == BinCenter(minVal, binWidth, i)
    ensures BinsCount(bins, finalValues, minVal, binWidth)
    ensures binWidth > 0.0 ==> Sum(bins) == TRAJECTORIES_TOTAL
    ensures binWidth == 0.0 ==> Sum(bins) == 0
  {
    finalValues := [];
    fan := [];
    for r := 0 to TRAJECTORIES_TOTAL
      invariant |finalValues| == r
      invariant forall t :: 0 <= t < r ==> finalValues[t] == BrownianPath(T, N, mu, sigma, sqrtDt, zs[t])[N]
      invariant |fan| == (if r < TRAJECTORIES_FAN then r else TRAJECTORIES_FAN)
      invariant forall t :: 0 <= t < |fan| ==> fan[t] == BrownianPath(T, N, mu, sigma, sqrtDt, zs[t])
    {
      var path, finalVal := SimulateBrownianPath(T, N, mu, sigma, sqrtDt, zs[r]);
      finalValues := finalValues + [finalVal];
      if r < TRAJECTORIES_FAN {
        fan := fan + [path];
      }
    }
    minVal, maxVal, binWidth, binCenters, bins := BuildHistogram(finalValues);
  }

  /** The sanitised inputs of `validateInputs()`. */
  datatype Inputs = Inputs(T: JsNumber, N: JsNumber, mu: JsNumber, sigma: JsNumber)

  /** `Math.abs(x) || fallback`: a positive magnitude, with 0 and NaN replaced by the fallback. */
  function PositiveOr(x: JsNumber, fallback: real): (r: JsNumber)
    requires fallback > 0.0
    ensures (r.Num? && r.v > 0.0) || r.PosInf?
    ensures x.NaN? || x == Num(0.0) ==> r == Num(fallback)
    ensures x.Num? && x.v != 0.0 ==> r == Num(if x.v < 0.0 then -x.v else x.v)
    ensures x.PosInf? || x.NegInf? ==> r.PosInf?
  {
    Or(Abs(x), Num(fallback))
  }

  /**
    `validateInputs()`: T and sigma become positive (10 and 1 when the input
    is 0 or not a number), N an integer of at least 1 (100 when not a number)
    and mu a number (0 when not a number). Infinite inputs stay infinite.
   */
  function ValidateInputs(tIn: JsNumber, nIn: JsNumber, muIn: JsNumber, sigmaIn: JsNumber): (r: Inputs)
    ensures (r.T.Num? && r.T.v > 0.0) || r.T.PosInf?
    ensures tIn.NaN? || tIn == Num(0.0) ==> r.T == Num(10.0)
    ensures (r.N.Num? && IsIntegral(r.N.v) && r.N.v >= 1.0) || r.N.PosInf?
    ensures nIn.NaN? ==> r.N == Num(100.0)
    ensures nIn.Num? && nIn.v >= 1.0 ==> r.N == Num(nIn.v.Floor as real)
    ensures nIn.Num? && nIn.v < 1.0 ==> r.N == Num(1.0)
    ensures !r.mu.NaN?
    ensures muIn.NaN? ==> r.mu == Num(0.0)
    ensures !muIn.NaN? ==> r.mu == muIn
    ensures (r.sigma.Num? && r.sigma.v > 0.0) || r.sigma.PosInf?
    ensures sigmaIn.NaN? || sigmaIn == Num(0.0) ==> r.sigma == Num(1.0)
  {
    Inputs(
      PositiveOr(tIn, 10.0),
      Or(Max(Num(1.0), Floor(nIn)), Num(100.0)),
      Or(muIn, Num(0.0)),
      PositiveOr(sigmaIn, 1.0))
  }
}
