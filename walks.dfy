/**
  Integer walks: a walk is the sequence of running sums of its steps, starting
  at 0. Both discrete scripts build their trajectories this way (`cum.push(s)`
  after `s += step`).
 */
module Walks {

  /** Sum of a sequence, adding from the left as a running total does. */
  function Sum(s: seq<int>): int {
    if s == [] then 0 else Sum(s[..|s| - 1]) + s[|s| - 1]
  }

  /** Sum of a sequence of reals, adding from the left. */
  function RealSum(s: seq<real>): real {
    if s == [] then 0.0 else RealSum(s[..|s| - 1]) + s[|s| - 1]
  }

  lemma {:induction false} RealSumSnoc(s: seq<real>, x: real)
    ensures RealSum(s + [x]) == RealSum(s) + x
  {
    assert (s + [x])[..|s|] == s;
  }

  /** The running sums 0, s[0], s[0] + s[1], ... of the steps. */
  function Cumulative(steps: seq<int>): (cum: seq<int>)
    ensures |cum| == |steps| + 1
    ensures cum[0] == 0
    ensures cum[|steps|] == Sum(steps)
  {
    if steps == [] then [0]
    else
      var prev := Cumulative(steps[..|steps| - 1]);
      prev + [prev[|prev| - 1] + steps[|steps| - 1]]
  }

  /** The running sums 0.0, s[0], s[0] + s[1], ... of real steps. */
  function RealCumulative(steps: seq<real>): (cum: seq<real>)
    ensures |cum| == |steps| + 1
    ensures cum[0] == 0.0
    ensures cum[|steps|] == RealSum(steps)
  {
    if steps == [] then [0.0]
    else
      var prev := RealCumulative(steps[..|steps| - 1]);
      prev + [prev[|prev| - 1] + steps[|steps| - 1]]
  }

  lemma {:induction false} RealCumulativeStep(steps: seq<real>, i: nat)
    requires i < |steps|
    ensures RealCumulative(steps)[i + 1] - RealCumulative(steps)[i] == steps[i]
  {
    var init := steps[..|steps| - 1];
    if i < |steps| - 1 {
      RealCumulativeStep(init, i);
      assert init[i] == steps[i];
    }
  }

  lemma {:induction false} RealCumulativeSnoc(steps: seq<real>, x: real)
    ensures RealCumulative(steps + [x]) == RealCumulative(steps) + [RealSum(steps) + x]
  {
    var t := steps + [x];
    assert t[..|t| - 1] == steps;
    var prev := RealCumulative(steps);
    assert prev[|prev| - 1] == RealSum(steps);
    assert RealCumulative(t) == prev + [prev[|prev| - 1] + x];
  }

  /** Number of occurrences of x in s. */
  function Count(s: seq<int>, x: int): nat {
    if s == [] then 0 else Count(s[..|s| - 1], x) + (if s[|s| - 1] == x then 1 else 0)
  }

  /** Consecutive entries of a walk differ by exactly the step taken between them. */
  lemma {:induction false} CumulativeStep(steps: seq<int>, i: nat)
    requires i < |steps|
    ensures Cumulative(steps)[i + 1] - Cumulative(steps)[i] == steps[i]
  {
    var init := steps[..|steps| - 1];
    if i < |steps| - 1 {
      CumulativeStep(init, i);
      assert init[i] == steps[i];
    }
  }

  /** A walk is determined by its steps and determines them. */
  lemma {:induction false} CumulativeInjective(a: seq<int>, b: seq<int>)
    requires Cumulative(a) == Cumulative(b)
    ensures a == b
  {
    assert |a| == |b|;
    forall i | 0 <= i < |a| ensures a[i] == b[i] {
      CumulativeStep(a, i);
      CumulativeStep(b, i);
    }
  }

  /** Extending the steps by one extends the walk by its new end point. */
  lemma {:induction false} CumulativeSnoc(steps: seq<int>, x: int)
    ensures Cumulative(steps + [x]) == Cumulative(steps) + [Sum(steps) + x]
  {
    var t := steps + [x];
    assert t[..|t| - 1] == steps;
    var prev := Cumulative(steps);
    assert prev[|prev| - 1] == Sum(steps);
    assert Cumulative(t) == prev + [prev[|prev| - 1] + x];
  }

  lemma {:induction false} SumSnoc(s: seq<int>, x: int)
    ensures Sum(s + [x]) == Sum(s) + x
  {
    assert (s + [x])[..|s|] == s;
  }

  lemma {:induction false} CountSnoc(s: seq<int>, x: int, y: int)
    ensures Count(s + [x], y) == Count(s, y) + (if x == y then 1 else 0)
  {
    assert (s + [x])[..|s|] == s;
  }

  /** A walk whose steps are never negative never decreases. */
  lemma {:induction false} NonNegativeStepsNonDecreasing(steps: seq<int>)
    requires forall i :: 0 <= i < |steps| ==> steps[i] >= 0
    ensures forall i, j :: 0 <= i <= j <= |steps| ==> Cumulative(steps)[i] <= Cumulative(steps)[j]
  {
    if steps != [] {
      var init := steps[..|steps| - 1];
      NonNegativeStepsNonDecreasing(init);
      var c := Cumulative(steps);
      assert c[..|steps|] == Cumulative(init);
      CumulativeStep(steps, |steps| - 1);
    }
  }

  lemma {:induction false} SumOfZeros(s: seq<int>)
    requires forall i :: 0 <= i < |s| ==> s[i] == 0
    ensures Sum(s) == 0
  {
    if s != [] {
      SumOfZeros(s[..|s| - 1]);
    }
  }

  /** A sum of 0/1 steps lies between 0 and the number of steps. */
  lemma {:induction false} ZeroOneSumBounds(s: seq<int>)
    requires forall i :: 0 <= i < |s| ==> s[i] == 0 || s[i] == 1
    ensures 0 <= Sum(s) <= |s|
  {
    if s != [] {
      ZeroOneSumBounds(s[..|s| - 1]);
    }
  }

  /** Incrementing one entry of a sequence increments its sum by one. */
  lemma {:induction false} SumIncrement(s: seq<int>, k: nat)
    requires k < |s|
    ensures Sum(s[k := s[k] + 1]) == Sum(s) + 1
  {
    var t := s[k := s[k] + 1];
    if k == |s| - 1 {
      assert t[..|t| - 1] == s[..|s| - 1];
    } else {
      SumIncrement(s[..|s| - 1], k);
      assert t[..|t| - 1] == s[..|s| - 1][k := s[k] + 1];
    }
  }
}
