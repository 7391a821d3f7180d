/**
  renderer.js, histogram side: every click on a plot button runs n trials and
  appends a record {n, freq = successes / n} to `histData`, which is kept sorted
  by n; the chart shows each freq and the mean of all of them. The module-level
  variables `currentN`, `currentP` and `histData` form a small state machine
  driven by the two input listeners and the three buttons.

  The pure functions below (BeforePlot, AddColumn, Click, Clear, NInput,
  PInput) describe each transition on a Session value; the class HistogramPage
  holds the same three variables as fields and its methods perform the
  transitions in place.
 */
module FrequencyHistogram {
  import opened JsNumbers
  import opened Walks
  import opened BernoulliWalks

  /** One histogram column: `{ n, freq }`. */
  datatype Record = Record(n: int, freq: JsNumber)

  /** `successes / n`, where successes counts the hits among the trials. */
  function Frequency(successes: int, n: int): (f: JsNumber)
    ensures 1 <= n && 0 <= successes <= n ==> f.Num? && 0.0 <= f.v <= 1.0
    ensures n == 0 && successes == 0 ==> f.NaN?
    ensures n == 0 && successes > 0 ==> f.PosInf?
    ensures n != 0 ==> f == Num(successes as real / n as real)
  {
    if n == 0 then (if successes == 0 then NaN else PosInf)
    else if 1 <= n && 0 <= successes <= n then
      RatioInUnitInterval(successes as real, n as real);
      Num(successes as real / n as real)
    else Num(successes as real / n as real)
  }

  /** A part over a positive whole lies in [0, 1]. */
  lemma {:induction false} RatioInUnitInterval(part: real, whole: real)
    requires 0.0 <= part <= whole && whole > 0.0
    ensures 0.0 <= part / whole <= 1.0
  {
    var q := part / whole;
    assert q * whole == part;
    assert (1.0 - q) * whole == whole - part;
  }

  predicate SortedByN(h: seq<Record>) {
    forall i, j :: 0 <= i < j < |h| ==> h[i].n <= h[j].n
  }

  /** Where rec goes in a sorted h under a stable sort: after every record whose n is not greater. */
  function InsertByN(h: seq<Record>, rec: Record): seq<Record> {
    if h == [] || h[|h| - 1].n <= rec.n then h + [rec]
    else InsertByN(h[..|h| - 1], rec) + [h[|h| - 1]]
  }

  /**
    `sort((a, b) => a.n - b.n)`: a stable sort by n. Array.prototype.sort is
    stable, and the stable sort of a sequence is the one insertion sort computes.
   */
  function SortByN(h: seq<Record>): seq<Record> {
    if h == [] then [] else InsertByN(SortByN(h[..|h| - 1]), h[|h| - 1])
  }

  lemma {:induction false} InsertByNPermutes(h: seq<Record>, rec: Record)
    ensures multiset(InsertByN(h, rec)) == multiset(h) + multiset{rec}
  {
    if h != [] && h[|h| - 1].n > rec.n {
      var init := h[..|h| - 1];
      InsertByNPermutes(init, rec);
      assert h == init + [h[|h| - 1]];
    }
  }

  lemma {:induction false} InsertByNSorted(h: seq<Record>, rec: Record)
    requires SortedByN(h)
    ensures SortedByN(InsertByN(h, rec))
  {
    if h != [] && h[|h| - 1].n > rec.n {
      var init, last := h[..|h| - 1], h[|h| - 1];
      InsertByNSorted(init, rec);
      InsertByNPermutes(init, rec);
      var r := InsertByN(init, rec);
      forall i | 0 <= i < |r| ensures r[i].n <= last.n {
        assert r[i] in multiset(r);
        assert r[i] in multiset(init) || r[i] == rec;
      }
    }
  }

  /** The insertion keeps the old records in their order, with rec between them. */
  lemma {:induction false} InsertByNSplits(h: seq<Record>, rec: Record)
    ensures exists k :: 0 <= k <= |h| && InsertByN(h, rec) == h[..k] + [rec] + h[k..]
  {
    if h == [] || h[|h| - 1].n <= rec.n {
      assert InsertByN(h, rec) == h[..|h|] + [rec] + h[|h|..];
    } else {
      var init := h[..|h| - 1];
      InsertByNSplits(init, rec);
      var k :| 0 <= k <= |init| && InsertByN(init, rec) == init[..k] + [rec] + init[k..];
      assert InsertByN(h, rec) == InsertByN(init, rec) + [h[|h| - 1]];
      assert h == init + [h[|h| - 1]];
      assert h[..k] == init[..k];
      assert init[k..] + [h[|h| - 1]] == h[k..];
      assert InsertByN(h, rec) == h[..k] + [rec] + h[k..];
    }
  }

  lemma {:induction false} SortByNSorts(h: seq<Record>)
    ensures SortedByN(SortByN(h))
  {
    if h != [] {
      SortByNSorts(h[..|h| - 1]);
      InsertByNSorted(SortByN(h[..|h| - 1]), h[|h| - 1]);
    }
  }

  lemma {:induction false} SortByNPermutes(h: seq<Record>)
    ensures multiset(SortByN(h)) == multiset(h)
  {
    if h != [] {
      var init := h[..|h| - 1];
      SortByNPermutes(init);
      InsertByNPermutes(SortByN(init), h[|h| - 1]);
      assert h == init + [h[|h| - 1]];
    }
  }

  lemma {:induction false} SortSingleton(rec: Record)
    ensures SortByN([] + [rec]) == [rec]
  {
    assert [rec][..0] == [];
  }

  /** Sorting an already sorted history changes nothing. */
  lemma {:induction false} SortByNKeepsSorted(h: seq<Record>)
    requires SortedByN(h)
    ensures SortByN(h) == h
  {
    if h != [] {
      var init, last := h[..|h| - 1], h[|h| - 1];
      assert SortedByN(init) by {
        forall i, j | 0 <= i < j < |init| ensures init[i].n <= init[j].n {
          assert init[i] == h[i] && init[j] == h[j];
        }
      }
      SortByNKeepsSorted(init);
      assert SortByN(h) == InsertByN(init, last);
      if init != [] {
        assert init[|init| - 1] == h[|h| - 2];
      }
      assert InsertByN(init, last) == init + [last];
      assert h == init + [last];
    }
  }

  /** push followed by sort, on a sorted history, is the insertion of the new record. */
  lemma {:induction false} PushThenSort(h: seq<Record>, rec: Record)
    requires SortedByN(h)
    ensures SortByN(h + [rec]) == InsertByN(h, rec)
    ensures SortedByN(SortByN(h + [rec]))
    ensures multiset(SortByN(h + [rec])) == multiset(h) + multiset{rec}
  {
    assert (h + [rec])[..|h|] == h;
    SortByNKeepsSorted(h);
    InsertByNSorted(h, rec);
    InsertByNPermutes(h, rec);
  }

  /** `histData.reduce((sum, d) => sum + d.freq, 0)` */
  function FreqTotal(h: seq<Record>): JsNumber {
    if h == [] then Num(0.0) else Add(FreqTotal(h[..|h| - 1]), h[|h| - 1].freq)
  }

  /** `... / histData.length` */
  function MeanFreq(h: seq<Record>): JsNumber
    requires |h| > 0
  {
    DivByCount(FreqTotal(h), |h|)
  }

  predicate FreqsInUnitInterval(h: seq<Record>) {
    forall i :: 0 <= i < |h| ==> h[i].freq.Num? && 0.0 <= h[i].freq.v <= 1.0
  }

  /** Sum of the frequencies, over the reals. */
  function RealFreqSum(h: seq<Record>): real
    requires forall i :: 0 <= i < |h| ==> h[i].freq.Num?
  {
    if h == [] then 0.0 else RealFreqSum(h[..|h| - 1]) + h[|h| - 1].freq.v
  }

  lemma {:induction false} FreqTotalIsSum(h: seq<Record>)
    requires FreqsInUnitInterval(h)
    ensures FreqTotal(h) == Num(RealFreqSum(h))
    ensures 0.0 <= RealFreqSum(h) <= |h| as real
  {
    if h != [] {
      FreqTotalIsSum(h[..|h| - 1]);
    }
  }

  /** The red line: the arithmetic mean of the frequencies, which lies in [0, 1]. */
  lemma {:induction false} MeanFreqIsMean(h: seq<Record>)
    requires |h| > 0 && FreqsInUnitInterval(h)
    ensures MeanFreq(h) == Num(RealFreqSum(h) / |h| as real)
    ensures 0.0 <= MeanFreq(h).v <= 1.0
  {
    FreqTotalIsSum(h);
    RatioInUnitInterval(RealFreqSum(h), |h| as real);
  }

  /** One record with n = 0 (freq NaN) makes the mean NaN from then on. */
  lemma {:induction false} NaNFreqPoisonsMean(h: seq<Record>, i: nat)
    requires i < |h| && h[i].freq.NaN?
    ensures MeanFreq(h).NaN?
  {
    NaNFreqPoisonsTotal(h, i);
  }

  lemma {:induction false} NaNFreqPoisonsTotal(h: seq<Record>, i: nat)
    requires i < |h| && h[i].freq.NaN?
    ensures FreqTotal(h).NaN?
  {
    if i < |h| - 1 {
      NaNFreqPoisonsTotal(h[..|h| - 1], i);
    }
  }

  /** The values of the module-level variables. */
  datatype Session = Session(currentN: Option<int>, currentP: Option<JsNumber>, histData: seq<Record>)

  /** `p !== currentP`, with currentP possibly null. */
  predicate PChanged(currentP: Option<JsNumber>, p: JsNumber) {
    currentP.None? || !StrictEquals(p, currentP.value)
  }

  /** `n !== currentN`, with currentN possibly null. */
  predicate NChanged(currentN: Option<int>, n: int) {
    currentN.None? || currentN.value != n
  }

  /** The common opening of both plot handlers: a new p starts a new history; a new n is remembered. */
  function BeforePlot(s: Session, n: int, p: JsNumber): Session {
    var s1 := if PChanged(s.currentP, p) then Session(None, Some(p), []) else s;
    if NChanged(s1.currentN, n) then s1.(currentN := Some(n)) else s1
  }

  /** The data part of `addHistogramColumn`: push the record, then sort by n. */
  function AddColumn(s: Session, rec: Record): Session {
    s.(histData := SortByN(s.histData + [rec]))
  }

  /** A click on either plot button, with rec the record its histogram column adds. */
  function Click(s: Session, n: int, p: JsNumber, rec: Record): Session {
    AddColumn(BeforePlot(s, n, p), rec)
  }

  /** The clear button. */
  function Clear(s: Session): Session {
    Session(None, None, [])
  }

  /** The n input listener: a parsed integer is remembered, NaN (None) is ignored. */
  function NInput(s: Session, parsed: Option<int>): Session {
    if parsed.Some? then s.(currentN := parsed) else s
  }

  /** The p input listener: a parsed number is remembered, NaN is ignored. */
  function PInput(s: Session, parsed: JsNumber): Session {
    if parsed.NaN? then s else s.(currentP := Some(parsed))
  }

  /**
    After a click the page remembers the clicked n and p; the history is
    either just the new record (p changed) or the old history with the new
    record inserted in order (p unchanged).
   */
  lemma {:induction false} ClickOutcome(s: Session, n: int, p: JsNumber, rec: Record)
    requires SortedByN(s.histData)
    ensures Click(s, n, p, rec).currentN == Some(n)
    ensures Click(s, n, p, rec).currentP == Some(p)
    ensures PChanged(s.currentP, p) ==> Click(s, n, p, rec).histData == [rec]
    ensures !PChanged(s.currentP, p) ==> Click(s, n, p, rec).histData == InsertByN(s.histData, rec)
    ensures SortedByN(Click(s, n, p, rec).histData)
  {
    var b := BeforePlot(s, n, p);
    PushThenSort(b.histData, rec);
  }

  /** The history grows by exactly one record and keeps every earlier record when p is unchanged. */
  lemma {:induction false} ClickGrowsHistory(s: Session, n: int, p: JsNumber, rec: Record)
    requires SortedByN(s.histData) && !PChanged(s.currentP, p)
    ensures multiset(Click(s, n, p, rec).histData) == multiset(s.histData) + multiset{rec}
    ensures |Click(s, n, p, rec).histData| == |s.histData| + 1
  {
    PushThenSort(s.histData, rec);
    assert |multiset(Click(s, n, p, rec).histData)| == |multiset(s.histData)| + 1;
  }

  /** NaN !== NaN: with a NaN p every click starts a new history. */
  lemma {:induction false} NaNPAlwaysResets(s: Session, n: int, p: JsNumber, rec: Record)
    requires p.NaN?
    ensures Click(s, n, p, rec).histData == [rec]
  {
    SortSingleton(rec);
  }

  /**
    The p input listener already stores a typed-in p, so the click that follows
    sees p === currentP and keeps the earlier records of a different p.
   */
  lemma {:induction false} TypedPKeepsHistory(s: Session, n: int, p: JsNumber, rec: Record)
    requires !p.NaN? && SortedByN(s.histData)
    ensures Click(PInput(s, p), n, p, rec).histData == InsertByN(s.histData, rec)
  {
    PushThenSort(s.histData, rec);
  }

  /** After clearing, the next click starts a one-record history for its own n and p. */
  lemma {:induction false} ClearThenClick(s: Session, n: int, p: JsNumber, rec: Record)
    ensures Click(Clear(s), n, p, rec) == Session(Some(n), Some(p), [rec])
  {
    SortSingleton(rec);
  }

  /** The trials of `addHistogramColumn`: `successes` counts draws below p. */
  method CountSuccesses(n: int, p: JsNumber, draws: seq<real>) returns (successes: nat)
    requires |draws| == Trials(n)
    ensures successes == Sum(Outcomes(p, draws))
    ensures successes <= Trials(n)
  {
    ghost var steps := Outcomes(p, draws);
    successes := 0;
    for i := 0 to Trials(n)
      invariant successes == Sum(steps[..i])
    {
      assert steps[..i + 1] == steps[..i] + [steps[i]];
      SumSnoc(steps[..i], steps[i]);
      if Less(Num(draws[i]), p) {
        successes := successes + 1;
      }
    }
    assert steps[..Trials(n)] == steps;
    ZeroOneSumBounds(steps);
  }

  /** The page's module-level state. */
  class HistogramPage {
    var currentN: Option<int>
    var currentP: Option<JsNumber>
    var histData: seq<Record>

    predicate Valid()
      reads this
    {
      SortedByN(histData)
    }

    function Snapshot(): Session
      reads this
    {
      Session(currentN, currentP, histData)
    }

    constructor ()
      ensures Snapshot() == Session(None, None, [])
      ensures Valid()
    {
      currentN := None;
      currentP := None;
      histData := [];
    }

    method OnNInput(parsed: Option<int>)
      modifies this
      ensures Snapshot() == NInput(old(Snapshot()), parsed)
      ensures Valid() == old(Valid())
    {
      if parsed.Some? {
        currentN := parsed;
      }
    }

    method OnPInput(parsed: JsNumber)
      modifies this
      ensures Snapshot() == PInput(old(Snapshot()), parsed)
      ensures Valid() == old(Valid())
    {
      if !parsed.NaN? {
        currentP := Some(parsed);
      }
    }

    /** `addHistogramColumn(n, p)`; returns the record added and the mean frequency shown. */
    method AddHistogramColumn(n: int, p: JsNumber, draws: seq<real>) returns (rec: Record, meanFreq: JsNumber)
      requires Valid()
      requires |draws| == Trials(n)
      modifies this
      ensures rec == Record(n, Frequency(Sum(Outcomes(p, draws)), n))
      ensures Snapshot() == AddColumn(old(Snapshot()), rec)
      ensures histData == InsertByN(old(histData), rec)
      ensures Valid()
      ensures |histData| > 0 && meanFreq == MeanFreq(histData)
    {
      var successes := CountSuccesses(n, p, draws);
      rec := Record(n, Frequency(successes, n));
      PushThenSort(histData, rec);
      histData := histData + [rec];
      histData := SortByN(histData);
      meanFreq := MeanFreq(histData);
    }

    /** The opening shared by the two plot handlers. */
    method ResetForInputs(n: int, p: JsNumber)
      requires Valid()
      modifies this
      ensures Snapshot() == BeforePlot(old(Snapshot()), n, p)
      ensures Valid()
    {
      if PChanged(currentP, p) {
        histData := [];
        currentP := Some(p);
        currentN := None;
      }
      if NChanged(currentN, n) {
        currentN := Some(n);
      }
    }

    /** The plotSingleBtn handler: returns the walk drawn and the column's record and mean. */
    method PlotSingleClicked(n: int, p: JsNumber, walkDraws: seq<real>, histDraws: seq<real>)
      returns (walk: seq<int>, rec: Record, meanFreq: JsNumber)
      requires Valid()
      requires |walkDraws| == Trials(n) && |histDraws| == Trials(n)
      modifies this
      ensures walk == Cumulative(Outcomes(p, walkDraws))
      ensures rec == Record(n, Frequency(Sum(Outcomes(p, histDraws)), n))
      ensures Snapshot() == Click(old(Snapshot()), n, p, rec)
      ensures Valid() && meanFreq == MeanFreq(histData)
    {
      ResetForInputs(n, p);
      walk := SimulateSingle(n, p, walkDraws);
      rec, meanFreq := AddHistogramColumn(n, p, histDraws);
    }

    /** The plotAllBtn handler: `proceed` is the answer to the sampling confirmation. */
    method PlotAllClicked(n: int, p: JsNumber, proceed: bool, sampleDraws: seq<real>, histDraws: seq<real>)
      returns (plot: PlotResult, rec: Record, meanFreq: JsNumber)
      requires Valid()
      requires forall i :: 0 <= i < |sampleDraws| ==> 0.0 <= sampleDraws[i] < 1.0
      requires |histDraws| == Trials(n)
      modifies this
      ensures plot.TooLarge? <==> n > MAX_N_PLOT
      ensures plot.Declined? <==> n <= MAX_N_PLOT && TrajectoryCount(n) > MAX_PLOT && !proceed
      ensures n <= MAX_N_PLOT && TrajectoryCount(n) <= MAX_PLOT ==> plot == Plotted(AllBitTrajectories(n))
      ensures plot.Plotted? && TrajectoryCount(n) > MAX_PLOT ==> SampledPlot(plot.trajs, n, sampleDraws)
      ensures rec == Record(n, Frequency(Sum(Outcomes(p, histDraws)), n))
      ensures Snapshot() == Click(old(Snapshot()), n, p, rec)
      ensures Valid() && meanFreq == MeanFreq(histData)
    {
      ResetForInputs(n, p);
      plot := PlotAll(n, proceed, sampleDraws);
      rec, meanFreq := AddHistogramColumn(n, p, histDraws);
    }

    /** The clearBtn handler. */
    method ClearClicked()
      modifies this
      ensures Snapshot() == Clear(old(Snapshot()))
      ensures Valid()
    {
      histData := [];
      currentN := None;
      currentP := None;
    }
  }
}
