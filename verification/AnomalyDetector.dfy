/** Anomalies of a metric against its own recent history: robust z-score, Tukey fence and EWMA chart,
    with a bounded rolling buffer and a breach streak per metric. */
module AnomalyDetection {
  import opened Schemas
  import opened OrderStats
  import opened Rounding
  import opened Windows

  const W := 50
  const W_MIN := 12
  const K_R := 3.5
  const IQR_C := 1.5
  const EWMA_L := 3.0
  const N_SUSTAIN := 5

  const METRICS := [ErrorRate, AvgLatency, P95Latency, InferenceFailureRate, AvgConfidence]

  /** Position of a metric in the table. */
  function Place(m: Metric): (i: nat)
    ensures i < |METRICS| && METRICS[i] == m
    ensures forall j :: 0 <= j < |METRICS| && METRICS[j] == m ==> j == i
  {
    match m
    case ErrorRate => 0
    case AvgLatency => 1
    case P95Latency => 2
    case InferenceFailureRate => 3
    case AvgConfidence => 4
  }

  predicate HigherWorse(m: Metric) { m != AvgConfidence }

  datatype Test = RobustZScore | Iqr | EwmaChart

  datatype Verdict = Verdict(breached: bool, score: real, test: Test)

  /** What one metric remembers. */
  datatype Channel = Channel(hist: seq<real>, ewma: Option<real>, consec: nat)

  datatype Report = Report(score: real, test: Test, pattern: Pattern, consec: nat)

  const EMPTY := Channel([], None, 0)

  // ---------------------------------------------------------------- the three tests

  function RobustZ(x: real, past: seq<real>): real
    requires past != []
  {
    var mad := Mad(past);
    if mad > 0.0 then 0.6745 * (x - Median(past)) / mad else 0.0
  }

  /** Positive means abnormal in the bad direction. */
  function Directional(higherWorse: bool, x: real, past: seq<real>): real
    requires past != []
  {
    if higherWorse then RobustZ(x, past) else -RobustZ(x, past)
  }

  predicate BeyondFence(higherWorse: bool, x: real, q1: real, q3: real) {
    var iqr := q3 - q1;
    iqr > 0.0 && if higherWorse then x > q3 + IQR_C * iqr else x < q1 - IQR_C * iqr
  }

  predicate IqrBreak(higherWorse: bool, x: real, past: seq<real>) {
    BeyondFence(higherWorse, x, Percentile(past, 0.25), Percentile(past, 0.75))
  }

  function Square(d: real): (r: real)
    ensures r >= 0.0
  {
    d * d
  }

  function SumSquares(past: seq<real>, m: real): (r: real)
    ensures r >= 0.0
  {
    if past == [] then 0.0 else Square(past[0] - m) + SumSquares(past[1..], m)
  }

  function Variance(past: seq<real>, m: real): (r: real)
    ensures r >= 0.0
  {
    SumSquares(past, m) / (if |past| - 1 > 1 then |past| - 1 else 1) as real
  }

  /** The next state of the exponentially weighted average. */
  function Smooth(alpha: real, x: real, prev: real): real {
    alpha * x + (1.0 - alpha) * prev
  }

  /** The smoothing factors for which the control limit is a real number. */
  predicate CanScore(alpha: real) { 0.0 <= alpha < 2.0 }

  /** The control limit is crossed. Both sides of the comparison with the limit are squared, so no root
      is taken; SquaredControlLimit shows it is the same test. */
  predicate BeyondLimit(alpha: real, excess: real, variance: real)
    requires CanScore(alpha)
  {
    alpha > 0.0 && variance > 0.0 && excess > 0.0 &&
    excess * excess > EWMA_L * EWMA_L * (variance * (alpha / (2.0 - alpha)))
  }

  /** How far the average has moved in the bad direction. */
  function Excess(higherWorse: bool, s: real, med: real): real {
    if higherWorse then s - med else med - s
  }

  predicate EwmaBreak(alpha: real, higherWorse: bool, s: real, past: seq<real>)
    requires CanScore(alpha) && past != []
  {
    var med := Median(past);
    BeyondLimit(alpha, Excess(higherWorse, s, med), Variance(past, med))
  }

  lemma SquareLess(u: real, v: real)
    requires 0.0 <= u < v
    ensures u * u < v * v
  {
    var d := v - u;
    assert d * u >= 0.0 && d * v > 0.0;
    assert (u + d) * v == u * v + d * v && u * (u + d) == u * u + d * u;
  }

  lemma SquareOrder(u: real, v: real)
    requires u >= 0.0 && v >= 0.0
    ensures u > v <==> u * u > v * v
  {
    if u > v { SquareLess(v, u); } else if u < v { SquareLess(u, v); }
  }

  /** With sigma the root of the variance and rho the root of alpha/(2-alpha), the test is exactly
      "the limit is positive and the excess lies beyond three of it". */
  lemma SquaredControlLimit(alpha: real, excess: real, variance: real, sigma: real, rho: real)
    requires CanScore(alpha)
    requires sigma >= 0.0 && sigma * sigma == variance
    requires rho >= 0.0 && rho * rho == alpha / (2.0 - alpha)
    ensures BeyondLimit(alpha, excess, variance) <==> sigma * rho > 0.0 && excess > EWMA_L * (sigma * rho)
  {
    var limit := EWMA_L * (sigma * rho);
    assert limit * limit == EWMA_L * EWMA_L * (variance * (alpha / (2.0 - alpha))) by {
      assert (sigma * rho) * (sigma * rho) == (sigma * sigma) * (rho * rho);
    }
    SquareOrder(sigma, 0.0);
    SquareOrder(rho, 0.0);
    if excess > 0.0 { SquareOrder(excess, limit); }
  }

  // ---------------------------------------------------------------- one sample

  function Score(alpha: real, higherWorse: bool, x: real, past: seq<real>, s: real): Verdict
    requires CanScore(alpha) && past != []
  {
    var z := Directional(higherWorse, x, past);
    var zBreak := z >= K_R;
    var iqrBreak := IqrBreak(higherWorse, x, past);
    Verdict(zBreak || iqrBreak || EwmaBreak(alpha, higherWorse, s, past), Abs(z),
            if zBreak then RobustZScore else if iqrBreak then Iqr else EwmaChart)
  }

  /** Appending to a buffer of capacity W drops the oldest value when it is full. */
  function Push(hist: seq<real>, x: real): (r: seq<real>)
    ensures |hist| <= W ==> |r| <= W
  {
    LastN(hist + [x], W)
  }

  function NextEwma(alpha: real, ch: Channel, x: real): real
    requires ch.hist != []
  {
    Smooth(alpha, x, if ch.ewma.Some? then ch.ewma.value else Median(ch.hist))
  }

  /** One sample of one metric: the channel afterwards and the report, if the sample breaches. */
  function Step(alpha: real, higherWorse: bool, ch: Channel, x: real): (Channel, Option<Report>)
    requires CanScore(alpha)
  {
    var hist := Push(ch.hist, x);
    if |ch.hist| < W_MIN then (ch.(hist := hist), None)
    else
      var s := NextEwma(alpha, ch, x);
      var v := Score(alpha, higherWorse, x, ch.hist, s);
      var consec := if v.breached then ch.consec + 1 else 0;
      (Channel(hist, Some(s), consec),
       if v.breached then Some(Report(v.score, v.test, if consec >= N_SUSTAIN then Sustained else Spike, consec))
       else None)
  }

  /** A stream of samples: the final channel, and what was reported at each sample. */
  function Run(alpha: real, higherWorse: bool, ch: Channel, xs: seq<real>): (r: (Channel, seq<Option<Report>>))
    requires CanScore(alpha)
    ensures |r.1| == |xs|
    decreases |xs|
  {
    if xs == [] then (ch, [])
    else
      var (next, report) := Step(alpha, higherWorse, ch, xs[0]);
      var (last, reports) := Run(alpha, higherWorse, next, xs[1..]);
      (last, [report] + reports)
  }

  // ---------------------------------------------------------------- the detector object

  function Detection(m: Metric, x: real, r: Report): DetectionResult {
    DetectionResult(AnomalyDetector, true, Some(Anomaly(m, r.pattern)), Some(Round(x, 1000000.0)),
                    Some(Round(r.score, 10000.0)), r.pattern == Sustained)
  }

  function StepOf(alpha: real, m: Metric, ch: Channel, metrics: map<Metric, real>): (Channel, seq<DetectionResult>)
    requires CanScore(alpha)
  {
    if m !in metrics then (ch, [])
    else
      var (next, report) := Step(alpha, HigherWorse(m), ch, metrics[m]);
      (next, if report.Some? then [Detection(m, metrics[m], report.value)] else [])
  }

  /** One evaluation as a whole: every supplied metric is stepped from its own channel. */
  function Results(alpha: real, chs: map<Metric, Channel>, metrics: map<Metric, real>,
                   ms: seq<Metric>): seq<DetectionResult>
    requires CanScore(alpha) && forall m: Metric :: m in chs
  {
    if ms == [] then []
    else
      var m := ms[|ms| - 1];
      Results(alpha, chs, metrics, ms[..|ms| - 1]) + StepOf(alpha, m, chs[m], metrics).1
  }

  /** One sample under any configured smoothing. Outside the range in which the control limit is defined
      the scoring raises, with the sample and the average already stored. */
  function Sample(alpha: real, m: Metric, ch: Channel, x: real): (Channel, Option<seq<DetectionResult>>) {
    if CanScore(alpha) then
      var (next, found) := StepOf(alpha, m, ch, map[m := x]);
      (next, Some(found))
    else if |ch.hist| < W_MIN then (ch.(hist := Push(ch.hist, x)), Some([]))
    else (ch.(hist := Push(ch.hist, x), ewma := Some(NextEwma(alpha, ch, x))), None)
  }

  lemma SampleFits(alpha: real, m: Metric, ch: Channel, x: real)
    ensures |ch.hist| <= W ==> |Sample(alpha, m, ch, x).0.hist| <= W
    ensures ch.ewma.Some? ==> Sample(alpha, m, ch, x).0.ewma.Some?
  {
    hide Score, NextEwma, Detection;
  }

  /** The channels, the findings, and whether the evaluation was cut short. */
  datatype Sweep = Sweep(chs: map<Metric, Channel>, results: seq<DetectionResult>, raised: bool)

  function Swept(alpha: real, chs: map<Metric, Channel>, metrics: map<Metric, real>, ms: seq<Metric>): (r: Sweep)
    requires forall m: Metric :: m in chs
    ensures forall m: Metric :: m in r.chs
  {
    if ms == [] then Sweep(chs, [], false)
    else
      var m, before := ms[|ms| - 1], Swept(alpha, chs, metrics, ms[..|ms| - 1]);
      if before.raised || m !in metrics then before
      else
        var (next, found) := Sample(alpha, m, before.chs[m], metrics[m]);
        Sweep(before.chs[m := next], before.results + (if found.Some? then found.value else []), found.None?)
  }

  lemma {:induction false} StaysRaised(alpha: real, chs: map<Metric, Channel>, metrics: map<Metric, real>,
                                       ms: seq<Metric>, k: nat)
    requires (forall m: Metric :: m in chs) && k <= |ms| && Swept(alpha, chs, metrics, ms[..k]).raised
    ensures Swept(alpha, chs, metrics, ms) == Swept(alpha, chs, metrics, ms[..k])
  {
    hide Sample;
    if k == |ms| {
      assert ms[..k] == ms;
    } else {
      assert ms[..|ms| - 1][..k] == ms[..k];
      StaysRaised(alpha, chs, metrics, ms[..|ms| - 1], k);
    }
  }

  class AnomalyDetector {
    var hist: map<Metric, seq<real>>
    var ewma: map<Metric, real>
    var consec: map<Metric, nat>
    const alpha: real

    predicate Valid()
      reads this
    {
      forall m: Metric :: m in hist && m in consec && |hist[m]| <= W
    }

    function ChannelOf(m: Metric): Channel
      requires Valid()
      reads this
    {
      Channel(hist[m], if m in ewma then Some(ewma[m]) else None, consec[m])
    }

    ghost function Channels(): (chs: map<Metric, Channel>)
      requires Valid()
      reads this
      ensures forall m: Metric :: m in chs && chs[m] == ChannelOf(m)
    {
      map m: Metric | m in hist :: ChannelOf(m)
    }

    constructor (alpha: real)
      ensures Valid() && this.alpha == alpha
      ensures forall m: Metric :: ChannelOf(m) == EMPTY
    {
      this.alpha := alpha;
      hist := map[ErrorRate := [], AvgLatency := [], P95Latency := [], InferenceFailureRate := [], AvgConfidence := []];
      ewma := map[];
      consec := map[ErrorRate := 0, AvgLatency := 0, P95Latency := 0, InferenceFailureRate := 0, AvgConfidence := 0];
      new;
      forall m: Metric ensures m in hist && hist[m] == [] && m in consec && consec[m] == 0 {
        assert METRICS[Place(m)] == m;
      }
    }

    /** The three tests on one sample; the average moves even if the control limit then raises. */
    method ScoreSample(m: Metric, x: real, past: seq<real>) returns (v: Option<Verdict>)
      requires past != []
      modifies this`ewma
      ensures ewma == old(ewma)[m := Smooth(alpha, x, if m in old(ewma) then old(ewma)[m] else Median(past))]
      ensures v == if CanScore(alpha) then Some(Score(alpha, HigherWorse(m), x, past, ewma[m])) else None
    {
      hide Score, Smooth, Median;
      var prev := if m in ewma then ewma[m] else Median(past);
      ewma := ewma[m := Smooth(alpha, x, prev)];
      if !CanScore(alpha) { return None; }
      v := Some(Score(alpha, HigherWorse(m), x, past, ewma[m]));
    }

    /** Extend the streak of a breaching metric, or end it. */
    method Announce(m: Metric, x: real, v: Verdict) returns (results: seq<DetectionResult>)
      requires m in consec
      modifies this`consec
      ensures consec == old(consec)[m := if v.breached then old(consec)[m] + 1 else 0]
      ensures results == if !v.breached then []
                         else [Detection(m, x,
                                         Report(v.score, v.test, if consec[m] >= N_SUSTAIN then Sustained else Spike,
                                                consec[m]))]
    {
      hide Detection;
      consec := consec[m := if v.breached then consec[m] + 1 else 0];
      if !v.breached { return []; }
      var pattern := if consec[m] >= N_SUSTAIN then Sustained else Spike;
      results := [Detection(m, x, Report(v.score, v.test, pattern, consec[m]))];
    }

    /** One sample of metric m: what becomes of the three tables. */
    method Absorb(m: Metric, x: real) returns (found: Option<seq<DetectionResult>>)
      requires Valid()
      modifies this
      ensures var (next, more) := Sample(alpha, m, old(ChannelOf(m)), x);
              hist == old(hist)[m := next.hist] && consec == old(consec)[m := next.consec] && found == more &&
              ewma == if next.ewma.Some? then old(ewma)[m := next.ewma.value] else old(ewma)
    {
      hide Score, Smooth, Median, Push, Detection;
      var past := hist[m];
      hist := hist[m := Push(past, x)];
      if |past| < W_MIN { return Some([]); }
      var v := ScoreSample(m, x, past);
      if v.None? { return None; }
      var results := Announce(m, x, v.value);
      found := Some(results);
    }

    /** ... and of the channels: every other metric is left alone. */
    method Observe(m: Metric, x: real) returns (found: Option<seq<DetectionResult>>)
      requires Valid()
      modifies this
      ensures Valid()
      ensures var (next, more) := Sample(alpha, m, old(ChannelOf(m)), x);
              Channels() == old(Channels())[m := next] && found == more
    {
      SampleFits(alpha, m, ChannelOf(m), x);
      hide Sample;
      found := Absorb(m, x);
    }

    /** One tick: each supplied metric is scored against its own channel, in table order. */
    method Evaluate(metrics: map<Metric, real>) returns (results: Option<seq<DetectionResult>>)
      requires Valid()
      modifies this
      ensures Valid()
      ensures var s := Swept(alpha, old(Channels()), metrics, METRICS);
              Channels() == s.chs && results == if s.raised then None else Some(s.results)
    {
      hide Sample, ChannelOf;
      var found := [];
      ghost var before := Channels();
      for i := 0 to |METRICS|
        invariant Valid()
        invariant Swept(alpha, before, metrics, METRICS[..i]) == Sweep(Channels(), found, false)
      {
        var m := METRICS[i];
        assert METRICS[..i + 1][..i] == METRICS[..i];
        if m in metrics {
          var more := Observe(m, metrics[m]);
          if more.None? {
            StaysRaised(alpha, before, metrics, METRICS, i + 1);
            return None;
          }
          found := found + more.value;
        }
      }
      assert METRICS[..|METRICS|] == METRICS;
      results := Some(found);
    }
  }
}
