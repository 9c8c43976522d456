/** Data drift against a frozen reference window: a sliding window of rows, PSI per feature and an
    aggregate over the share of drifted features. */
module DriftDetection {
  import opened Schemas
  import opened Rounding
  import opened StabilityIndex
  import opened Windows

  const PSI_WATCH := 0.10
  const PSI_SIGNIFICANT := 0.25
  const KS_ALPHA := 0.05
  const SHARE_THRESHOLD := 0.30

  const NUMERIC_COLS := ["amount", "account_age_days", "num_txn_24h", "avg_txn_amount", "time_since_last_min",
                         "device_risk"]
  const CATEGORICAL_COLS := ["country", "channel"]

  // ---------------------------------------------------------------- binning

  /** A bin boundary; the outer ones are infinite. */
  datatype Bound = NegInf | Finite(v: real) | PosInf

  predicate AtOrBelow(b: Bound, v: real) {
    b.NegInf? || (b.Finite? && b.v <= v)
  }

  predicate Above(b: Bound, v: real) {
    b.PosInf? || (b.Finite? && v < b.v)
  }

  /** The inner edges, extended to infinity on both sides. */
  function Bins(edges: seq<real>): (bins: seq<Bound>)
    ensures |bins| >= 2 && bins[0] == NegInf && bins[|bins| - 1] == PosInf
    ensures |edges| >= 2 ==> |bins| == |edges| && forall i :: 0 < i < |bins| - 1 ==> bins[i] == Finite(edges[i])
  {
    var inner := if |edges| <= 2 then [] else edges[1..|edges| - 1];
    [NegInf] + seq(|inner|, i requires 0 <= i < |inner| => Finite(inner[i])) + [PosInf]
  }

  predicate InBin(bins: seq<Bound>, i: nat, v: real)
    requires i + 1 < |bins|
  {
    AtOrBelow(bins[i], v) && Above(bins[i + 1], v)
  }

  /** The first bin from position i on that takes the value, or the number of bins if none does. */
  function FirstBin(bins: seq<Bound>, i: nat, v: real): (b: nat)
    requires i < |bins|
    ensures i <= b < |bins|
    ensures b < |bins| - 1 ==> InBin(bins, b, v)
    ensures forall j :: i <= j < b ==> !InBin(bins, j, v)
    decreases |bins| - i
  {
    if i == |bins| - 1 || InBin(bins, i, v) then i else FirstBin(bins, i + 1, v)
  }

  lemma {:induction false} Climb(bins: seq<Bound>, i: nat, v: real)
    requires i < |bins| && bins[|bins| - 1] == PosInf && AtOrBelow(bins[i], v)
    ensures FirstBin(bins, i, v) < |bins| - 1
    decreases |bins| - i
  {
    if !InBin(bins, i, v) {
      assert AtOrBelow(bins[i + 1], v);
      Climb(bins, i + 1, v);
    }
  }

  /** Whatever the edges, sorted or not, every value falls in some bin: none is dropped. */
  lemma EveryValueBinned(edges: seq<real>, v: real)
    ensures FirstBin(Bins(edges), 0, v) < |Bins(edges)| - 1
  {
    Climb(Bins(edges), 0, v);
  }

  /** How many values fall in bin b. */
  function CountBin(bins: seq<Bound>, values: seq<real>, b: nat): nat
    requires bins != []
  {
    if values == [] then 0
    else CountBin(bins, values[..|values| - 1], b) + (if FirstBin(bins, 0, values[|values| - 1]) == b then 1 else 0)
  }

  function Props(bins: seq<Bound>, values: seq<real>): (r: seq<real>)
    requires |bins| >= 2
    ensures |r| == |bins| - 1
  {
    var total := if values == [] then 1 else |values|;
    seq(|bins| - 1, b requires 0 <= b => CountBin(bins, values, b) as real / total as real)
  }

  function SumInts(xs: seq<int>): int {
    if xs == [] then 0 else SumInts(xs[..|xs| - 1]) + xs[|xs| - 1]
  }

  lemma {:induction false} SumIntsUpdate(xs: seq<int>, k: nat, d: int)
    requires k < |xs|
    ensures SumInts(xs[k := xs[k] + d]) == SumInts(xs) + d
  {
    var ys := xs[k := xs[k] + d];
    if k == |xs| - 1 {
      assert ys[..|xs| - 1] == xs[..|xs| - 1];
    } else {
      SumIntsUpdate(xs[..|xs| - 1], k, d);
      assert ys[..|xs| - 1] == xs[..|xs| - 1][k := xs[k] + d];
    }
  }

  lemma {:induction false} SumIntsZero(xs: seq<int>)
    requires forall i :: 0 <= i < |xs| ==> xs[i] == 0
    ensures SumInts(xs) == 0
  {
    if xs != [] { SumIntsZero(xs[..|xs| - 1]); }
  }

  function Counts(bins: seq<Bound>, values: seq<real>): (r: seq<int>)
    requires |bins| >= 2
    ensures |r| == |bins| - 1
  {
    seq(|bins| - 1, b requires 0 <= b => CountBin(bins, values, b))
  }

  /** The counts always add up to the number of values. */
  lemma {:induction false} CountsSum(edges: seq<real>, values: seq<real>)
    ensures SumInts(Counts(Bins(edges), values)) == |values|
  {
    hide Bins;
    var bins := Bins(edges);
    if values == [] {
      SumIntsZero(Counts(bins, values));
    } else {
      var most, v := values[..|values| - 1], values[|values| - 1];
      CountsSum(edges, most);
      EveryValueBinned(edges, v);
      var k := FirstBin(bins, 0, v);
      SumIntsUpdate(Counts(bins, most), k, 1);
      assert Counts(bins, values) == Counts(bins, most)[k := Counts(bins, most)[k] + 1];
    }
  }

  /** The counting loops: per value, scan the bins and stop at the first hit. */
  method CountBins(edges: seq<real>, values: seq<real>) returns (counts: seq<int>)
    ensures counts == Counts(Bins(edges), values)
  {
    hide Bins;
    var bins := Bins(edges);
    counts := seq(|bins| - 1, _ => 0);
    for k := 0 to |values|
      invariant |counts| == |bins| - 1
      invariant forall b :: 0 <= b < |counts| ==> counts[b] == CountBin(bins, values[..k], b)
    {
      var v := values[k];
      assert values[..k + 1][..k] == values[..k];
      EveryValueBinned(edges, v);
      var i := 0;
      while !InBin(bins, i, v)
        invariant i <= FirstBin(bins, 0, v) < |bins| - 1
        decreases |bins| - i
      {
        i := i + 1;
      }
      counts := counts[i := counts[i] + 1];
    }
    assert values[..|values|] == values;
  }

  method PsiContinuous(ln: real -> real, edges: seq<real>, refProps: seq<real>, values: seq<real>) returns (psi: real)
    ensures psi == Psi(ln, refProps, Props(Bins(edges), values))
  {
    hide Bins;
    var counts := CountBins(edges, values);
    CountsSum(edges, values);
    var total := SumInts(counts);
    if total == 0 { total := 1; }
    var props := seq(|counts|, b requires 0 <= b < |counts| => counts[b] as real / total as real);
    assert props == Props(Bins(edges), values);
    psi := ComputePsi(ln, refProps, props);
  }

  // ---------------------------------------------------------------- categories

  /** The sum of f over a finite set; the order in which the set is walked does not matter. */
  ghost function SetSum(f: string -> real, s: set<string>): real {
    if s == {} then 0.0 else var x :| x in s; f(x) + SetSum(f, s - {x})
  }

  lemma {:induction false} SetSumPick(f: string -> real, s: set<string>, x: string)
    requires x in s
    ensures SetSum(f, s) == f(x) + SetSum(f, s - {x})
    decreases |s|
  {
    var y :| y in s && SetSum(f, s) == f(y) + SetSum(f, s - {y});
    if y != x {
      SetSumPick(f, s - {y}, x);
      SetSumPick(f, s - {x}, y);
      assert s - {y} - {x} == s - {x} - {y};
    }
  }

  function Count(values: seq<string>, c: string): (n: nat)
    ensures n > 0 <==> c in values
  {
    if values == [] then 0
    else (if values[0] == c then 1 else 0) + Count(values[1..], c)
  }

  /** What counts are divided by: the number of values, or 1 when there is none. */
  function Whole(values: seq<string>): (t: real)
    ensures t >= 1.0
  {
    (if values == [] then 1 else |values|) as real
  }

  function Share(values: seq<string>, c: string): (r: real)
    ensures r >= 0.0
  {
    Count(values, c) as real / Whole(values)
  }

  function Freq(freq: map<string, real>, c: string): real {
    if c in freq then freq[c] else 0.0
  }

  function Categories(freq: map<string, real>, values: seq<string>): set<string> {
    freq.Keys + set v | v in values
  }

  function CategoryTerm(ln: real -> real, freq: map<string, real>, values: seq<string>): string -> real {
    c => Term(ln, Freq(freq, c), Share(values, c))
  }

  ghost function CategoricalPsi(ln: real -> real, freq: map<string, real>, values: seq<string>): real {
    SetSum(CategoryTerm(ln, freq, values), Categories(freq, values))
  }

  lemma PsiSnoc(ln: real -> real, ref: seq<real>, cur: seq<real>, r: real, c: real)
    requires |ref| == |cur|
    ensures Psi(ln, ref + [r], cur + [c]) == Psi(ln, ref, cur) + Term(ln, r, c)
  {
    hide Term;
    if ref == [] {
      assert Psi(ln, [], []) == 0.0;
    } else {
      assert (ref + [r])[1..] == ref[1..] + [r] && (cur + [c])[1..] == cur[1..] + [c];
      PsiSnoc(ln, ref[1..], cur[1..], r, c);
    }
  }

  /** The set of categories is walked in an arbitrary order; the result is the same for all of them. */
  method PsiCategorical(ln: real -> real, freq: map<string, real>, values: seq<string>) returns (psi: real)
    ensures psi == CategoricalPsi(ln, freq, values)
  {
    hide Term, Freq, Share;
    ghost var f := CategoryTerm(ln, freq, values);
    var ref, cur, rest := [], [], Categories(freq, values);
    while rest != {}
      invariant |ref| == |cur|
      invariant Psi(ln, ref, cur) + SetSum(f, rest) == CategoricalPsi(ln, freq, values)
      decreases rest
    {
      var c :| c in rest;
      SetSumPick(f, rest, c);
      PsiSnoc(ln, ref, cur, Freq(freq, c), Share(values, c));
      ref, cur, rest := ref + [Freq(freq, c)], cur + [Share(values, c)], rest - {c};
    }
    psi := ComputePsi(ln, ref, cur);
  }

  // ---------------------------------------------------------------- the sliding window

  /** One row of features; None is a missing value. */
  datatype Row = Row(num: map<string, Option<real>>, cat: map<string, Option<string>>)

  predicate Blank(r: Row) { r.num == map[] && r.cat == map[] }

  function NonBlank(rows: seq<Row>): seq<Row> {
    if rows == [] then []
    else NonBlank(rows[..|rows| - 1]) + (if Blank(rows[|rows| - 1]) then [] else [rows[|rows| - 1]])
  }

  lemma ExtendNone(start: seq<Row>, n: nat)
    requires |start| <= n
    ensures LastN(start + NonBlank([]), n) == start
  {
    assert start + [] == start;
  }

  lemma ExtendOne(start: seq<Row>, rows: seq<Row>, i: nat, n: nat)
    requires i < |rows|
    ensures var w := LastN(start + NonBlank(rows[..i]), n);
            LastN(start + NonBlank(rows[..i + 1]), n) == if Blank(rows[i]) then w else LastN(w + [rows[i]], n)
  {
    hide LastN;
    assert rows[..i + 1][..i] == rows[..i];
    var before := NonBlank(rows[..i]);
    if Blank(rows[i]) {
      assert before + [] == before;
    } else {
      LastNPush(start + before, rows[i], n);
      assert start + before + [rows[i]] == start + (before + [rows[i]]);
    }
  }

  function Numbers(rows: seq<Row>, col: string): seq<real> {
    if rows == [] then []
    else
      var r := rows[|rows| - 1];
      Numbers(rows[..|rows| - 1], col) + (if col in r.num && r.num[col].Some? then [r.num[col].value] else [])
  }

  function Labels(rows: seq<Row>, col: string): seq<string> {
    if rows == [] then []
    else
      var r := rows[|rows| - 1];
      Labels(rows[..|rows| - 1], col) + (if col in r.cat && r.cat[col].Some? then [r.cat[col].value] else [])
  }

  // ---------------------------------------------------------------- one evaluation

  datatype ContinuousRef = ContinuousRef(edges: seq<real>, props: seq<real>, sample: seq<real>)

  datatype Reference = Reference(
    continuous: map<string, ContinuousRef>, categorical: map<string, map<string, real>>,
    nRef: nat, accuracy: real, f1: real)

  /** An effect-size rule: a significant p-value counts only beside a PSI of at least watch level. */
  predicate IsDrift(psi: real, p: real) {
    psi > PSI_SIGNIFICANT || (p < KS_ALPHA && psi > PSI_WATCH)
  }

  /** The finding on one evaluated feature. */
  datatype Feature = Feature(psi: real, drift: bool)

  ghost function NumericFeature(ln: real -> real, ref: Reference, cur: seq<Row>, col: string, p: real,
                                nMin: int): seq<Feature>
  {
    if col !in ref.continuous || |Numbers(cur, col)| < nMin then []
    else
      var c := ref.continuous[col];
      var psi := Psi(ln, c.props, Props(Bins(c.edges), Numbers(cur, col)));
      [Feature(psi, IsDrift(psi, p))]
  }

  ghost function CategoricalFeature(ln: real -> real, ref: Reference, cur: seq<Row>, col: string, p: real): seq<Feature>
  {
    if col !in ref.categorical || ref.categorical[col] == map[] then []
    else
      var psi := CategoricalPsi(ln, ref.categorical[col], Labels(cur, col));
      [Feature(psi, IsDrift(psi, p))]
  }

  ghost function NumericFeatures(ln: real -> real, ref: Reference, cur: seq<Row>, cols: seq<string>,
                                 p: string -> real, nMin: int): seq<Feature>
  {
    if cols == [] then []
    else
      var col := cols[|cols| - 1];
      NumericFeatures(ln, ref, cur, cols[..|cols| - 1], p, nMin) + NumericFeature(ln, ref, cur, col, p(col), nMin)
  }

  ghost function CategoricalFeatures(ln: real -> real, ref: Reference, cur: seq<Row>, cols: seq<string>,
                                     p: string -> real): seq<Feature>
  {
    if cols == [] then []
    else
      var col := cols[|cols| - 1];
      CategoricalFeatures(ln, ref, cur, cols[..|cols| - 1], p) + CategoricalFeature(ln, ref, cur, col, p(col))
  }

  ghost function Features(ln: real -> real, ref: Reference, cur: seq<Row>, p: string -> real, nMin: int): seq<Feature> {
    NumericFeatures(ln, ref, cur, NUMERIC_COLS, p, nMin) + CategoricalFeatures(ln, ref, cur, CATEGORICAL_COLS, p)
  }

  function CountDrifted(fs: seq<Feature>): nat {
    if fs == [] then 0 else CountDrifted(fs[..|fs| - 1]) + (if fs[|fs| - 1].drift then 1 else 0)
  }

  function FeatureResult(f: Feature): DetectionResult {
    DetectionResult(DriftDetector, f.drift, Some(DataDriftPsi), Some(Round(f.psi, 10000.0)),
                    Some(Round(f.psi, 10000.0)), false)
  }

  function Aggregate(drifted: nat): DetectionResult {
    var share := drifted as real / (|NUMERIC_COLS| + |CATEGORICAL_COLS|) as real;
    DetectionResult(DriftDetector, share >= SHARE_THRESHOLD, Some(DataDriftAggregate), Some(Round(share, 10000.0)),
                    Some(Round(share, 10000.0)), false)
  }

  function FeatureResults(fs: seq<Feature>): seq<DetectionResult> {
    if fs == [] then [] else FeatureResults(fs[..|fs| - 1]) + [FeatureResult(fs[|fs| - 1])]
  }

  function Detected(rs: seq<DetectionResult>): seq<DetectionResult> {
    if rs == [] then []
    else Detected(rs[..|rs| - 1]) + (if rs[|rs| - 1].anomalyDetected then [rs[|rs| - 1]] else [])
  }

  /** Drifted features, the aggregate if it breaches, and the aggregate again in any case. */
  function Findings(fs: seq<Feature>): seq<DetectionResult> {
    var all := FeatureResults(fs) + [Aggregate(CountDrifted(fs))];
    Detected(all) + all[|all| - 1..]
  }

  class DriftDetector {
    var window: seq<Row>
    const nCur: nat
    const nCurMin: int
    const ref: Option<Reference>

    constructor (nCur: nat, nCurMin: int, ref: Option<Reference>)
      ensures this.nCur == nCur && this.nCurMin == nCurMin && this.ref == ref && window == []
    {
      this.nCur, this.nCurMin, this.ref := nCur, nCurMin, ref;
      window := [];
    }

    /** `extend` on the bounded window. */
    method Extend(rows: seq<Row>)
      requires |window| <= nCur
      modifies this
      ensures window == LastN(old(window) + NonBlank(rows), nCur)
    {
      hide LastN, NonBlank;
      ghost var start := window;
      ExtendNone(start, nCur);
      for i := 0 to |rows|
        invariant window == LastN(start + NonBlank(rows[..i]), nCur)
      {
        ExtendOne(start, rows, i, nCur);
        if !Blank(rows[i]) { window := LastN(window + [rows[i]], nCur); }
      }
      assert rows[..|rows|] == rows;
    }

    method EvaluateNumeric(ln: real -> real, r: Reference, p: string -> real) returns (fs: seq<Feature>)
      ensures fs == NumericFeatures(ln, r, window, NUMERIC_COLS, p, nCurMin)
    {
      hide Props, Bins, Psi, Numbers, IsDrift;
      fs := [];
      for i := 0 to |NUMERIC_COLS|
        invariant fs == NumericFeatures(ln, r, window, NUMERIC_COLS[..i], p, nCurMin)
      {
        var col := NUMERIC_COLS[i];
        assert NUMERIC_COLS[..i + 1][..i] == NUMERIC_COLS[..i];
        if col in r.continuous {
          var values := Numbers(window, col);
          if |values| >= nCurMin {
            var c := r.continuous[col];
            var psi := PsiContinuous(ln, c.edges, c.props, values);
            fs := fs + [Feature(psi, IsDrift(psi, p(col)))];
          }
        }
      }
      assert NUMERIC_COLS[..|NUMERIC_COLS|] == NUMERIC_COLS;
    }

    method EvaluateCategorical(ln: real -> real, r: Reference, p: string -> real) returns (fs: seq<Feature>)
      ensures fs == CategoricalFeatures(ln, r, window, CATEGORICAL_COLS, p)
    {
      hide CategoricalPsi, Labels, IsDrift;
      fs := [];
      for i := 0 to |CATEGORICAL_COLS|
        invariant fs == CategoricalFeatures(ln, r, window, CATEGORICAL_COLS[..i], p)
      {
        var col := CATEGORICAL_COLS[i];
        assert CATEGORICAL_COLS[..i + 1][..i] == CATEGORICAL_COLS[..i];
        if col in r.categorical && r.categorical[col] != map[] {
          var psi := PsiCategorical(ln, r.categorical[col], Labels(window, col));
          fs := fs + [Feature(psi, IsDrift(psi, p(col)))];
        }
      }
      assert CATEGORICAL_COLS[..|CATEGORICAL_COLS|] == CATEGORICAL_COLS;
    }

    /** Slide the window, then test every feature once enough rows are in it. */
    method EvaluateDataDrift(ln: real -> real, rows: seq<Row>, p: string -> real)
      returns (results: seq<DetectionResult>)
      requires |window| <= nCur
      modifies this
      ensures window == LastN(old(window) + NonBlank(rows), nCur)
      ensures results == if ref.None? || |window| < nCurMin then []
                         else Findings(Features(ln, ref.value, window, p, nCurMin))
    {
      hide NumericFeatures, CategoricalFeatures, NonBlank, LastN, FeatureResults, Detected, Aggregate;
      Extend(rows);
      if ref.None? || |window| < nCurMin { return []; }
      var nums := EvaluateNumeric(ln, ref.value, p);
      var cats := EvaluateCategorical(ln, ref.value, p);
      var fs := nums + cats;
      var all := FeatureResults(fs) + [Aggregate(CountDrifted(fs))];
      results := Detected(all) + all[|all| - 1..];
    }
  }
}
