/** The builder of the reference window: per numeric feature, the edges, the share of the sample in each bin
    and a sorted draw; per categorical feature, the share of each label. Quantiles and draws are the caller's;
    edges come sorted, distinct and running from the sample's least to its greatest value, which leaves a
    constant sample a single edge. */
module ReferenceBuilder {
  import opened OrderStats
  import opened DriftDetection

  /** Histogram bins are half open, the last one closed. */
  predicate InHistogramBin(edges: seq<real>, i: nat, v: real)
    requires i + 1 < |edges|
  {
    edges[i] <= v && (v < edges[i + 1] || (i == |edges| - 2 && v == edges[i + 1]))
  }

  function HistogramCount(edges: seq<real>, values: seq<real>, i: nat): nat
    requires i + 1 < |edges|
  {
    if values == [] then 0
    else
      HistogramCount(edges, values[..|values| - 1], i) +
      (if InHistogramBin(edges, i, values[|values| - 1]) then 1 else 0)
  }

  function Histogram(edges: seq<real>, values: seq<real>): (r: seq<int>)
    requires edges != []
    ensures |r| == |edges| - 1
  {
    seq(|edges| - 1, i requires 0 <= i < |edges| - 1 => HistogramCount(edges, values, i))
  }

  /** What the distinct quantiles of a sample look like: sorted, and spanning it. A constant sample has
      just one. */
  predicate EdgesOf(edges: seq<real>, values: seq<real>) {
    edges != [] && values != [] &&
    (forall i, j :: 0 <= i < j < |edges| ==> edges[i] < edges[j]) &&
    (forall v :: v in values ==> edges[0] <= v <= edges[|edges| - 1])
  }

  /** The bin of the builder and the bin of the detector are one and the same for every sample value. */
  lemma SameBin(edges: seq<real>, v: real, i: nat)
    requires |edges| >= 2 && i + 1 < |edges|
    requires forall k, j :: 0 <= k < j < |edges| ==> edges[k] < edges[j]
    requires edges[0] <= v <= edges[|edges| - 1]
    ensures InHistogramBin(edges, i, v) <==> FirstBin(Bins(edges), 0, v) == i
  {
    var bins := Bins(edges);
    EveryValueBinned(edges, v);
    var b := FirstBin(bins, 0, v);
    assert InHistogramBin(edges, b, v) by {
      assert b > 0 ==> bins[b] == Finite(edges[b]);
      assert b < |edges| - 2 ==> bins[b + 1] == Finite(edges[b + 1]);
    }
  }

  lemma {:induction false} SameCount(edges: seq<real>, values: seq<real>, i: nat)
    requires EdgesOf(edges, values) || values == []
    requires i + 1 < |edges|
    ensures HistogramCount(edges, values, i) == CountBin(Bins(edges), values, i)
  {
    hide Bins, FirstBin, InHistogramBin;
    if values != [] {
      var most, v := values[..|values| - 1], values[|values| - 1];
      assert v in values;
      assert forall u :: u in most ==> u in values;
      SameCount(edges, most, i);
      SameBin(edges, v, i);
    }
  }

  /** On the sample it was built from, the reference histogram is what the detector counts. */
  lemma SameHistogram(edges: seq<real>, values: seq<real>)
    requires EdgesOf(edges, values) && |edges| >= 2
    ensures Histogram(edges, values) == Counts(Bins(edges), values)
  {
    hide Bins, HistogramCount, CountBin;
    forall i | 0 <= i < |edges| - 1 ensures HistogramCount(edges, values, i) == CountBin(Bins(edges), values, i) {
      SameCount(edges, values, i);
    }
    assert |Bins(edges)| == |edges|;
  }

  /** Reference proportions: counts over their sum. A single edge bounds no bin, so there are none. */
  function BuiltProps(edges: seq<real>, values: seq<real>): seq<real>
    requires EdgesOf(edges, values)
  {
    if |edges| == 1 then []
    else
      HistogramTotal(edges, values);
      var counts := Histogram(edges, values);
      seq(|counts|, i requires 0 <= i < |counts| => counts[i] as real / SumInts(counts) as real)
  }

  lemma HistogramTotal(edges: seq<real>, values: seq<real>)
    requires EdgesOf(edges, values) && |edges| >= 2
    ensures SumInts(Histogram(edges, values)) == |values|
  {
    SameHistogram(edges, values);
    CountsSum(edges, values);
  }

  const KS_SAMPLE := 1000

  /** A draw without replacement of at most KS_SAMPLE values. */
  predicate DrawOf(draw: seq<real>, values: seq<real>) {
    multiset(draw) <= multiset(values) && |draw| == if |values| < KS_SAMPLE then |values| else KS_SAMPLE
  }

  function BuildContinuous(edges: seq<real>, values: seq<real>, draw: seq<real>): ContinuousRef
    requires EdgesOf(edges, values)
  {
    ContinuousRef(edges, BuiltProps(edges, values), Sort(draw))
  }

  /** Normalised value counts. */
  function BuildCategorical(values: seq<string>): map<string, real> {
    map v | v in values :: Share(values, v)
  }

  /** Stored are the edges as they are, the share of the sample in each of the detector's bins, and a sorted
      draw. */
  lemma StoredReference(edges: seq<real>, values: seq<real>, draw: seq<real>)
    requires EdgesOf(edges, values) && DrawOf(draw, values)
    ensures var c := BuildContinuous(edges, values, draw);
            c.edges == edges && IsSorted(c.sample) && DrawOf(c.sample, values) &&
              multiset(c.sample) == multiset(draw) &&
            |c.props| == |edges| - 1 &&
            forall i :: 0 <= i < |c.props| ==>
              c.props[i] == CountBin(Bins(edges), values, i) as real / |values| as real
  {
    SortSorts(draw);
    if |edges| >= 2 {
      SameHistogram(edges, values);
      HistogramTotal(edges, values);
    }
    hide Bins, Histogram, HistogramCount, CountBin, Sort, IsSorted, EdgesOf;
  }

  /** The loops over the numeric and the categorical columns. */
  method Build(edges: map<string, seq<real>>, numbers: map<string, seq<real>>, draws: map<string, seq<real>>,
               labels: map<string, seq<string>>, rows: nat)
    returns (summary: Reference)
    requires forall c :: c in NUMERIC_COLS ==> c in edges && c in numbers && c in draws && EdgesOf(edges[c], numbers[c])
    requires forall c :: c in CATEGORICAL_COLS ==> c in labels
    ensures summary.continuous.Keys == set c | c in NUMERIC_COLS
    ensures forall c :: c in NUMERIC_COLS ==> summary.continuous[c] == BuildContinuous(edges[c], numbers[c], draws[c])
    ensures summary.categorical.Keys == set c | c in CATEGORICAL_COLS
    ensures forall c :: c in CATEGORICAL_COLS ==> summary.categorical[c] == BuildCategorical(labels[c])
    ensures summary.nRef == rows && summary.accuracy == 0.846 && summary.f1 == 0.731
  {
    var continuous := BuildNumeric(edges, numbers, draws);
    hide BuildContinuous, BuildCategorical, EdgesOf;
    var categorical: map<string, map<string, real>> := map[];
    for i := 0 to |CATEGORICAL_COLS|
      invariant categorical.Keys == set c | c in CATEGORICAL_COLS[..i]
      invariant forall c :: c in categorical ==> c in CATEGORICAL_COLS && categorical[c] == BuildCategorical(labels[c])
    {
      var col := CATEGORICAL_COLS[i];
      assert CATEGORICAL_COLS[..i + 1] == CATEGORICAL_COLS[..i] + [col];
      categorical := categorical[col := BuildCategorical(labels[col])];
    }
    assert CATEGORICAL_COLS[..|CATEGORICAL_COLS|] == CATEGORICAL_COLS;
    summary := Reference(continuous, categorical, rows, 0.846, 0.731);
  }

  method BuildNumeric(edges: map<string, seq<real>>, numbers: map<string, seq<real>>, draws: map<string, seq<real>>)
    returns (continuous: map<string, ContinuousRef>)
    requires forall c :: c in NUMERIC_COLS ==> c in edges && c in numbers && c in draws && EdgesOf(edges[c], numbers[c])
    ensures continuous.Keys == set c | c in NUMERIC_COLS
    ensures forall c :: c in NUMERIC_COLS ==> continuous[c] == BuildContinuous(edges[c], numbers[c], draws[c])
  {
    hide EdgesOf, BuildContinuous;
    continuous := map[];
    for i := 0 to |NUMERIC_COLS|
      invariant continuous.Keys == set c | c in NUMERIC_COLS[..i]
      invariant forall c :: c in continuous ==>
                  c in NUMERIC_COLS && continuous[c] == BuildContinuous(edges[c], numbers[c], draws[c])
    {
      var col := NUMERIC_COLS[i];
      assert NUMERIC_COLS[..i + 1] == NUMERIC_COLS[..i] + [col];
      continuous := continuous[col := BuildContinuous(edges[col], numbers[col], draws[col])];
    }
    assert NUMERIC_COLS[..|NUMERIC_COLS|] == NUMERIC_COLS;
  }
}
