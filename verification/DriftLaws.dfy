/** What drift detection guarantees: PSI stays bounded for any binning and any set of categories, a
    feature is never flagged against the sample its reference was built from, and the aggregate counts
    exactly the drifted features. */
module DriftLaws {
  import opened Arithmetic
  import opened Schemas
  import opened Rounding
  import opened StabilityIndex
  import opened DriftDetection
  import opened ReferenceBuilder
  import Agent
  import opened Decisions
  import opened DecisionLaws

  // ---------------------------------------------------------------- numeric features

  lemma {:induction false} SumSnoc(xs: seq<real>, x: real)
    ensures Sum(xs + [x]) == Sum(xs) + x
  {
    if xs == [] {
      assert [] + [x] == [x];
    } else {
      assert (xs + [x])[1..] == xs[1..] + [x];
      SumSnoc(xs[1..], x);
    }
  }

  function Scaled(xs: seq<int>, t: real): (r: seq<real>)
    requires t != 0.0
    ensures |r| == |xs|
  {
    seq(|xs|, i requires 0 <= i < |xs| => xs[i] as real / t)
  }

  lemma {:induction false} SumScaled(xs: seq<int>, t: real)
    requires t > 0.0
    ensures Sum(Scaled(xs, t)) == SumInts(xs) as real / t
  {
    if xs != [] {
      var most, x := xs[..|xs| - 1], xs[|xs| - 1];
      SumScaled(most, t);
      SumSnoc(Scaled(most, t), x as real / t);
      assert Scaled(xs, t) == Scaled(most, t) + [x as real / t];
    }
  }

  lemma PropsScaled(bins: seq<Bound>, values: seq<real>)
    requires |bins| >= 2 && values != []
    ensures Props(bins, values) == Scaled(Counts(bins, values), |values| as real)
  {
    hide CountBin;
  }

  lemma ScaledNonNegative(xs: seq<int>, t: real)
    requires t > 0.0 && forall i :: 0 <= i < |xs| ==> xs[i] >= 0
    ensures forall i :: 0 <= i < |xs| ==> Scaled(xs, t)[i] >= 0.0
  {
  }

  /** The shares of a non-empty sample are proportions, whatever the edges. */
  lemma PropsAreProportions(edges: seq<real>, values: seq<real>)
    requires values != []
    ensures Proportions(Props(Bins(edges), values))
  {
    hide Bins, Scaled, CountBin, Props;
    var counts, t := Counts(Bins(edges), values), |values| as real;
    PropsScaled(Bins(edges), values);
    SumScaled(counts, t);
    CountsSum(edges, values);
    ScaledNonNegative(counts, t);
    Cancel(1.0, t);
  }

  lemma {:induction false} SumZeros(xs: seq<real>)
    requires forall i :: 0 <= i < |xs| ==> xs[i] == 0.0
    ensures Sum(xs) == 0.0
  {
    if xs != [] { SumZeros(xs[1..]); }
  }

  /** ... and those of an empty one are all 0. */
  lemma PropsAreShares(edges: seq<real>, values: seq<real>)
    ensures Shares(Props(Bins(edges), values))
  {
    hide Bins;
    if values == [] {
      SumZeros(Props(Bins(edges), values));
    } else {
      hide Props;
      PropsAreProportions(edges, values);
    }
  }

  /** The PSI of a numeric feature is bounded for every list of edges, sorted or not, and every sample. */
  lemma ContinuousPsiBounded(ln: real -> real, edges: seq<real>, refProps: seq<real>, values: seq<real>)
    requires IsLog(ln) && Shares(refProps)
    ensures 0.0 <= Psi(ln, refProps, Props(Bins(edges), values)) <= 2.0 * Spread(ln)
  {
    hide IsLog, Shares, Props, Bins, Spread, Psi;
    PropsAreShares(edges, values);
    PsiBounded(ln, refProps, Props(Bins(edges), values));
  }

  // ---------------------------------------------------------------- categorical features

  lemma SetSumEmpty(f: string -> real)
    ensures SetSum(f, {}) == 0.0
  {
  }

  lemma {:induction false} SetSumBound(f: string -> real, g: string -> real, h: string -> real, k: real, s: set<string>)
    requires forall c :: c in s ==> f(c) <= Times(g(c) + h(c), k)
    ensures SetSum(f, s) <= Times(SetSum(g, s) + SetSum(h, s), k)
    decreases |s|
  {
    hide SetSum;
    if s == {} {
      SetSumEmpty(f);
      SetSumEmpty(g);
      SetSumEmpty(h);
    } else {
      var x :| x in s;
      SetSumPick(f, s, x);
      SetSumPick(g, s, x);
      SetSumPick(h, s, x);
      SetSumBound(f, g, h, k, s - {x});
      hide Times;
      TimesAdd(g(x) + h(x), SetSum(g, s - {x}) + SetSum(h, s - {x}), k);
      assert SetSum(g, s) + SetSum(h, s) == (g(x) + h(x)) + (SetSum(g, s - {x}) + SetSum(h, s - {x}));
    }
  }

  lemma {:induction false} SetSumSign(f: string -> real, s: set<string>)
    requires forall c :: c in s ==> f(c) >= 0.0
    ensures SetSum(f, s) >= 0.0
    ensures SetSum(f, s) == 0.0 <==> forall c :: c in s ==> f(c) == 0.0
    decreases |s|
  {
    if s != {} {
      var x :| x in s;
      SetSumPick(f, s, x);
      SetSumSign(f, s - {x});
      assert s == s - {x} + {x};
    }
  }

  lemma {:induction false} SetSumMember(f: string -> real, s: set<string>, c: string)
    requires (forall d :: d in s ==> f(d) >= 0.0) && c in s
    ensures f(c) <= SetSum(f, s)
  {
    SetSumPick(f, s, c);
    SetSumSign(f, s - {c});
  }

  function CountShare(values: seq<string>, t: real): string -> real
    requires t > 0.0
  {
    c => Count(values, c) as real / t
  }

  lemma CountShareStep(values: seq<string>, t: real, c: string)
    requires t > 0.0 && values != []
    ensures CountShare(values, t)(c) == CountShare(values[1..], t)(c) + (if values[0] == c then 1.0 / t else 0.0)
  {
    var n := Count(values[1..], c);
    assert (n + 1) as real / t == n as real / t + 1.0 / t;
  }

  lemma ZeroShares(t: real, s: set<string>)
    requires t > 0.0
    ensures SetSum(CountShare([], t), s) == 0.0
  {
    forall c | c in s ensures CountShare([], t)(c) == 0.0 { assert Count([], c) == 0; }
    SetSumSign(CountShare([], t), s);
  }

  lemma {:induction false} CountShareSum(values: seq<string>, t: real, s: set<string>)
    requires t > 0.0 && forall i :: 0 <= i < |values| ==> values[i] in s
    ensures SetSum(CountShare(values, t), s) == |values| as real / t
  {
    hide SetSum, CountShare;
    if values == [] {
      ZeroShares(t, s);
    } else {
      var rest := values[1..];
      CountShareSum(rest, t, s);
      forall c | c in s
        ensures CountShare(values, t)(c) == CountShare(rest, t)(c) + (if values[0] == c then 1.0 / t else 0.0)
      {
        CountShareStep(values, t, c);
      }
      AddOne(CountShare(rest, t), CountShare(values, t), s, values[0], 1.0 / t);
      QuotientAdd(|rest| as real, 1.0, t);
      assert |values| as real == |rest| as real + 1.0;
    }
  }

  lemma {:induction false} AddOne(f: string -> real, g: string -> real, s: set<string>, x: string, d: real)
    requires x in s && g(x) == f(x) + d && forall c :: c in s && c != x ==> g(c) == f(c)
    ensures SetSum(g, s) == SetSum(f, s) + d
  {
    SetSumPick(f, s, x);
    SetSumPick(g, s, x);
    SetSumSame(f, g, s - {x});
  }

  lemma {:induction false} SetSumSame(f: string -> real, g: string -> real, s: set<string>)
    requires forall c :: c in s ==> g(c) == f(c)
    ensures SetSum(g, s) == SetSum(f, s)
    decreases |s|
  {
    if s != {} {
      var x :| x in s;
      SetSumPick(f, s, x);
      SetSumPick(g, s, x);
      SetSumSame(f, g, s - {x});
    }
  }

  function FreqOf(freq: map<string, real>): string -> real { c => Freq(freq, c) }

  /** What one category contributes. */
  lemma CategoryFacts(ln: real -> real, freq: map<string, real>, values: seq<string>, c: string)
    requires IsLog(ln) && 0.0 <= Freq(freq, c) <= 1.0 && Share(values, c) <= 1.0
    ensures CategoryTerm(ln, freq, values)(c) >= 0.0
    ensures CategoryTerm(ln, freq, values)(c) <= Times(FreqOf(freq)(c) + CountShare(values, Whole(values))(c),
                                                       Spread(ln))
    ensures CategoryTerm(ln, freq, values)(c) == 0.0 <==> Floor(Freq(freq, c)) == Floor(Share(values, c))
  {
    hide IsLog, Term, Spread, Floor, Freq, Whole;
    TermFacts(ln, Freq(freq, c), Share(values, c));
    TermBound(ln, Freq(freq, c), Share(values, c));
  }

  lemma CategoryShares(freq: map<string, real>, values: seq<string>, c: string)
    requires forall d :: d in freq ==> freq[d] >= 0.0
    ensures FreqOf(freq)(c) == Freq(freq, c) >= 0.0
    ensures CountShare(values, Whole(values))(c) == Share(values, c) >= 0.0
  {
    hide Whole;
  }

  /** Terms that vanish outside a set do not count. */
  lemma {:induction false} SetSumWithin(f: string -> real, s: set<string>, u: set<string>)
    requires s <= u && forall c :: c in u - s ==> f(c) == 0.0
    ensures SetSum(f, u) == SetSum(f, s)
    decreases |u|
  {
    if forall x :: x in u ==> x in s {
      assert u == s;
    } else {
      var x :| x in u && x !in s;
      SetSumPick(f, u, x);
      SetSumWithin(f, s, u - {x});
    }
  }

  /** Over all categories the frequencies add up to 1 and the shares to at most 1. */
  lemma CategorySums(freq: map<string, real>, values: seq<string>, s: set<string>)
    requires freq.Keys <= s && (forall v :: v in values ==> v in s) && SetSum(FreqOf(freq), freq.Keys) == 1.0
    ensures SetSum(FreqOf(freq), s) == 1.0 && SetSum(CountShare(values, Whole(values)), s) <= 1.0
  {
    SetSumWithin(FreqOf(freq), freq.Keys, s);
    CountShareSum(values, Whole(values), s);
    Cancel(1.0, Whole(values));
  }

  /** Every category's frequency and share is at most 1. */
  lemma CategorySharesAtMostOne(freq: map<string, real>, values: seq<string>, s: set<string>)
    requires (forall c :: c in freq ==> freq[c] >= 0.0) && freq.Keys <= s && forall v :: v in values ==> v in s
    requires SetSum(FreqOf(freq), freq.Keys) == 1.0
    ensures forall c :: c in s ==> 0.0 <= Freq(freq, c) <= 1.0 && Share(values, c) <= 1.0
  {
    hide SetSum, CountShare, FreqOf, Share, Freq, Whole;
    var g, h := FreqOf(freq), CountShare(values, Whole(values));
    CategorySums(freq, values, s);
    forall d | d in s ensures g(d) == Freq(freq, d) >= 0.0 && h(d) == Share(values, d) >= 0.0 {
      CategoryShares(freq, values, d);
    }
    forall c | c in s ensures 0.0 <= Freq(freq, c) <= 1.0 && Share(values, c) <= 1.0 {
      SetSumMember(g, s, c);
      SetSumMember(h, s, c);
    }
  }

  lemma InCategories(freq: map<string, real>, values: seq<string>, v: string)
    ensures v in values ==> v in Categories(freq, values)
    ensures v in freq ==> v in Categories(freq, values)
  {
  }

  /** The PSI of a categorical feature, of whose reference frequencies only that they sum to 1 is used:
      never negative, zero exactly when the floored frequencies agree in every category, and bounded, for
      every list of values, with new categories or with no value at all. */
  lemma CategoricalPsiBounded(ln: real -> real, freq: map<string, real>, values: seq<string>)
    requires IsLog(ln) && (forall c :: c in freq ==> freq[c] >= 0.0) && SetSum(FreqOf(freq), freq.Keys) == 1.0
    ensures 0.0 <= CategoricalPsi(ln, freq, values) <= 2.0 * Spread(ln)
    ensures CategoricalPsi(ln, freq, values) == 0.0 <==>
            forall c :: c in Categories(freq, values) ==> Floor(Freq(freq, c)) == Floor(Share(values, c))
  {
    hide IsLog, Spread, Floor, SetSum, CategoryTerm, FreqOf, CountShare, Freq, Share, Categories, Whole;
    var s := Categories(freq, values);
    var f, g, h := CategoryTerm(ln, freq, values), FreqOf(freq), CountShare(values, Whole(values));
    forall v ensures (v in values ==> v in s) && (v in freq ==> v in s) { InCategories(freq, values, v); }
    CategorySums(freq, values, s);
    CategorySharesAtMostOne(freq, values, s);
    forall c | c in s
      ensures f(c) >= 0.0 && f(c) <= Times(g(c) + h(c), Spread(ln))
      ensures f(c) == 0.0 <==> Floor(Freq(freq, c)) == Floor(Share(values, c))
    {
      CategoryFacts(ln, freq, values, c);
    }
    SetSumSign(f, s);
    SetSumBound(f, g, h, Spread(ln), s);
    SpreadNonNegative(ln);
    TimesMonotone(SetSum(g, s) + SetSum(h, s), 2.0, Spread(ln));
  }

  // ---------------------------------------------------------------- builder and detector

  /** The proportions the builder stores are the ones the detector computes on the same sample. */
  lemma BuilderDetectorAgree(edges: seq<real>, values: seq<real>)
    requires EdgesOf(edges, values) && |edges| >= 2
    ensures BuiltProps(edges, values) == Props(Bins(edges), values)
  {
    hide Bins;
    HistogramTotal(edges, values);
    SameHistogram(edges, values);
  }

  /** What the detector measures of a window against a built reference. */
  function PsiAgainst(ln: real -> real, edges: seq<real>, sample: seq<real>, cur: seq<real>): real
    requires EdgesOf(edges, sample)
  {
    Psi(ln, BuiltProps(edges, sample), Props(Bins(edges), cur))
  }

  lemma PsiOfSame(ln: real -> real, xs: seq<real>, ys: seq<real>)
    requires IsLog(ln) && (xs == ys || xs == [])
    ensures Psi(ln, xs, ys) == 0.0
  {
    PsiFacts(ln, xs, ys);
  }

  /** Round trip: measured against the reference built from it, a sample has PSI 0 and is not flagged,
      for any p-value. */
  lemma SampleNeverDrifts(ln: real -> real, edges: seq<real>, values: seq<real>, p: real)
    requires IsLog(ln) && EdgesOf(edges, values)
    ensures PsiAgainst(ln, edges, values, values) == 0.0
    ensures !IsDrift(PsiAgainst(ln, edges, values, values), p)
  {
    hide IsLog, Props, Bins, Histogram;
    if |edges| >= 2 {
      hide BuiltProps, EdgesOf;
      BuilderDetectorAgree(edges, values);
    }
    PsiOfSame(ln, BuiltProps(edges, values), Props(Bins(edges), values));
  }

  /** With at most two edges there is at most one bin, and it holds everything. */
  lemma OneBin(edges: seq<real>, sample: seq<real>, cur: seq<real>)
    requires EdgesOf(edges, sample) && |edges| <= 2 && cur != []
    ensures BuiltProps(edges, sample) == if |edges| == 1 then [] else Props(Bins(edges), cur)
  {
    if |edges| == 2 {
      hide CountBin, Histogram;
      BuilderDetectorAgree(edges, sample);
      OnlyBin(edges, sample);
      OnlyBin(edges, cur);
    }
  }

  lemma OnlyBin(edges: seq<real>, values: seq<real>)
    requires |edges| == 2 && values != []
    ensures Props(Bins(edges), values) == [1.0]
  {
    hide Props;
    PropsAreProportions(edges, values);
    var p := Props(Bins(edges), values);
    assert |p| == 1 && Sum(p) == p[0] + Sum(p[1..]);
  }

  /** A logarithm whose base is at most four: two of its ln 2 exceed one. */
  ghost predicate FineLog(ln: real -> real) { IsLog(ln) && ln(Ratio(2.0, 1.0)) > 0.5 }

  /** A share of at most one half against all of it. */
  lemma HalfTerm(ln: real -> real, r: real)
    requires FineLog(ln) && r <= 0.5
    ensures Term(ln, r, 1.0) > PSI_SIGNIFICANT
  {
    var a := Floor(r);
    assert EPS <= a <= 0.5 && Floor(1.0) == 1.0;
    LogSign(ln, a, 1.0);
    HalfLog(ln, a);
    var l := ln(1.0) - ln(a);
    assert Term(ln, r, 1.0) == Times(1.0 - a, l) && Times(0.5, l) > PSI_SIGNIFICANT;
    hide Times;
    TimesMonotone(0.5, 1.0 - a, l);
  }

  lemma HalfLog(ln: real -> real, a: real)
    requires FineLog(ln) && 0.0 < a <= 0.5
    ensures ln(1.0) - ln(a) > 0.5
  {
    assert Ratio(1.0, 2.0) == 0.5 && Ratio(1.0, 1.0) == 1.0;
    assert ln(Ratio(1.0, 2.0)) == ln(1.0) - ln(2.0) && ln(Ratio(1.0, 1.0)) == ln(1.0) - ln(1.0);
    assert ln(Ratio(2.0, 1.0)) == ln(2.0) - ln(1.0);
    if a < 0.5 { assert ln(a) < ln(0.5); }
  }

  lemma {:induction false} PsiAtLeastTerm(ln: real -> real, ref: seq<real>, cur: seq<real>, b: nat)
    requires IsLog(ln) && b < |ref| && b < |cur|
    ensures Psi(ln, ref, cur) >= Term(ln, ref[b], cur[b])
  {
    hide IsLog, Term;
    PsiFacts(ln, ref[1..], cur[1..]);
    if b > 0 {
      TermFacts(ln, ref[0], cur[0]);
      PsiAtLeastTerm(ln, ref[1..], cur[1..], b - 1);
    }
  }

  /** One value, at the least or the greatest edge, fills the first or the last bin. */
  lemma OneValue(edges: seq<real>, sample: seq<real>, v: real, b: nat)
    requires EdgesOf(edges, sample) && |edges| >= 3
    requires (b == 0 && v == edges[0]) || (b == |edges| - 2 && v == edges[|edges| - 1])
    ensures Props(Bins(edges), [v])[b] == 1.0
  {
    SameBin(edges, v, b);
    assert [v][..0] == [];
    assert CountBin(Bins(edges), [], b) == 0;
  }

  lemma {:induction false} SumAtLeast(xs: seq<real>, i: nat, j: nat)
    requires i < j < |xs| && forall k :: 0 <= k < |xs| ==> xs[k] >= 0.0
    ensures xs[i] + xs[j] <= Sum(xs)
  {
    SumDominates(xs[1..]);
    if i == 0 {
      assert xs[j] == xs[1..][j - 1];
    } else {
      SumAtLeast(xs[1..], i - 1, j - 1);
    }
  }

  /** With two bins or more, the first or the last holds at most half the sample; a window may lie inside it. */
  lemma SparseBin(edges: seq<real>, sample: seq<real>) returns (cur: seq<real>, b: nat)
    requires EdgesOf(edges, sample) && |edges| >= 3
    ensures cur != [] && b < |edges| - 1 == |BuiltProps(edges, sample)| == |Props(Bins(edges), cur)|
    ensures BuiltProps(edges, sample)[b] <= 0.5 && Props(Bins(edges), cur)[b] == 1.0
  {
    var ref, last := BuiltProps(edges, sample), |edges| - 2;
    BuilderDetectorAgree(edges, sample);
    PropsAreProportions(edges, sample);
    SumAtLeast(ref, 0, last);
    b := if ref[0] <= 0.5 then 0 else last;
    cur := [if b == 0 then edges[0] else edges[|edges| - 1]];
    OneValue(edges, sample, cur[0], b);
  }

  lemma CoarseIsZero(ln: real -> real, edges: seq<real>, sample: seq<real>, cur: seq<real>)
    requires IsLog(ln) && EdgesOf(edges, sample) && |edges| <= 2 && cur != []
    ensures PsiAgainst(ln, edges, sample, cur) == 0.0
  {
    hide IsLog, EdgesOf, Props, Bins, BuiltProps;
    OneBin(edges, sample, cur);
    PsiOfSame(ln, BuiltProps(edges, sample), Props(Bins(edges), cur));
  }

  /** For every base of the logarithm: every window has PSI 0 exactly if the reference has at most two edges,
      as for a constant column. */
  lemma ZeroIffCoarse(ln: real -> real, edges: seq<real>, sample: seq<real>)
    requires IsLog(ln) && EdgesOf(edges, sample)
    ensures (forall cur: seq<real> :: cur != [] ==> PsiAgainst(ln, edges, sample, cur) == 0.0) <==> |edges| <= 2
  {
    hide IsLog, EdgesOf, Props, Bins, BuiltProps, Psi;
    if |edges| <= 2 {
      forall cur: seq<real> | cur != [] ensures PsiAgainst(ln, edges, sample, cur) == 0.0 {
        CoarseIsZero(ln, edges, sample, cur);
      }
    } else {
      var cur, b := SparseBin(edges, sample);
      var ref, now := BuiltProps(edges, sample), Props(Bins(edges), cur);
      PsiFacts(ln, ref, now);
      assert Floor(ref[b]) != Floor(now[b]);
      assert PsiAgainst(ln, edges, sample, cur) != 0.0;
    }
  }

  lemma FineLogIsLog(ln: real -> real)
    requires FineLog(ln)
    ensures IsLog(ln)
  {
  }

  /** For the natural logarithm and every base up to four: a numeric feature can be flagged exactly if its
      reference has at least three edges. With fewer no window is flagged, for any p-value; otherwise some
      window is flagged whatever its p-value. */
  lemma BlindIffCoarse(ln: real -> real, edges: seq<real>, sample: seq<real>)
    requires FineLog(ln) && EdgesOf(edges, sample)
    ensures |edges| <= 2 <==>
            forall cur: seq<real>, p: real :: cur != [] ==> !IsDrift(PsiAgainst(ln, edges, sample, cur), p)
    ensures |edges| >= 3 ==>
              exists cur: seq<real> :: cur != [] && forall p: real :: IsDrift(PsiAgainst(ln, edges, sample, cur), p)
  {
    hide FineLog, EdgesOf, Props, Bins, BuiltProps, Psi, Term;
    FineLogIsLog(ln);
    ZeroIffCoarse(ln, edges, sample);
    if |edges| >= 3 {
      var cur, b := SparseBin(edges, sample);
      HalfTerm(ln, BuiltProps(edges, sample)[b]);
      PsiAtLeastTerm(ln, BuiltProps(edges, sample), Props(Bins(edges), cur), b);
      assert forall p: real :: IsDrift(PsiAgainst(ln, edges, sample, cur), p);
    }
  }

  /** The p-value decides in the watch band and nowhere else: below it nothing is flagged, above it
      everything is. */
  lemma PValueMattersInBand(psi: real)
    ensures (exists p: real, q: real :: IsDrift(psi, p) && !IsDrift(psi, q)) <==> PSI_WATCH < psi <= PSI_SIGNIFICANT
    ensures psi <= PSI_WATCH ==> forall p: real :: !IsDrift(psi, p)
    ensures PSI_WATCH < psi <= PSI_SIGNIFICANT ==> forall p: real :: IsDrift(psi, p) <==> p < 0.05
  {
    if PSI_WATCH < psi <= PSI_SIGNIFICANT { assert IsDrift(psi, 0.0) && !IsDrift(psi, 1.0); }
  }

  // ---------------------------------------------------------------- the aggregate

  lemma {:induction false} CountDriftedConcat(a: seq<Feature>, b: seq<Feature>)
    ensures CountDrifted(a + b) == CountDrifted(a) + CountDrifted(b)
  {
    if b == [] {
      assert a + b == a;
    } else {
      CountDriftedConcat(a, b[..|b| - 1]);
      assert (a + b)[..|a + b| - 1] == a + b[..|b| - 1];
    }
  }

  /** On a window holding exactly the sample each numeric reference was built from, none of the numeric
      features drifts, whatever the p-values. */
  lemma {:induction false} WindowOfSampleIsClean(ln: real -> real, ref: Reference, cur: seq<Row>, cols: seq<string>,
                                                 p: string -> real, nMin: int)
    requires IsLog(ln)
    requires forall c :: c in cols && c in ref.continuous ==>
               EdgesOf(ref.continuous[c].edges, Numbers(cur, c)) &&
               ref.continuous[c].props == BuiltProps(ref.continuous[c].edges, Numbers(cur, c))
    ensures CountDrifted(NumericFeatures(ln, ref, cur, cols, p, nMin)) == 0
  {
    hide IsLog, EdgesOf, Props, Bins, Psi, Numbers, BuiltProps;
    if cols != [] {
      var most, c := cols[..|cols| - 1], cols[|cols| - 1];
      assert c in cols && forall d :: d in most ==> d in cols;
      WindowOfSampleIsClean(ln, ref, cur, most, p, nMin);
      if c in ref.continuous { SampleNeverDrifts(ln, ref.continuous[c].edges, Numbers(cur, c), p(c)); }
      CountDriftedConcat(NumericFeatures(ln, ref, cur, most, p, nMin), NumericFeature(ln, ref, cur, c, p(c), nMin));
    }
  }

  lemma {:induction false} CategoricalClean(ln: real -> real, ref: Reference, cur: seq<Row>, cols: seq<string>,
                                            p: string -> real)
    requires IsLog(ln)
    requires forall c :: c in cols && c in ref.categorical && ref.categorical[c] != map[] ==>
               Labels(cur, c) != [] && ref.categorical[c] == BuildCategorical(Labels(cur, c))
    ensures CountDrifted(CategoricalFeatures(ln, ref, cur, cols, p)) == 0
  {
    hide IsLog, CategoricalPsi, Labels, BuildCategorical;
    if cols != [] {
      var most, c := cols[..|cols| - 1], cols[|cols| - 1];
      assert c in cols && forall d :: d in most ==> d in cols;
      CategoricalClean(ln, ref, cur, most, p);
      if c in ref.categorical && ref.categorical[c] != map[] { LabelsNeverDrift(ln, Labels(cur, c)); }
      CountDriftedConcat(CategoricalFeatures(ln, ref, cur, most, p), CategoricalFeature(ln, ref, cur, c, p(c)));
    }
  }

  /** The categorical round trip: against the reference built from them, labels have PSI 0. */
  lemma LabelsNeverDrift(ln: real -> real, labels: seq<string>)
    requires IsLog(ln) && labels != []
    ensures CategoricalPsi(ln, BuildCategorical(labels), labels) == 0.0
  {
    var freq := BuildCategorical(labels);
    BuiltFrequencies(labels);
    CategoricalPsiBounded(ln, freq, labels);
    forall c | c in Categories(freq, labels) ensures Freq(freq, c) == Share(labels, c) { }
  }

  /** The frequencies the builder stores are non-negative and sum to 1. */
  lemma BuiltFrequencies(labels: seq<string>)
    requires labels != []
    ensures var freq := BuildCategorical(labels);
            (forall c :: c in freq ==> freq[c] >= 0.0) && SetSum(FreqOf(freq), freq.Keys) == 1.0
  {
    var freq, t := BuildCategorical(labels), |labels| as real;
    CountShareSum(labels, t, freq.Keys);
    Cancel(1.0, t);
    SetSumSame(CountShare(labels, t), FreqOf(freq), freq.Keys);
  }

  /** The whole evaluation: on a window holding the sample every reference was built from, only a clean
      aggregate comes out, and it is LOW. */
  lemma ReferenceWindowIsClean(cfg: Settings, ln: real -> real, ref: Reference, cur: seq<Row>, p: string -> real,
                               nMin: int)
    requires IsLog(ln)
    requires forall c :: c in NUMERIC_COLS && c in ref.continuous ==>
               EdgesOf(ref.continuous[c].edges, Numbers(cur, c)) &&
               ref.continuous[c].props == BuiltProps(ref.continuous[c].edges, Numbers(cur, c))
    requires forall c :: c in CATEGORICAL_COLS && c in ref.categorical && ref.categorical[c] != map[] ==>
               Labels(cur, c) != [] && ref.categorical[c] == BuildCategorical(Labels(cur, c))
    ensures CountDrifted(Features(ln, ref, cur, p, nMin)) == 0
    ensures Findings(Features(ln, ref, cur, p, nMin)) == [Aggregate(0)] && !Aggregate(0).anomalyDetected
    ensures Classify(cfg, Findings(Features(ln, ref, cur, p, nMin))) == Low
  {
    hide IsLog, EdgesOf, BuiltProps, BuildCategorical, NumericFeatures, CategoricalFeatures, Numbers, Labels,
         Aggregate, Classify;
    WindowOfSampleIsClean(ln, ref, cur, NUMERIC_COLS, p, nMin);
    CategoricalClean(ln, ref, cur, CATEGORICAL_COLS, p);
    CountDriftedConcat(NumericFeatures(ln, ref, cur, NUMERIC_COLS, p, nMin),
                       CategoricalFeatures(ln, ref, cur, CATEGORICAL_COLS, p));
    var fs := Features(ln, ref, cur, p, nMin);
    AggregateSeverity(cfg, 0);
    CleanFindings(fs);
    DriftSeverity(cfg, fs);
  }

  lemma {:induction false} NothingDetected(fs: seq<Feature>)
    requires CountDrifted(fs) == 0
    ensures Detected(FeatureResults(fs)) == []
  {
    hide Round;
    if fs != [] {
      NothingDetected(fs[..|fs| - 1]);
      var most := FeatureResults(fs[..|fs| - 1]);
      assert FeatureResults(fs)[..|most|] == most;
    }
  }

  lemma CleanFindings(fs: seq<Feature>)
    requires CountDrifted(fs) == 0 && !Aggregate(0).anomalyDetected
    ensures Findings(fs) == [Aggregate(0)]
  {
    hide Aggregate;
    NothingDetected(fs);
    var all := FeatureResults(fs) + [Aggregate(0)];
    assert all[..|all| - 1] == FeatureResults(fs);
  }

  lemma {:induction false} DetectedMembers(rs: seq<DetectionResult>)
    ensures forall d :: d in Detected(rs) <==> d in rs && d.anomalyDetected
  {
    if rs != [] {
      DetectedMembers(rs[..|rs| - 1]);
      assert rs == rs[..|rs| - 1] + [rs[|rs| - 1]];
    }
  }

  lemma {:induction false} FeatureResultsAreLow(cfg: Settings, fs: seq<Feature>)
    ensures forall d :: d in FeatureResults(fs) ==> ClassifyDetection(cfg, d) == Low
  {
    hide Round;
    if fs != [] { FeatureResultsAreLow(cfg, fs[..|fs| - 1]); }
  }

  function ShareSeverity(drifted: nat): Severity {
    if drifted >= 4 then High else if drifted >= 3 then Medium else Low
  }

  lemma AggregateSeverity(cfg: Settings, drifted: nat)
    ensures ClassifyDetection(cfg, Aggregate(drifted)) == ShareSeverity(drifted)
    ensures Aggregate(drifted).anomalyDetected <==> drifted >= 3
  {
    hide Nearest;
    var share := drifted as real / 8.0;
    RoundExact(share, 10000.0, 1250 * drifted);
  }

  /** The severity of the drift channel counts drifted features and nothing else: of the eight, four make
      it HIGH and three MEDIUM, although the aggregate is reported twice. */
  lemma DriftSeverity(cfg: Settings, fs: seq<Feature>)
    ensures Classify(cfg, Findings(fs)) == ShareSeverity(CountDrifted(fs))
  {
    hide Aggregate, Classify, ClassifyDetection, FeatureResults, Detected;
    var agg := Aggregate(CountDrifted(fs));
    var all := FeatureResults(fs) + [agg];
    AggregateSeverity(cfg, CountDrifted(fs));
    FeatureResultsAreLow(cfg, fs);
    DetectedMembers(all);
    assert agg in Findings(fs) by { assert Findings(fs)[|Findings(fs)| - 1] == agg; }
    forall d | d in Findings(fs) ensures d in all { }
    ClassifyIs(cfg, Findings(fs), ShareSeverity(CountDrifted(fs)));
  }

  // ---------------------------------------------------------------- what the agent posts

  lemma {:induction false} DriftedCountConcat(a: seq<DetectionResult>, b: seq<DetectionResult>)
    ensures Agent.DriftedCount(a + b) == Agent.DriftedCount(a) + Agent.DriftedCount(b)
  {
    if b == [] {
      assert a + b == a;
    } else {
      DriftedCountConcat(a, b[..|b| - 1]);
      assert (a + b)[..|a + b| - 1] == a + b[..|b| - 1];
    }
  }

  lemma {:induction false} DriftScoreConcat(a: seq<DetectionResult>, b: seq<DetectionResult>)
    requires forall d :: d in a ==> d.metric != Some(DataDriftAggregate)
    ensures Agent.DriftScore(a + b) == Agent.DriftScore(b)
  {
    if a == [] {
      assert a + b == b;
    } else {
      assert (a + b)[1..] == a[1..] + b;
      DriftScoreConcat(a[1..], b);
    }
  }

  lemma {:induction false} FeaturesPosted(fs: seq<Feature>)
    ensures Agent.DriftedCount(Detected(FeatureResults(fs))) == CountDrifted(fs)
    ensures forall d :: d in Detected(FeatureResults(fs)) ==> d.metric != Some(DataDriftAggregate)
  {
    hide Round;
    if fs != [] {
      var most, last := FeatureResults(fs[..|fs| - 1]), FeatureResult(fs[|fs| - 1]);
      FeaturesPosted(fs[..|fs| - 1]);
      assert FeatureResults(fs)[..|most|] == most;
      var tail := if last.anomalyDetected then [last] else [];
      assert Detected(FeatureResults(fs)) == Detected(most) + tail;
      hide Detected, FeatureResults;
      DriftedCountConcat(Detected(most), tail);
      if tail != [] { assert tail[..0] == []; }
    }
  }

  lemma AggregatePosted(agg: DetectionResult)
    requires agg.metric == Some(DataDriftAggregate)
    ensures Agent.DriftedCount([agg]) == 0 && Agent.DriftedCount([agg, agg]) == 0
    ensures Agent.DriftScore([agg]) == Agent.DriftScore([agg, agg]) == agg.score
  {
    assert [agg][..0] == [] && [agg, agg][..1] == [agg];
  }

  /** The agent posts the true number of drifted features and the share they are of all, whatever the
      filtering and the repeated aggregate. */
  lemma DriftPosted(fs: seq<Feature>)
    ensures Agent.DriftedCount(Findings(fs)) == CountDrifted(fs)
    ensures Agent.DriftScore(Findings(fs)) == Aggregate(CountDrifted(fs)).score
  {
    var rs, agg := FeatureResults(fs), Aggregate(CountDrifted(fs));
    var tail := if agg.anomalyDetected then [agg, agg] else [agg];
    assert (rs + [agg])[..|rs|] == rs;
    assert Findings(fs) == Detected(rs) + tail;
    hide Findings, Detected, FeatureResults, Aggregate, Agent.DriftScore, Agent.DriftedCount;
    FeaturesPosted(fs);
    AggregateKind(CountDrifted(fs));
    AggregatePosted(agg);
    DriftedCountConcat(Detected(rs), tail);
    DriftScoreConcat(Detected(rs), tail);
  }

  lemma AggregateKind(drifted: nat)
    ensures Aggregate(drifted).metric == Some(DataDriftAggregate)
  {
  }
}
