/** The population stability index between two lists of proportions. The logarithm is a parameter: all
    that is used of it is that it is strictly increasing and turns quotients into differences, so the
    results hold for every base. */
module StabilityIndex {
  import opened Arithmetic

  const EPS := 0.0001

  function Ratio(x: real, y: real): real
    requires y != 0.0
  {
    x / y
  }

  ghost predicate IsLog(ln: real -> real) {
    (forall x: real, y: real {:trigger ln(Ratio(x, y))} :: x > 0.0 && y > 0.0 ==> ln(Ratio(x, y)) == ln(x) - ln(y)) &&
    (forall x: real, y: real {:trigger ln(x), ln(y)} :: 0.0 < x < y ==> ln(x) < ln(y))
  }

  function Floor(x: real): (r: real)
    ensures r >= EPS && r >= x && (r == x || r == EPS)
  {
    if x < EPS then EPS else x
  }

  /** The contribution of a bin with positive shares r and c. */
  function Divergence(ln: real -> real, r: real, c: real): real
    requires r != 0.0
  {
    (c - r) * ln(Ratio(c, r))
  }

  /** The contribution of a bin, shares being floored first. */
  function Term(ln: real -> real, r: real, c: real): real {
    Divergence(ln, Floor(r), Floor(c))
  }

  function Psi(ln: real -> real, ref: seq<real>, cur: seq<real>): real {
    if ref == [] || cur == [] then 0.0 else Term(ln, ref[0], cur[0]) + Psi(ln, ref[1..], cur[1..])
  }

  /** The accumulating loop over the zipped lists. */
  method ComputePsi(ln: real -> real, ref: seq<real>, cur: seq<real>) returns (total: real)
    ensures total == Psi(ln, ref, cur)
  {
    hide Floor, Divergence;
    total := 0.0;
    var n := if |ref| < |cur| then |ref| else |cur|;
    for i := 0 to n
      invariant total + Psi(ln, ref[i..], cur[i..]) == Psi(ln, ref, cur)
    {
      assert ref[i..][1..] == ref[i + 1..] && cur[i..][1..] == cur[i + 1..];
      var r, c := Floor(ref[i]), Floor(cur[i]);
      total := total + Divergence(ln, r, c);
    }
  }

  // ---------------------------------------------------------------- one term

  lemma LogSign(ln: real -> real, a: real, b: real)
    requires IsLog(ln) && a > 0.0 && b > 0.0
    ensures a < b ==> ln(a) < ln(b)
    ensures (b - a) * ln(Ratio(b, a)) == (b - a) * (ln(b) - ln(a))
  {
  }

  lemma ProductSign(u: real, v: real)
    requires (u > 0.0 <==> v > 0.0) && (u < 0.0 <==> v < 0.0)
    ensures u * v >= 0.0 && (u * v == 0.0 <==> u == 0.0)
  {
  }

  /** A bin contributes nothing negative, nothing at all exactly when the floored shares agree, and the
      same in either direction. */
  lemma TermFacts(ln: real -> real, r: real, c: real)
    requires IsLog(ln)
    ensures Term(ln, r, c) >= 0.0
    ensures Term(ln, r, c) == 0.0 <==> Floor(r) == Floor(c)
    ensures Term(ln, r, c) == Term(ln, c, r)
  {
    hide IsLog, Ratio;
    var a, b := Floor(r), Floor(c);
    LogSign(ln, a, b);
    LogSign(ln, b, a);
    ProductSign(b - a, ln(b) - ln(a));
  }

  /** The largest log-ratio two floored proportions can have. */
  function Spread(ln: real -> real): real { ln(Ratio(1.0, EPS)) }

  lemma LogBound(ln: real -> real, a: real, b: real)
    requires IsLog(ln) && EPS <= a <= b <= 1.0
    ensures 0.0 <= ln(b) - ln(a) <= Spread(ln)
  {
    assert ln(Ratio(1.0, EPS)) == ln(1.0) - ln(EPS);
  }

  lemma ProductBound(d: real, l: real, e: real, m: real)
    requires 0.0 <= d <= e && 0.0 <= l <= m
    ensures d * l <= Times(e, m)
  {
    ProductMonotone(l, m, d);
    ProductMonotone(d, e, m);
  }

  /** The floor is 1-Lipschitz, so a bin contributes at most Spread times the two shares. */
  lemma TermBound(ln: real -> real, r: real, c: real)
    requires IsLog(ln) && 0.0 <= r <= 1.0 && 0.0 <= c <= 1.0
    ensures Term(ln, r, c) <= Times(r + c, Spread(ln))
  {
    hide IsLog, Ratio, Spread;
    var a, b := Floor(r), Floor(c);
    LogSign(ln, a, b);
    if a <= b {
      LogBound(ln, a, b);
      ProductBound(b - a, ln(b) - ln(a), r + c, Spread(ln));
    } else {
      LogBound(ln, b, a);
      ProductBound(a - b, ln(a) - ln(b), r + c, Spread(ln));
      assert (b - a) * (ln(b) - ln(a)) == (a - b) * (ln(a) - ln(b));
    }
  }

  // ---------------------------------------------------------------- the index

  function Sum(xs: seq<real>): real {
    if xs == [] then 0.0 else xs[0] + Sum(xs[1..])
  }

  /** Proportions of a whole. */
  predicate Proportions(xs: seq<real>) {
    (forall i :: 0 <= i < |xs| ==> xs[i] >= 0.0) && Sum(xs) == 1.0
  }

  /** Shares of a whole, perhaps not all of it. */
  predicate Shares(xs: seq<real>) {
    (forall i :: 0 <= i < |xs| ==> xs[i] >= 0.0) && Sum(xs) <= 1.0
  }

  predicate SharesUpTo(xs: seq<real>) {
    forall i :: 0 <= i < |xs| ==> 0.0 <= xs[i] <= 1.0
  }

  lemma {:induction false} SumDominates(xs: seq<real>)
    requires forall i :: 0 <= i < |xs| ==> xs[i] >= 0.0
    ensures Sum(xs) >= 0.0
    ensures forall i :: 0 <= i < |xs| ==> xs[i] <= Sum(xs)
  {
    if xs != [] {
      SumDominates(xs[1..]);
      forall i | 0 <= i < |xs| ensures xs[i] <= Sum(xs) {
        if i > 0 { assert xs[i] == xs[1..][i - 1]; }
      }
    }
  }

  /** The floored vectors agree on every bin the index looks at. */
  predicate SameFloor(ref: seq<real>, cur: seq<real>) {
    forall i :: 0 <= i < |ref| && i < |cur| ==> Floor(ref[i]) == Floor(cur[i])
  }

  /** The index is never negative, vanishes exactly when the floored vectors agree, and is symmetric. */
  lemma {:induction false} PsiFacts(ln: real -> real, ref: seq<real>, cur: seq<real>)
    requires IsLog(ln)
    ensures Psi(ln, ref, cur) >= 0.0
    ensures Psi(ln, ref, cur) == 0.0 <==> SameFloor(ref, cur)
    ensures Psi(ln, ref, cur) == Psi(ln, cur, ref)
  {
    hide IsLog, Term, Floor;
    if ref != [] && cur != [] {
      TermFacts(ln, ref[0], cur[0]);
      PsiFacts(ln, ref[1..], cur[1..]);
      SameFloorTail(ref, cur);
    }
  }

  lemma SameFloorTail(ref: seq<real>, cur: seq<real>)
    requires ref != [] && cur != []
    ensures SameFloor(ref, cur) <==> Floor(ref[0]) == Floor(cur[0]) && SameFloor(ref[1..], cur[1..])
  {
    hide Floor;
    if Floor(ref[0]) == Floor(cur[0]) && SameFloor(ref[1..], cur[1..]) {
      forall i | 0 <= i < |ref| && i < |cur| ensures Floor(ref[i]) == Floor(cur[i]) {
        if i > 0 { assert ref[i] == ref[1..][i - 1] && cur[i] == cur[1..][i - 1]; }
      }
    }
    if SameFloor(ref, cur) {
      forall i | 0 <= i < |ref[1..]| && i < |cur[1..]| ensures Floor(ref[1..][i]) == Floor(cur[1..][i]) {
        assert ref[1..][i] == ref[i + 1] && cur[1..][i] == cur[i + 1];
      }
    }
  }

  lemma {:induction false} PsiSumBound(ln: real -> real, ref: seq<real>, cur: seq<real>)
    requires IsLog(ln) && SharesUpTo(ref) && SharesUpTo(cur)
    ensures Psi(ln, ref, cur) <= Times(Sum(ref) + Sum(cur), Spread(ln))
  {
    hide IsLog, Term, Spread, Times;
    SpreadNonNegative(ln);
    if ref == [] || cur == [] {
      SumDominates(ref);
      SumDominates(cur);
      TimesNonNegative(Sum(ref) + Sum(cur), Spread(ln));
    } else {
      TermBound(ln, ref[0], cur[0]);
      PsiSumBound(ln, ref[1..], cur[1..]);
      TimesAdd(ref[0] + cur[0], Sum(ref[1..]) + Sum(cur[1..]), Spread(ln));
      assert Sum(ref) + Sum(cur) == (ref[0] + cur[0]) + (Sum(ref[1..]) + Sum(cur[1..]));
    }
  }

  /** Between two lists of shares, of any and even different lengths, the index is at most twice the
      logarithm of 1/EPS. */
  lemma PsiBounded(ln: real -> real, ref: seq<real>, cur: seq<real>)
    requires IsLog(ln) && Shares(ref) && Shares(cur)
    ensures 0.0 <= Psi(ln, ref, cur) <= 2.0 * Spread(ln)
  {
    hide IsLog, Psi, Spread;
    SumDominates(ref);
    SumDominates(cur);
    PsiFacts(ln, ref, cur);
    PsiSumBound(ln, ref, cur);
    SpreadNonNegative(ln);
    TimesMonotone(Sum(ref) + Sum(cur), 2.0, Spread(ln));
    assert Times(2.0, Spread(ln)) == 2.0 * Spread(ln);
    hide Times;
  }

  lemma SpreadNonNegative(ln: real -> real)
    requires IsLog(ln)
    ensures Spread(ln) >= 0.0
  {
    hide Spread, IsLog;
    LogBound(ln, EPS, 1.0);
  }
}
