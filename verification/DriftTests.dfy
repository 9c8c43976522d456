/** The drift decision in plain terms: when a feature is evaluated, when it is flagged, what is reported, and
    that stronger evidence never hides drift. */
module DriftTests {
  import opened Schemas
  import opened Rounding
  import opened StabilityIndex
  import opened DriftDetection
  import opened DriftLaws
  import opened Decisions

  // ---------------------------------------------------------------- one feature

  /** Above 0.25 the index decides alone, up to 0.10 it clears the feature, and in between a feature is
      flagged exactly if its test is significant at 5 percent. */
  lemma FlaggedIff(psi: real, p: real)
    ensures psi > 0.25 ==> IsDrift(psi, p)
    ensures psi <= 0.10 ==> !IsDrift(psi, p)
    ensures 0.10 < psi <= 0.25 ==> (IsDrift(psi, p) <==> p < 0.05)
  {
  }

  /** A numeric column is evaluated exactly if it has a reference and enough values. */
  lemma NumericEvaluated(ln: real -> real, ref: Reference, cur: seq<Row>, col: string, p: real, nMin: int)
    ensures var fs := NumericFeature(ln, ref, cur, col, p, nMin);
            (fs != [] <==> col in ref.continuous && |Numbers(cur, col)| >= nMin) &&
            (fs != [] ==>
               var psi := Psi(ln, ref.continuous[col].props, Props(Bins(ref.continuous[col].edges), Numbers(cur, col)));
               |fs| == 1 && fs[0].psi == psi && (fs[0].drift <==> psi > 0.25 || (psi > 0.10 && p < 0.05)))
  {
    hide Psi, Props, Bins, Numbers;
  }

  /** A categorical column is evaluated exactly if its reference knows a category, however few its values. */
  lemma CategoricalEvaluated(ln: real -> real, ref: Reference, cur: seq<Row>, col: string, p: real)
    ensures var fs := CategoricalFeature(ln, ref, cur, col, p);
            (fs != [] <==> col in ref.categorical && ref.categorical[col] != map[]) &&
            (fs != [] ==>
               var psi := CategoricalPsi(ln, ref.categorical[col], Labels(cur, col));
               |fs| == 1 && fs[0].psi == psi && (fs[0].drift <==> psi > 0.25 || (psi > 0.10 && p < 0.05)))
  {
    hide CategoricalPsi, Labels;
  }

  /** The eight columns are evaluated in this order. */
  lemma ColumnsInOrder(ln: real -> real, ref: Reference, cur: seq<Row>, p: string -> real, nMin: int)
    ensures Features(ln, ref, cur, p, nMin) ==
            NumericFeatures(ln, ref, cur, ["amount", "account_age_days", "num_txn_24h", "avg_txn_amount",
                                           "time_since_last_min", "device_risk"], p, nMin) +
            CategoricalFeatures(ln, ref, cur, ["country", "channel"], p)
  {
    hide NumericFeatures, CategoricalFeatures;
  }

  /** Each column by itself, with the p-value of its own test. */
  lemma {:induction false} NumericByColumn(ln: real -> real, ref: Reference, cur: seq<Row>, a: seq<string>,
                                           b: seq<string>, col: string, p: string -> real, nMin: int)
    ensures NumericFeatures(ln, ref, cur, a + b, p, nMin) ==
            NumericFeatures(ln, ref, cur, a, p, nMin) + NumericFeatures(ln, ref, cur, b, p, nMin)
    ensures NumericFeatures(ln, ref, cur, [col], p, nMin) == NumericFeature(ln, ref, cur, col, p(col), nMin)
    decreases |b|
  {
    hide NumericFeature;
    assert NumericFeatures(ln, ref, cur, [col][..0], p, nMin) == [];
    if b == [] {
      assert a + b == a;
    } else {
      NumericByColumn(ln, ref, cur, a, b[..|b| - 1], col, p, nMin);
      assert (a + b)[..|a + b| - 1] == a + b[..|b| - 1];
    }
  }

  lemma {:induction false} CategoricalByColumn(ln: real -> real, ref: Reference, cur: seq<Row>, a: seq<string>,
                                               b: seq<string>, col: string, p: string -> real)
    ensures CategoricalFeatures(ln, ref, cur, a + b, p) ==
            CategoricalFeatures(ln, ref, cur, a, p) + CategoricalFeatures(ln, ref, cur, b, p)
    ensures CategoricalFeatures(ln, ref, cur, [col], p) == CategoricalFeature(ln, ref, cur, col, p(col))
    decreases |b|
  {
    hide CategoricalFeature;
    assert CategoricalFeatures(ln, ref, cur, [col][..0], p) == [];
    if b == [] {
      assert a + b == a;
    } else {
      CategoricalByColumn(ln, ref, cur, a, b[..|b| - 1], col, p);
      assert (a + b)[..|a + b| - 1] == a + b[..|b| - 1];
    }
  }

  /** Both floors of the index at work: a share that vanished altogether counts as a ten-thousandth. */
  lemma VanishedShare(ln: real -> real)
    ensures Psi(ln, [1.0], [0.0]) == (0.0001 - 1.0) * ln(Ratio(0.0001, 1.0))
  {
    assert Psi(ln, [1.0][1..], [0.0][1..]) == 0.0;
  }

  // ---------------------------------------------------------------- columns of the window

  lemma {:induction false} NumbersOf(a: seq<Row>, b: seq<Row>, r: Row, col: string)
    ensures Numbers(a + b, col) == Numbers(a, col) + Numbers(b, col)
    ensures Numbers([r], col) == if col in r.num && r.num[col].Some? then [r.num[col].value] else []
    decreases |b|
  {
    assert Numbers([r], col) == Numbers([r][..0], col) + if col in r.num && r.num[col].Some? then [r.num[col].value]
        else [];
    if b == [] {
      assert a + b == a;
    } else {
      NumbersOf(a, b[..|b| - 1], r, col);
      assert (a + b)[..|a + b| - 1] == a + b[..|b| - 1];
    }
  }

  lemma {:induction false} LabelsOf(a: seq<Row>, b: seq<Row>, r: Row, col: string)
    ensures Labels(a + b, col) == Labels(a, col) + Labels(b, col)
    ensures Labels([r], col) == if col in r.cat && r.cat[col].Some? then [r.cat[col].value] else []
    decreases |b|
  {
    assert Labels([r], col) == Labels([r][..0], col) + if col in r.cat && r.cat[col].Some? then [r.cat[col].value]
        else [];
    if b == [] {
      assert a + b == a;
    } else {
      LabelsOf(a, b[..|b| - 1], r, col);
      assert (a + b)[..|a + b| - 1] == a + b[..|b| - 1];
    }
  }

  /** Only rows without any feature are dropped, and order is kept. */
  lemma {:induction false} NonBlankOf(a: seq<Row>, b: seq<Row>, r: Row)
    ensures NonBlank(a + b) == NonBlank(a) + NonBlank(b)
    ensures NonBlank([r]) == if r == Row(map[], map[]) then [] else [r]
    decreases |b|
  {
    assert NonBlank([r]) == NonBlank([r][..0]) + if Blank(r) then [] else [r];
    if b == [] {
      assert a + b == a;
    } else {
      NonBlankOf(a, b[..|b| - 1], r);
      assert (a + b)[..|a + b| - 1] == a + b[..|b| - 1];
    }
  }

  // ---------------------------------------------------------------- reports

  /** A feature is reported with its index, breaching exactly if it is flagged. */
  lemma FeatureTells(f: Feature)
    ensures var d := FeatureResult(f);
            d.detector == Detector.DriftDetector && d.metric == Some(DataDriftPsi) && d.anomalyDetected == f.drift &&
            d.observed == d.score && d.score.Some? && f.psi - 0.00005 <= d.score.value <= f.psi + 0.00005
  {
    RoundNear(f.psi, 10000.0);
  }

  /** The aggregate carries the share of the eight features that drifted, and breaches from 0.30 on. */
  lemma AggregateTells(drifted: nat)
    ensures var d := Aggregate(drifted);
            d.detector == Detector.DriftDetector && d.metric == Some(DataDriftAggregate) &&
            d.observed == d.score == Some(drifted as real / 8.0) &&
              (d.anomalyDetected <==> drifted as real / 8.0 >= 0.30)
  {
    RoundExact(drifted as real / 8.0, 10000.0, 1250 * drifted);
  }

  /** The drifted features, in order. */
  function Drifted(fs: seq<Feature>): seq<Feature> {
    if fs == [] then [] else Drifted(fs[..|fs| - 1]) + (if fs[|fs| - 1].drift then [fs[|fs| - 1]] else [])
  }

  lemma DriftedSnoc(fs: seq<Feature>, f: Feature)
    ensures Drifted(fs + [f]) == Drifted(fs) + if f.drift then [f] else []
  {
    assert (fs + [f])[..|fs|] == fs;
  }

  lemma ResultsSnoc(fs: seq<Feature>, f: Feature)
    ensures FeatureResults(fs + [f]) == FeatureResults(fs) + [FeatureResult(f)]
  {
    assert (fs + [f])[..|fs|] == fs;
  }

  lemma DetectedSnoc(ds: seq<DetectionResult>, d: DetectionResult)
    ensures Detected(ds + [d]) == Detected(ds) + if d.anomalyDetected then [d] else []
  {
    assert (ds + [d])[..|ds|] == ds;
  }

  lemma {:induction false} DetectedFeatures(fs: seq<Feature>)
    ensures Detected(FeatureResults(fs)) == FeatureResults(Drifted(fs)) && |Drifted(fs)| == CountDrifted(fs)
  {
    hide FeatureResult;
    if fs != [] {
      var most, f := fs[..|fs| - 1], fs[|fs| - 1];
      assert fs == most + [f];
      DetectedFeatures(most);
      ResultsSnoc(most, f);
      DriftedSnoc(most, f);
      DetectedSnoc(FeatureResults(most), FeatureResult(f));
      assert FeatureResult(f).anomalyDetected == f.drift by { FeatureTells(f); }
      if f.drift { ResultsSnoc(Drifted(most), f); } else { assert Drifted(most) + [] == Drifted(most); }
    }
  }

  /** The findings of an evaluation: the drifted features in order, then the aggregate, twice if three or more
      of the eight drifted. */
  lemma FindingsAre(fs: seq<Feature>)
    ensures var agg := Aggregate(|Drifted(fs)|);
            Findings(fs) == FeatureResults(Drifted(fs)) + if |Drifted(fs)| >= 3 then [agg, agg] else [agg]
  {
    var agg := Aggregate(CountDrifted(fs));
    DetectedFeatures(fs);
    AggregateTells(CountDrifted(fs));
    DetectedSnoc(FeatureResults(fs), agg);
    var all := FeatureResults(fs) + [agg];
    assert all[|all| - 1..] == [agg];
    hide Aggregate, FeatureResults, Detected, Drifted;
    if CountDrifted(fs) >= 3 { assert agg.anomalyDetected; assert [agg] + [agg] == [agg, agg]; }
  }

  // ---------------------------------------------------------------- stronger evidence

  /** The same features with at least as many flags. */
  ghost predicate AtLeastAsFlagged(fs: seq<Feature>, gs: seq<Feature>) {
    |fs| == |gs| && forall i :: 0 <= i < |fs| ==> fs[i].psi == gs[i].psi && (fs[i].drift ==> gs[i].drift)
  }

  lemma {:induction false} MoreFlagsCountMore(fs: seq<Feature>, gs: seq<Feature>)
    requires AtLeastAsFlagged(fs, gs)
    ensures CountDrifted(fs) <= CountDrifted(gs)
  {
    if fs != [] { MoreFlagsCountMore(fs[..|fs| - 1], gs[..|gs| - 1]); }
  }

  lemma {:induction false} NumericFlags(ln: real -> real, ref: Reference, cur: seq<Row>, cols: seq<string>,
                                        p: string -> real, q: string -> real, nMin: int)
    requires forall c: string :: q(c) <= p(c)
    ensures AtLeastAsFlagged(NumericFeatures(ln, ref, cur, cols, p, nMin), NumericFeatures(ln, ref, cur, cols, q, nMin))
  {
    hide Psi, Props, Bins, Numbers;
    if cols != [] { NumericFlags(ln, ref, cur, cols[..|cols| - 1], p, q, nMin); }
  }

  lemma {:induction false} CategoricalFlags(ln: real -> real, ref: Reference, cur: seq<Row>, cols: seq<string>,
                                            p: string -> real, q: string -> real)
    requires forall c: string :: q(c) <= p(c)
    ensures AtLeastAsFlagged(CategoricalFeatures(ln, ref, cur, cols, p), CategoricalFeatures(ln, ref, cur, cols, q))
  {
    hide CategoricalPsi, Labels;
    if cols != [] { CategoricalFlags(ln, ref, cur, cols[..|cols| - 1], p, q); }
  }

  /** Lowering p-values, column by column, never lowers the number of drifted features or the severity of the
      findings. */
  lemma StrongerEvidence(cfg: Settings, ln: real -> real, ref: Reference, cur: seq<Row>, p: string -> real,
                         q: string -> real, nMin: int)
    requires forall c: string :: q(c) <= p(c)
    ensures CountDrifted(Features(ln, ref, cur, p, nMin)) <= CountDrifted(Features(ln, ref, cur, q, nMin))
    ensures Rank(Classify(cfg, Findings(Features(ln, ref, cur, p, nMin)))) <=
            Rank(Classify(cfg, Findings(Features(ln, ref, cur, q, nMin))))
  {
    hide NumericFeatures, CategoricalFeatures, Findings, Classify;
    NumericFlags(ln, ref, cur, NUMERIC_COLS, p, q, nMin);
    CategoricalFlags(ln, ref, cur, CATEGORICAL_COLS, p, q);
    MoreFlagsCountMore(Features(ln, ref, cur, p, nMin), Features(ln, ref, cur, q, nMin));
    DriftSeverity(cfg, Features(ln, ref, cur, p, nMin));
    DriftSeverity(cfg, Features(ln, ref, cur, q, nMin));
  }
}
