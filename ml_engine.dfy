/**
 * The prediction engine: three analysis modes over a fitted decision tree,
 * a nearest-neighbour index with its scaler, and a random forest with its
 * SHAP explainer, plus the load-or-train lifecycle.  The fitted models are
 * oracles; advice lines are structured values (their wording and number
 * formatting are not modelled).
 */
module MlEngine {
  import opened Wrappers
  import opened PyNum
  import opened Seqs
  import opened Features
  import opened Grades
  import opened DecisionTree
  import opened StableSort

  // ----- fitted models -----

  const N_NEIGHBORS: nat := 5

  /** The row positions `kneighbors` returns for one query. */
  type Neighbours = s: seq<nat> | |s| == N_NEIGHBORS witness [0, 0, 0, 0, 0]

  datatype Scaler = Scaler(transform: Values -> Values)
  datatype Knn = Knn(kneighbors: Values -> Neighbours)
  /** `rf.predict` and `shap.TreeExplainer(rf).shap_values` for one sample. */
  datatype Forest = Forest(predict: Values -> real, shapValues: Values -> Values)

  // ----- advice -----

  datatype Trend = OnTrack | Stable | AtRisk
  datatype Arrow = Up | Down | Level

  datatype Line =
    | PathHeader
    | PathStep(step: nat, feature: Feature, value: real, threshold: real, lower: bool)
    | ScoreLine(score: real, grade: Grade)
    | Trajectory(trend: Trend)
    | TipsHeader
    | Tip(feature: Feature, value: real)
    | Optimal
    | PeersHeader
    | PeerRow(feature: Feature, peerAvg: real, mine: real, arrow: Arrow, delta: real)
    | PeerGradeLine(avg: real)
    | PredictionLine(score: real)
    | GapsHeader
    | GapLine(feature: Feature, diff: real)
    | AtOrAbove
    | ShapHeader
    | TopPositive(feature: Feature, sv: real)
    | TopNegative(feature: Feature, sv: real)
    | BreakdownHeader
    | BreakdownRow(feature: Feature, value: real, sv: real, bar: nat)
    | HighestImpact(feature: Feature, cost: real)

  /** One entry of the structured SHAP list of deep mode. */
  datatype ShapEntry = ShapEntry(featureKey: Feature, value: real, impactScore: real)

  /** An exception raised by a predictor. */
  datatype Failure = NotLoaded | NeighbourOutOfRange

  /** A predictor's return value: a 2-tuple, a 3-tuple, or an exception. */
  datatype Outcome =
    | Pair(score: real, advice: seq<Line>)
    | Triple(score: real, advice: seq<Line>, shap: seq<ShapEntry>)
    | Raised(failure: Failure)

  /** The engine's five fields. */
  datatype EngineState = EngineState(
    dt: Option<FittedTree>, knn: Option<Knn>, rf: Option<Forest>,
    scaler: Option<Scaler>, trainDf: Option<Frame>)

  // ----- strict mode -----

  /** The step line for an internal node at position `step` (1-based) of the path. */
  function StepLine(t: Tree, x: Values, node: nat, step: nat): Line
    requires ValidTree(t) && node < Size(t) && !IsLeaf(t, node)
  {
    PathStep(step, NodeFeature(t, node), x.Get(NodeFeature(t, node)), t.threshold[node], GoesLeft(t, x, node))
  }

  predicate InternalNodes(t: Tree, nodes: seq<nat>)
    requires ValidTree(t)
  {
    forall k :: 0 <= k < |nodes| ==> nodes[k] < Size(t) && !IsLeaf(t, nodes[k])
  }

  /** One numbered comparison line per node. */
  function PathSteps(t: Tree, x: Values, nodes: seq<nat>): (r: seq<Line>)
    requires ValidTree(t) && InternalNodes(t, nodes)
    ensures |r| == |nodes|
    ensures forall k :: 0 <= k < |nodes| ==> r[k] == StepLine(t, x, nodes[k], k + 1)
  {
    if nodes == [] then [] else PathSteps(t, x, nodes[..|nodes| - 1]) + [StepLine(t, x, nodes[|nodes| - 1], |nodes|)]
  }

  /** The path without its leaf. */
  function InternalPath(t: Tree, x: Values): (p: seq<nat>)
    requires ValidTree(t)
    ensures InternalNodes(t, p)
  {
    var full := Path(t, x, 0);
    full[..|full| - 1]
  }

  function TrendOf(score: real): (tr: Trend)
    ensures tr == OnTrack <==> score >= 80.0
    ensures tr == Stable <==> 65.0 <= score < 80.0
    ensures tr == AtRisk <==> score < 65.0
  {
    if score >= 80.0 then OnTrack else if score >= 65.0 then Stable else AtRisk
  }

  /** The improvement-lever thresholds. */
  function TipThreshold(f: Feature): real {
    match f
    case StudyHours => 4.0
    case AttentionSpan => 40.0
    case FocusRatio => 60.0
    case SleepHours => 7.0
    case BreakFreq => 2.0
  }

  function TipIf(x: Values, f: Feature): seq<Line> {
    if x.Get(f) < TipThreshold(f) then [Tip(f, x.Get(f))] else []
  }

  /** The five threshold tests, in feature order. */
  function Tips(x: Values): seq<Line> {
    TipIf(x, StudyHours) + TipIf(x, AttentionSpan) + TipIf(x, FocusRatio)
    + TipIf(x, SleepHours) + TipIf(x, BreakFreq)
  }

  function TipsSection(x: Values): seq<Line> {
    var tips := Tips(x);
    if tips != [] then [TipsHeader] + tips else [Optimal]
  }

  function StrictAdvice(t: FittedTree, x: Values, score: real): seq<Line> {
    [PathHeader] + PathSteps(t, x, InternalPath(t, x))
    + [ScoreLine(score, ScoreToGrade(score)), Trajectory(TrendOf(score))]
    + TipsSection(x)
  }

  /** `predict_strict` as a value: the clamped tree prediction and its explanation. */
  function StrictOutcome(st: EngineState, x: Values): (r: Outcome)
    ensures st.dt.None? <==> r.Raised?
    ensures r.Pair? ==> 0.0 <= r.score <= 100.0 && r.score == Clip(Predict(st.dt.value, x), 0.0, 100.0)
    ensures !r.Triple?
  {
    if st.dt.None? then Raised(NotLoaded)
    else
      var score := Clip(Predict(st.dt.value, x), 0.0, 100.0);
      Pair(score, StrictAdvice(st.dt.value, x, score))
  }

  /**
   * The decision path part: one line per internal node of the root-to-leaf
   * path, numbered from 1, at most three, each recording whether the value
   * is at most the threshold.
   */
  lemma StrictPathLines(t: FittedTree, x: Values)
    ensures var steps := PathSteps(t, x, InternalPath(t, x));
      && |steps| == |Path(t, x, 0)| - 1
      && |steps| <= MAX_DEPTH
      && forall k :: 0 <= k < |steps| ==>
           var node := Path(t, x, 0)[k];
           && steps[k].PathStep? && steps[k].step == k + 1
           && steps[k].feature == NodeFeature(t, node)
           && steps[k].value == x.Get(NodeFeature(t, node))
           && steps[k].threshold == t.threshold[node]
           && (steps[k].lower <==> x.Get(NodeFeature(t, node)) <= t.threshold[node])
  {
    FittedPathLength(t, x);
  }

  lemma TipsFacts(x: Values)
    ensures forall k :: 0 <= k < |Tips(x)| ==>
      Tips(x)[k].Tip? && Tips(x)[k].value == x.Get(Tips(x)[k].feature)
      && x.Get(Tips(x)[k].feature) < TipThreshold(Tips(x)[k].feature)
    ensures forall f: Feature :: x.Get(f) < TipThreshold(f) ==> Tip(f, x.Get(f)) in Tips(x)
  {
    forall f: Feature | x.Get(f) < TipThreshold(f) ensures Tip(f, x.Get(f)) in Tips(x) {
      assert Tip(f, x.Get(f)) in TipIf(x, f);
    }
  }

  /**
   * A tip is given for exactly the features below their threshold, and the
   * "optimal parameters" line appears exactly when there is no tip.
   */
  lemma TipsSectionFacts(x: Values)
    ensures forall f: Feature :: Tip(f, x.Get(f)) in TipsSection(x) <==> x.Get(f) < TipThreshold(f)
    ensures Optimal in TipsSection(x) <==> forall f: Feature :: x.Get(f) >= TipThreshold(f)
  {
    var tips := Tips(x);
    forall f: Feature ensures Tip(f, x.Get(f)) in tips <==> x.Get(f) < TipThreshold(f) {
      TipIn(x, f);
    }
    if tips == [] {
      assert TipsSection(x) == [Optimal];
    } else {
      assert TipsSection(x) == [TipsHeader] + tips;
      TipsFacts(x);
      assert tips[0].Tip? && tips[0] in tips;
      assert Optimal !in tips;
    }
  }

  /** A feature gets its tip exactly when it is below its threshold. */
  lemma TipIn(x: Values, f: Feature)
    ensures Tip(f, x.Get(f)) in Tips(x) <==> x.Get(f) < TipThreshold(f)
  {
    var t := Tip(f, x.Get(f));
    assert t in Tips(x) <==> (t in TipIf(x, StudyHours) || t in TipIf(x, AttentionSpan)
      || t in TipIf(x, FocusRatio) || t in TipIf(x, SleepHours) || t in TipIf(x, BreakFreq));
  }

  // ----- peer mode -----

  /** A column of the frame: one of the features or the target. */
  datatype Column = FeatureCol(f: Feature) | TargetCol

  function Cell(r: Row, c: Column): real {
    match c
    case FeatureCol(f) => r.features.Get(f)
    case TargetCol => r.currentGrade
  }

  function SumCol(rows: seq<Row>, c: Column): real {
    if rows == [] then 0.0 else SumCol(rows[..|rows| - 1], c) + Cell(rows[|rows| - 1], c)
  }

  /** `DataFrame.mean()` of one column. */
  function MeanCol(rows: seq<Row>, c: Column): real
    requires rows != []
  {
    SumCol(rows, c) / |rows| as real
  }

  /** The mean of every column of the neighbours' rows. */
  function PeerAverage(rows: seq<Row>): Row
    requires rows != []
  {
    Row(Values(MeanCol(rows, FeatureCol(StudyHours)), MeanCol(rows, FeatureCol(AttentionSpan)),
               MeanCol(rows, FeatureCol(FocusRatio)), MeanCol(rows, FeatureCol(SleepHours)),
               MeanCol(rows, FeatureCol(BreakFreq))),
        MeanCol(rows, TargetCol))
  }

  lemma {:induction false} SumColBounds(rows: seq<Row>, c: Column, lo: real, hi: real)
    requires forall k :: 0 <= k < |rows| ==> lo <= Cell(rows[k], c) <= hi
    ensures |rows| as real * lo <= SumCol(rows, c) <= |rows| as real * hi
  {
    if rows != [] {
      SumColBounds(rows[..|rows| - 1], c, lo, hi);
      assert Cell(rows[|rows| - 1], c) <= hi;
    }
  }

  /** A peer average lies between the smallest and the largest neighbour value. */
  lemma MeanColBounds(rows: seq<Row>, c: Column, lo: real, hi: real)
    requires rows != []
    requires forall k :: 0 <= k < |rows| ==> lo <= Cell(rows[k], c) <= hi
    ensures lo <= MeanCol(rows, c) <= hi
  {
    SumColBounds(rows, c, lo, hi);
    var n := |rows| as real;
    assert n * lo <= SumCol(rows, c) <= n * hi;
    assert MeanCol(rows, c) == SumCol(rows, c) / n;
  }

  /** Every neighbour index names a row of the frame (`iloc` raises otherwise). */
  predicate InFrame(df: Frame, idx: Neighbours) {
    forall k :: 0 <= k < |idx| ==> idx[k] < |df|
  }

  function NeighbourRows(df: Frame, idx: Neighbours): (rows: seq<Row>)
    requires InFrame(df, idx)
    ensures |rows| == N_NEIGHBORS
    ensures forall k :: 0 <= k < N_NEIGHBORS ==> rows[k] == df[idx[k]]
  {
    seq(N_NEIGHBORS, k requires 0 <= k < N_NEIGHBORS => df[idx[k]])
  }

  /** The comparison arrow with its 0.1 dead band. */
  function ArrowOf(delta: real): (a: Arrow)
    ensures a == Up <==> delta > 0.1
    ensures a == Down <==> delta < -0.1
    ensures a == Level <==> -0.1 <= delta <= 0.1
  {
    if delta > 0.1 then Up else if delta < -0.1 then Down else Level
  }

  function PeerRowOf(avg: Values, x: Values, f: Feature): Line {
    var delta := x.Get(f) - avg.Get(f);
    PeerRow(f, avg.Get(f), x.Get(f), ArrowOf(delta), delta)
  }

  function PeerRows(avg: Values, x: Values, fs: seq<Feature>): seq<Line> {
    Map(f => PeerRowOf(avg, x, f), fs)
  }

  function GapOf(avg: Values, x: Values, f: Feature): Option<(Feature, real)> {
    var diff := avg.Get(f) - x.Get(f);
    if diff > 0.5 then Some((f, diff)) else None
  }

  function NegDiff(g: (Feature, real)): real { -g.1 }

  /** The features more than 0.5 below the peer average, largest gap first. */
  function Gaps(avg: Values, x: Values): seq<(Feature, real)> {
    SortBy(FilterMap(f => GapOf(avg, x, f), FEATURES), NegDiff)
  }

  function GapLineOf(g: (Feature, real)): Line { GapLine(g.0, g.1) }

  function GapsSection(avg: Values, x: Values): seq<Line> {
    var gaps := Gaps(avg, x);
    if gaps != [] then [GapsHeader] + Map(GapLineOf, Take(gaps, 3)) else [AtOrAbove]
  }

  function PeerAdvice(avg: Row, x: Values, score: real): seq<Line> {
    [PeersHeader] + PeerRows(avg.features, x, FEATURES)
    + [PeerGradeLine(avg.currentGrade), PredictionLine(score)]
    + GapsSection(avg.features, x)
  }

  /**
   * `predict_peer` as a value.  The score is the forest's clamped
   * prediction, not the neighbours' mean grade.
   */
  function PeerOutcome(st: EngineState, x: Values): (r: Outcome)
    ensures r.Raised? <==>
      || st.scaler.None? || st.knn.None? || st.trainDf.None? || st.rf.None?
      || !InFrame(st.trainDf.value, st.knn.value.kneighbors(st.scaler.value.transform(x)))
    ensures r.Pair? ==> 0.0 <= r.score <= 100.0 && r.score == Clip(st.rf.value.predict(x), 0.0, 100.0)
    ensures !r.Triple?
  {
    if st.scaler.None? || st.knn.None? then Raised(NotLoaded)
    else
      var idx := st.knn.value.kneighbors(st.scaler.value.transform(x));
      if st.trainDf.None? then Raised(NotLoaded)
      else if !InFrame(st.trainDf.value, idx) then Raised(NeighbourOutOfRange)
      else if st.rf.None? then Raised(NotLoaded)
      else
        var avg := PeerAverage(NeighbourRows(st.trainDf.value, idx));
        var score := Clip(st.rf.value.predict(x), 0.0, 100.0);
        Pair(score, PeerAdvice(avg, x, score))
  }

  /** One row per feature, in feature order, with the dead-band arrow. */
  lemma PeerRowsFacts(avg: Values, x: Values)
    ensures |PeerRows(avg, x, FEATURES)| == |FEATURES|
    ensures forall i :: 0 <= i < |FEATURES| ==>
      var row := PeerRows(avg, x, FEATURES)[i];
      && row.PeerRow? && row.feature == FEATURES[i]
      && row.delta == x.Get(FEATURES[i]) - avg.Get(FEATURES[i])
      && (row.arrow == Up <==> row.delta > 0.1)
      && (row.arrow == Down <==> row.delta < -0.1)
  {
  }

  /** `e` is a feature more than 0.5 behind the peers, with that difference. */
  predicate IsGap(avg: Values, x: Values, e: (Feature, real)) {
    e.1 == avg.Get(e.0) - x.Get(e.0) > 0.5
  }

  /** Each entry of the gap list is a feature more than 0.5 behind, with that difference. */
  lemma {:induction false} GapsEntries(avg: Values, x: Values)
    ensures forall k :: 0 <= k < |Gaps(avg, x)| ==>
      Gaps(avg, x)[k].1 == avg.Get(Gaps(avg, x)[k].0) - x.Get(Gaps(avg, x)[k].0) > 0.5
  {
    var kept := FilterMap(f => GapOf(avg, x, f), FEATURES);
    var gaps := Gaps(avg, x);
    KeptGaps(avg, x);
    SortByFacts(kept, NegDiff);
    forall k | 0 <= k < |gaps| ensures IsGap(avg, x, gaps[k]) {
      assert gaps[k] in multiset(kept);
    }
  }

  /** Before sorting, every kept entry is a gap. */
  lemma KeptGaps(avg: Values, x: Values)
    ensures forall e :: e in FilterMap(f => GapOf(avg, x, f), FEATURES) ==> IsGap(avg, x, e)
  {
    var g := f => GapOf(avg, x, f);
    var kept := FilterMap(g, FEATURES);
    FilterMapFrom(g, FEATURES);
    forall e | e in kept ensures IsGap(avg, x, e) {
      var m :| 0 <= m < |kept| && kept[m] == e;
      var i :| 0 <= i < |FEATURES| && g(FEATURES[i]) == Some(kept[m]);
    }
  }

  /** The gap list is ordered largest gap first. */
  lemma GapsOrdered(avg: Values, x: Values)
    ensures forall i, j :: 0 <= i < j < |Gaps(avg, x)| ==> Gaps(avg, x)[i].1 >= Gaps(avg, x)[j].1
  {
    var gaps := Gaps(avg, x);
    SortByFacts(FilterMap(f => GapOf(avg, x, f), FEATURES), NegDiff);
    forall i, j | 0 <= i < j < |gaps| ensures gaps[i].1 >= gaps[j].1 {
      assert NegDiff(gaps[i]) <= NegDiff(gaps[j]);
    }
  }

  /** A feature more than 0.5 behind is in the gap list. */
  lemma GapListed(avg: Values, x: Values, f: Feature)
    requires avg.Get(f) - x.Get(f) > 0.5
    ensures (f, avg.Get(f) - x.Get(f)) in Gaps(avg, x)
  {
    var g := f => GapOf(avg, x, f);
    var kept := FilterMap(g, FEATURES);
    var e := (f, avg.Get(f) - x.Get(f));
    assert g(FEATURES[Index(f)]) == Some(e);
    FilterMapKeeps(g, FEATURES, Index(f));
    assert e in kept;
    SortByFacts(kept, NegDiff);
    assert e in multiset(SortBy(kept, NegDiff));
  }

  /** A feature is listed exactly when its peer average exceeds the user's value by more than 0.5. */
  lemma GapsMembers(avg: Values, x: Values)
    ensures forall f: Feature :: avg.Get(f) - x.Get(f) > 0.5 <==> (f, avg.Get(f) - x.Get(f)) in Gaps(avg, x)
  {
    var gaps := Gaps(avg, x);
    GapsEntries(avg, x);
    forall f: Feature ensures avg.Get(f) - x.Get(f) > 0.5 <==> (f, avg.Get(f) - x.Get(f)) in gaps {
      if avg.Get(f) - x.Get(f) > 0.5 {
        GapListed(avg, x, f);
      }
      if (f, avg.Get(f) - x.Get(f)) in gaps {
        var k :| 0 <= k < |gaps| && gaps[k] == (f, avg.Get(f) - x.Get(f));
      }
    }
  }

  /**
   * At most three gaps are printed, the largest ones; the "already at or
   * above" line appears exactly when no feature is more than 0.5 behind.
   */
  lemma GapsSectionFacts(avg: Values, x: Values)
    ensures AtOrAbove in GapsSection(avg, x) <==> forall f: Feature :: avg.Get(f) - x.Get(f) <= 0.5
    ensures |GapsSection(avg, x)| <= 4
    ensures Gaps(avg, x) != [] ==>
      GapsSection(avg, x) == [GapsHeader] + Map(GapLineOf, Take(Gaps(avg, x), 3))
  {
    GapsMembers(avg, x);
    GapsEntries(avg, x);
    var gaps := Gaps(avg, x);
    var sec := GapsSection(avg, x);
    if gaps != [] {
      var f := gaps[0].0;
      assert (f, avg.Get(f) - x.Get(f)) in gaps;
      forall k | 0 <= k < |sec| ensures sec[k] != AtOrAbove {
        if k > 0 {
          assert sec[k] == GapLineOf(Take(gaps, 3)[k - 1]);
        }
      }
    }
  }

  // ----- deep mode -----

  /** A feature with its attribution. */
  type Attribution = (Feature, real)

  function PairOf(sv: Values, f: Feature): (Feature, real) { (f, sv.Get(f)) }

  /** `shap_map.items()`: (feature, attribution) in feature order. */
  function ShapPairs(sv: Values): seq<(Feature, real)> {
    Map(f => PairOf(sv, f), FEATURES)
  }

  function ByValue(p: (Feature, real)): real { p.1 }
  function ByValueDesc(p: (Feature, real)): real { -p.1 }
  function ByImpactDesc(p: (Feature, real)): real { -Abs(p.1) }

  /**
   * Sorting the attributions by any key keeps exactly one pair per
   * feature, each with that feature's attribution, in key order.
   */
  lemma SortedShap(sv: Values, key: Attribution -> real)
    ensures var r := SortBy(ShapPairs(sv), key);
      && |r| == |FEATURES|
      && SortedBy(r, key)
      && (forall k :: 0 <= k < |r| ==> r[k] == PairOf(sv, r[k].0))
      && (forall f: Feature :: PairOf(sv, f) in r)
      && (forall i, j :: 0 <= i < j < |r| ==> r[i].0 != r[j].0)
  {
    var pairs := ShapPairs(sv);
    var r := SortBy(pairs, key);
    SortByFacts(pairs, key);
    FeaturesDistinct();
    assert Distinct(pairs) by {
      forall i, j | 0 <= i < j < |pairs| ensures pairs[i] != pairs[j] {
        assert pairs[i].0 == FEATURES[i] && pairs[j].0 == FEATURES[j];
      }
    }
    PermutationDistinct(r, pairs);
    assert |r| == |pairs| by {
      assert |multiset(r)| == |multiset(pairs)|;
    }
    forall k | 0 <= k < |r| ensures r[k] == PairOf(sv, r[k].0) {
      assert r[k] in multiset(pairs);
    }
    forall f: Feature ensures PairOf(sv, f) in r {
      assert pairs[Index(f)] == PairOf(sv, f);
      assert PairOf(sv, f) in multiset(pairs);
    }
  }

  /** The smallest attribution: `sorted(..., key=v)[0]`. */
  function Worst(sv: Values): (Feature, real) {
    SortBy(ShapPairs(sv), ByValue)[0]
  }

  /** The largest attribution: `sorted(..., key=v)[-1]`. */
  function Best(sv: Values): (Feature, real) {
    SortBy(ShapPairs(sv), ByValue)[|FEATURES| - 1]
  }

  /** The worst factor has the minimum attribution and the best factor the maximum. */
  lemma WorstAndBest(sv: Values)
    ensures Worst(sv).1 == sv.Get(Worst(sv).0) && Best(sv).1 == sv.Get(Best(sv).0)
    ensures forall f: Feature :: Worst(sv).1 <= sv.Get(f) <= Best(sv).1
  {
    SortedShap(sv, ByValue);
    SortByExtremes(ShapPairs(sv), ByValue);
    forall f: Feature ensures Worst(sv).1 <= sv.Get(f) <= Best(sv).1 {
      assert ShapPairs(sv)[Index(f)] == PairOf(sv, f);
      assert PairOf(sv, f) in ShapPairs(sv);
      assert ByValue(PairOf(sv, f)) == sv.Get(f);
    }
  }

  function Max(a: real, b: real): real { if a >= b then a else b }

  /** `max(abs(v) for v in ...)` over the features in `fs` (0 for none). */
  function MaxAbsOver(sv: Values, fs: seq<Feature>): (m: real)
    ensures m >= 0.0
    ensures forall k :: 0 <= k < |fs| ==> Abs(sv.Get(fs[k])) <= m
    ensures fs != [] ==> exists k :: 0 <= k < |fs| && Abs(sv.Get(fs[k])) == m
    ensures fs == [] ==> m == 0.0
  {
    if fs == [] then 0.0
    else
      var m := MaxAbsOver(sv, fs[..|fs| - 1]);
      var a := Abs(sv.Get(fs[|fs| - 1]));
      Max(m, a)
  }

  /** `max(...) or 1.0`: the largest absolute attribution, 1.0 when all are 0. */
  function MaxAbs(sv: Values): (m: real)
    ensures m > 0.0
    ensures forall f: Feature :: Abs(sv.Get(f)) <= m
    ensures (forall f: Feature :: sv.Get(f) == 0.0) ==> m == 1.0
    ensures (exists f: Feature :: sv.Get(f) != 0.0) ==> exists f: Feature :: Abs(sv.Get(f)) == m
  {
    var mx := MaxAbsOver(sv, FEATURES);
    assert forall f: Feature :: Abs(sv.Get(f)) <= mx by {
      forall f: Feature ensures Abs(sv.Get(f)) <= mx {
        assert FEATURES[Index(f)] == f;
      }
    }
    if mx != 0.0 then mx else 1.0
  }

  const BAR_WIDTH: nat := 12

  /** |v| / max_v * width, before rounding. */
  function Scaled(v: real, maxV: real, width: nat): real
    requires maxV != 0.0
  {
    Abs(v) / maxV * width as real
  }

  /**
   * `_bar`: round(|v| / max_v * width) blocks when max_v is non-zero and
   * no blocks otherwise ("█" times a negative count is empty).
   */
  function Bar(v: real, maxV: real, width: nat): (n: nat)
    ensures maxV == 0.0 ==> n == 0
    ensures maxV != 0.0 && RoundHalfEven(Scaled(v, maxV, width)) >= 0
      ==> n == RoundHalfEven(Scaled(v, maxV, width))
    ensures maxV != 0.0 && RoundHalfEven(Scaled(v, maxV, width)) < 0 ==> n == 0
  {
    var filled := if maxV != 0.0 then RoundHalfEven(Scaled(v, maxV, width)) else 0;
    if filled >= 0 then filled else 0
  }

  /** A ratio of a magnitude to a bound at least as large is at most 1. */
  lemma RatioAtMostOne(a: real, m: real)
    requires 0.0 <= a <= m && m > 0.0
    ensures 0.0 <= a / m <= 1.0
    ensures a == m ==> a / m == 1.0
  {
    var d := a / m;
    assert d * m == a;
    if a == m {
      assert (d - 1.0) * m == 0.0;
    }
  }

  /** Scaling a magnitude by a bound at least as large stays within the width. */
  lemma ScaledWithinWidth(v: real, maxV: real, width: nat)
    requires maxV > 0.0 && Abs(v) <= maxV
    ensures 0.0 <= Scaled(v, maxV, width) <= width as real
    ensures Abs(v) == maxV ==> Scaled(v, maxV, width) == width as real
  {
    var d := Abs(v) / maxV;
    RatioAtMostOne(Abs(v), maxV);
    assert (1.0 - d) * width as real >= 0.0;
  }

  /** With a positive maximum no bar exceeds its width, and the largest attribution fills it. */
  lemma BarWithinWidth(v: real, maxV: real, width: nat)
    requires maxV > 0.0 && Abs(v) <= maxV
    ensures Bar(v, maxV, width) <= width
    ensures Abs(v) == maxV ==> Bar(v, maxV, width) == width
  {
    var q := Scaled(v, maxV, width);
    ScaledWithinWidth(v, maxV, width);
    RoundHalfEvenMonotone(0.0, q);
    RoundHalfEvenMonotone(q, width as real);
    RoundHalfEvenOfInt(0);
    RoundHalfEvenOfInt(width);
  }

  function BreakdownRowOf(x: Values, maxAbs: real, p: (Feature, real)): Line {
    BreakdownRow(p.0, x.Get(p.0), p.1, Bar(p.1, maxAbs, BAR_WIDTH))
  }

  /** One breakdown row per attribution of `ps`, in order. */
  function BreakdownLines(x: Values, maxAbs: real, ps: seq<Attribution>): (r: seq<Line>)
    ensures |r| == |ps|
    ensures forall k :: 0 <= k < |ps| ==> r[k] == BreakdownRowOf(x, maxAbs, ps[k])
    ensures forall k :: 0 <= k < |ps| ==> r[k].BreakdownRow? && r[k].feature == ps[k].0 && r[k].sv == ps[k].1
  {
    if ps == [] then [] else BreakdownLines(x, maxAbs, ps[..|ps| - 1]) + [BreakdownRowOf(x, maxAbs, ps[|ps| - 1])]
  }

  function Breakdown(x: Values, sv: Values): seq<Line> {
    BreakdownLines(x, MaxAbs(sv), SortBy(ShapPairs(sv), ByValueDesc))
  }

  function ImpactSection(sv: Values): seq<Line> {
    var worst := Worst(sv);
    if Abs(worst.1) > 2.0 then [HighestImpact(worst.0, Abs(worst.1))] else []
  }

  function DeepAdvice(x: Values, sv: Values, score: real): seq<Line> {
    [ShapHeader, TopPositive(Best(sv).0, Best(sv).1), TopNegative(Worst(sv).0, Worst(sv).1), BreakdownHeader]
    + Breakdown(x, sv)
    + [ScoreLine(score, ScoreToGrade(score))]
    + ImpactSection(sv)
  }

  function EntryOf(x: Values, p: (Feature, real)): ShapEntry {
    ShapEntry(p.0, x.Get(p.0), RoundTo(p.1, 2))
  }

  /** The structured list, largest absolute attribution first. */
  function Structured(x: Values, sv: Values): seq<ShapEntry> {
    Map(p => EntryOf(x, p), SortBy(ShapPairs(sv), ByImpactDesc))
  }

  /** `predict_deep` as a value: a 3-tuple of score, advice and structured list. */
  function DeepOutcome(st: EngineState, x: Values): (r: Outcome)
    ensures st.rf.None? <==> r.Raised?
    ensures r.Triple? ==> 0.0 <= r.score <= 100.0 && r.score == Clip(st.rf.value.predict(x), 0.0, 100.0)
    ensures !r.Pair?
  {
    if st.rf.None? then Raised(NotLoaded)
    else
      var score := Clip(st.rf.value.predict(x), 0.0, 100.0);
      var sv := st.rf.value.shapValues(x);
      Triple(score, DeepAdvice(x, sv, score), Structured(x, sv))
  }

  /** The breakdown has exactly one row per feature, carrying its value and attribution. */
  lemma BreakdownRows(x: Values, sv: Values)
    ensures |Breakdown(x, sv)| == |FEATURES|
    ensures forall f: Feature :: BreakdownRowOf(x, MaxAbs(sv), PairOf(sv, f)) in Breakdown(x, sv)
    ensures forall i, j :: 0 <= i < j < |FEATURES| ==> Breakdown(x, sv)[i].feature != Breakdown(x, sv)[j].feature
  {
    var r := SortBy(ShapPairs(sv), ByValueDesc);
    var rows := Breakdown(x, sv);
    SortedShap(sv, ByValueDesc);
    forall f: Feature ensures BreakdownRowOf(x, MaxAbs(sv), PairOf(sv, f)) in rows {
      var k :| 0 <= k < |r| && r[k] == PairOf(sv, f);
      assert rows[k] == BreakdownRowOf(x, MaxAbs(sv), r[k]);
    }
  }

  /** The breakdown lists the attributions from the highest to the lowest. */
  lemma BreakdownOrdered(x: Values, sv: Values)
    ensures forall i, j :: 0 <= i < j < |Breakdown(x, sv)| ==> Breakdown(x, sv)[i].sv >= Breakdown(x, sv)[j].sv
  {
    var r := SortBy(ShapPairs(sv), ByValueDesc);
    SortByFacts(ShapPairs(sv), ByValueDesc);
    forall i, j | 0 <= i < j < |r| ensures ByValueDesc(r[i]) <= ByValueDesc(r[j]) {
    }
  }

  /** Every bar of the breakdown has at most 12 blocks. */
  lemma BreakdownBars(x: Values, sv: Values)
    ensures forall k :: 0 <= k < |Breakdown(x, sv)| ==>
      Breakdown(x, sv)[k].BreakdownRow? && Breakdown(x, sv)[k].bar <= BAR_WIDTH
  {
    var r := SortBy(ShapPairs(sv), ByValueDesc);
    SortedShap(sv, ByValueDesc);
    forall k | 0 <= k < |r| ensures Bar(r[k].1, MaxAbs(sv), BAR_WIDTH) <= BAR_WIDTH {
      assert r[k] == PairOf(sv, r[k].0);
      BarWithinWidth(r[k].1, MaxAbs(sv), BAR_WIDTH);
    }
  }

  /**
   * The structured list holds one entry per feature, with its value and
   * its attribution rounded to 2 decimals.
   */
  lemma StructuredEntries(x: Values, sv: Values)
    ensures |Structured(x, sv)| == |FEATURES|
    ensures forall f: Feature :: ShapEntry(f, x.Get(f), RoundTo(sv.Get(f), 2)) in Structured(x, sv)
    ensures forall i, j :: 0 <= i < j < |FEATURES| ==>
      Structured(x, sv)[i].featureKey != Structured(x, sv)[j].featureKey
  {
    var r := SortBy(ShapPairs(sv), ByImpactDesc);
    var es := Structured(x, sv);
    SortedShap(sv, ByImpactDesc);
    forall f: Feature ensures ShapEntry(f, x.Get(f), RoundTo(sv.Get(f), 2)) in es {
      var k :| 0 <= k < |r| && r[k] == PairOf(sv, f);
      assert es[k] == EntryOf(x, PairOf(sv, f));
    }
  }

  /** The structured list is ordered by decreasing absolute attribution. */
  lemma StructuredOrdered(x: Values, sv: Values)
    ensures forall i, j :: 0 <= i < j < |Structured(x, sv)| ==>
      Abs(sv.Get(Structured(x, sv)[i].featureKey)) >= Abs(sv.Get(Structured(x, sv)[j].featureKey))
  {
    var r := SortBy(ShapPairs(sv), ByImpactDesc);
    var es := Structured(x, sv);
    SortedShap(sv, ByImpactDesc);
    forall i, j | 0 <= i < j < |r| ensures Abs(sv.Get(es[i].featureKey)) >= Abs(sv.Get(es[j].featureKey)) {
      assert ByImpactDesc(r[i]) <= ByImpactDesc(r[j]);
      assert r[i] == PairOf(sv, r[i].0) && r[j] == PairOf(sv, r[j].0);
    }
  }

  /** The "highest impact action" line closes the advice exactly when |worst| > 2. */
  lemma HighestImpactIff(x: Values, sv: Values, score: real)
    ensures var adv := DeepAdvice(x, sv, score);
      adv[|adv| - 1].HighestImpact? <==> Abs(Worst(sv).1) > 2.0
    ensures var adv := DeepAdvice(x, sv, score);
      adv[|adv| - 1].HighestImpact? ==> adv[|adv| - 1] == HighestImpact(Worst(sv).0, Abs(Worst(sv).1))
  {
  }

  // ----- persistence -----

  /** Every model and the training frame are present. */
  predicate Ready(st: EngineState) {
    st.dt.Some? && st.knn.Some? && st.rf.Some? && st.scaler.Some? && st.trainDf.Some?
  }

  /**
   * What the file system holds: the three joblib files and train_data.csv
   * under models/, and mock_cohort_data.csv in the working directory.
   */
  datatype DiskState = DiskState(
    dtFile: Option<FittedTree>, knnFile: Option<(Knn, Scaler)>, rfFile: Option<Forest>,
    trainData: Option<Frame>, cohortCsv: Option<Frame>)

  /** `_models_exist`: all three joblib files are present (train_data.csv is not checked). */
  predicate ModelsExist(d: DiskState) {
    d.dtFile.Some? && d.knnFile.Some? && d.rfFile.Some?
  }

  /** The fitting routines: scaler, depth-3 tree, 5-neighbour index (on scaled rows) and forest. */
  datatype Trainer = Trainer(
    fitScaler: Frame -> Scaler, fitTree: Frame -> FittedTree,
    fitKnn: (Frame, Scaler) -> Knn, fitForest: Frame -> Forest)

  /** `_get_data`: the cohort CSV when it exists, otherwise the generated cohort. */
  function CohortData(d: DiskState, generated: Frame): (df: Frame)
    ensures d.cohortCsv.Some? ==> df == d.cohortCsv.value
    ensures d.cohortCsv.None? ==> df == generated
  {
    if d.cohortCsv.Some? then d.cohortCsv.value else generated
  }

  /** The engine state `_train_and_save` leaves behind for the frame `df`. */
  function Trained(tr: Trainer, df: Frame): (st: EngineState)
    ensures Ready(st) && st.trainDf == Some(df)
    ensures st.dt == Some(tr.fitTree(df)) && st.rf == Some(tr.fitForest(df))
    ensures st.knn == Some(tr.fitKnn(df, st.scaler.value)) && st.scaler == Some(tr.fitScaler(df))
  {
    var sc := tr.fitScaler(df);
    EngineState(Some(tr.fitTree(df)), Some(tr.fitKnn(df, sc)), Some(tr.fitForest(df)), Some(sc), Some(df))
  }

  /** The file system after `_train_and_save` dumped `st` (and `_get_data` wrote the cohort CSV). */
  function Saved(d: DiskState, st: EngineState, df: Frame): (d2: DiskState)
    requires Ready(st)
    ensures ModelsExist(d2) && d2.trainData == st.trainDf && d2.cohortCsv.Some?
  {
    DiskState(st.dt, Some((st.knn.value, st.scaler.value)), st.rf, st.trainDf,
      if d.cohortCsv.Some? then d.cohortCsv else Some(df))
  }

  /**
   * `_load`: the models are read first, then train_data.csv; when that file
   * is missing the read raises and the frame keeps its previous value.
   */
  function Loaded(d: DiskState, st: EngineState): (r: (EngineState, bool))
    requires ModelsExist(d)
    ensures r.1 <==> d.trainData.None?
    ensures r.0.dt == d.dtFile && r.0.rf == d.rfFile
    ensures r.0.knn == Some(d.knnFile.value.0) && r.0.scaler == Some(d.knnFile.value.1)
    ensures r.0.trainDf == if r.1 then st.trainDf else d.trainData
    ensures !r.1 ==> Ready(r.0)
  {
    var st1 := st.(dt := d.dtFile, knn := Some(d.knnFile.value.0),
                   scaler := Some(d.knnFile.value.1), rf := d.rfFile);
    if d.trainData.None? then (st1, true) else (st1.(trainDf := d.trainData), false)
  }

  /**
   * What is saved after training is exactly what the next start loads:
   * a restart reproduces the trained engine and does not retrain.
   */
  lemma SaveThenLoad(d: DiskState, tr: Trainer, generated: Frame, st: EngineState)
    ensures var df := CohortData(d, generated);
      var d2 := Saved(d, Trained(tr, df), df);
      ModelsExist(d2) && d2.cohortCsv == Some(df) && Loaded(d2, st) == (Trained(tr, df), false)
  {
  }

  // ----- the engine object -----

  /** The files the engine reads and writes. */
  class Disk {
    var dtFile: Option<FittedTree>
    var knnFile: Option<(Knn, Scaler)>
    var rfFile: Option<Forest>
    var trainData: Option<Frame>
    var cohortCsv: Option<Frame>

    constructor(d: DiskState)
      ensures Contents() == d
    {
      dtFile, knnFile, rfFile, trainData, cohortCsv := d.dtFile, d.knnFile, d.rfFile, d.trainData, d.cohortCsv;
    }

    function Contents(): DiskState
      reads this
    {
      DiskState(dtFile, knnFile, rfFile, trainData, cohortCsv)
    }
  }

  class Engine {
    var dt: Option<FittedTree>
    var knn: Option<Knn>
    var rf: Option<Forest>
    var scaler: Option<Scaler>
    var trainDf: Option<Frame>

    constructor()
      ensures dt.None? && knn.None? && rf.None? && scaler.None? && trainDf.None?
    {
      dt, knn, rf, scaler, trainDf := None, None, None, None, None;
    }

    function State(): EngineState
      reads this
    {
      EngineState(dt, knn, rf, scaler, trainDf)
    }

    /**
     * `ensure_ready`: load the persisted models when all three files exist,
     * otherwise train on the cohort and save everything. `raised` is the
     * missing-train_data.csv error of `_load`.
     */
    method EnsureReady(disk: Disk, tr: Trainer, generated: Frame) returns (raised: bool)
      modifies this, disk
      ensures ModelsExist(old(disk.Contents())) ==>
        && (State(), raised) == Loaded(old(disk.Contents()), old(State()))
        && disk.Contents() == old(disk.Contents())
      ensures !ModelsExist(old(disk.Contents())) ==>
        var df := CohortData(old(disk.Contents()), generated);
        && !raised
        && State() == Trained(tr, df)
        && disk.Contents() == Saved(old(disk.Contents()), State(), df)
      ensures !raised ==> Ready(State())
    {
      if disk.dtFile.Some? && disk.knnFile.Some? && disk.rfFile.Some? {
        dt := disk.dtFile;
        knn := Some(disk.knnFile.value.0);
        scaler := Some(disk.knnFile.value.1);
        rf := disk.rfFile;
        if disk.trainData.None? {
          return true;
        }
        trainDf := disk.trainData;
        return false;
      }
      var df: Frame;
      if disk.cohortCsv.Some? {
        df := disk.cohortCsv.value;
      } else {
        df := generated;
        disk.cohortCsv := Some(df);
      }
      scaler := Some(tr.fitScaler(df));
      dt := Some(tr.fitTree(df));
      knn := Some(tr.fitKnn(df, scaler.value));
      rf := Some(tr.fitForest(df));
      trainDf := Some(df);
      disk.dtFile := dt;
      disk.knnFile := Some((knn.value, scaler.value));
      disk.rfFile := rf;
      disk.trainData := Some(df);
      raised := false;
    }

    /**
     * `load_cohort_from_db`: the fetched cohort replaces the training frame
     * only when the fetch succeeded with at least one row.
     */
    method LoadCohortFromDb(fetched: Option<Frame>)
      modifies this
      ensures fetched.Some? && |fetched.value| > 0 ==> State() == old(State()).(trainDf := fetched)
      ensures !(fetched.Some? && |fetched.value| > 0) ==> State() == old(State())
    {
      if fetched.Some? && |fetched.value| > 0 {
        trainDf := fetched;
      }
    }

    /** `predict_strict`: walk the decision path, then the score, trend and tips. */
    method PredictStrict(x: Values) returns (r: Outcome)
      ensures r == StrictOutcome(State(), x)
    {
      if dt.None? {
        return Raised(NotLoaded);
      }
      var t := dt.value;
      var score := Clip(Predict(t, x), 0.0, 100.0);
      var lines := DecisionPathLines(t, x);
      var grade := ScoreToGrade(score);
      lines := lines + [ScoreLine(score, grade), Trajectory(TrendOf(score))];
      lines := AppendTips(lines, x);
      assert lines == StrictAdvice(t, x, score);
      r := Pair(score, lines);
    }

    /** `predict_peer`: compare the user with the mean of the five nearest rows. */
    method PredictPeer(x: Values) returns (r: Outcome)
      ensures r == PeerOutcome(State(), x)
    {
      if scaler.None? || knn.None? {
        return Raised(NotLoaded);
      }
      var scaled := scaler.value.transform(x);
      var indices := knn.value.kneighbors(scaled);
      if trainDf.None? {
        return Raised(NotLoaded);
      }
      var df := trainDf.value;
      if exists k :: 0 <= k < |indices| && indices[k] >= |df| {
        return Raised(NeighbourOutOfRange);
      }
      var peerAvg := PeerAverage(NeighbourRows(df, indices));
      if rf.None? {
        return Raised(NotLoaded);
      }
      var myScore := Clip(rf.value.predict(x), 0.0, 100.0);
      var lines := PeerTableLines(peerAvg.features, x);
      lines := lines + [PeerGradeLine(peerAvg.currentGrade), PredictionLine(myScore)];
      lines := AppendGaps(lines, peerAvg.features, x);
      r := Pair(myScore, lines);
    }

    /** `predict_deep`: the forest's score with its attribution breakdown. */
    method PredictDeep(x: Values) returns (r: Outcome)
      ensures r == DeepOutcome(State(), x)
    {
      if rf.None? {
        return Raised(NotLoaded);
      }
      var score := Clip(rf.value.predict(x), 0.0, 100.0);
      var shapValues := rf.value.shapValues(x);
      var sortedShap := SortBy(ShapPairs(shapValues), ByValue);
      var worst := sortedShap[0];
      var best := sortedShap[|sortedShap| - 1];
      var maxAbs := MaxAbs(shapValues);
      var lines := [ShapHeader, TopPositive(best.0, best.1), TopNegative(worst.0, worst.1), BreakdownHeader];
      lines := AppendBreakdown(lines, x, shapValues, maxAbs);
      lines := lines + [ScoreLine(score, ScoreToGrade(score))];
      if Abs(worst.1) > 2.0 {
        lines := lines + [HighestImpact(worst.0, Abs(worst.1))];
      }
      var structured := Structured(x, shapValues);
      r := Triple(score, lines, structured);
    }
  }

  /** The full breakdown, highest attribution first. */
  method AppendBreakdown(lines0: seq<Line>, x: Values, sv: Values, maxAbs: real) returns (lines: seq<Line>)
    requires maxAbs == MaxAbs(sv)
    ensures lines == lines0 + Breakdown(x, sv)
  {
    var rows := SortBy(ShapPairs(sv), ByValueDesc);
    var shown: seq<Line> := [];
    var i := 0;
    while i < |rows|
      invariant 0 <= i <= |rows|
      invariant shown == BreakdownLines(x, maxAbs, rows[..i])
    {
      var (feat, v) := rows[i];
      assert rows[..i + 1][..i] == rows[..i];
      shown := shown + [BreakdownRow(feat, x.Get(feat), v, Bar(v, maxAbs, BAR_WIDTH))];
      i := i + 1;
    }
    assert rows[..|rows|] == rows;
    lines := lines0 + shown;
  }

  /** The header and one comparison row per feature. */
  method PeerTableLines(avg: Values, x: Values) returns (lines: seq<Line>)
    ensures lines == [PeersHeader] + PeerRows(avg, x, FEATURES)
  {
    lines := [PeersHeader];
    var i := 0;
    while i < |FEATURES|
      invariant 0 <= i <= |FEATURES|
      invariant lines == [PeersHeader] + PeerRows(avg, x, FEATURES[..i])
    {
      var feat := FEATURES[i];
      var mine := x.Get(feat);
      var peer := avg.Get(feat);
      var delta := mine - peer;
      var arrow := if delta > 0.1 then Up else if delta < -0.1 then Down else Level;
      assert FEATURES[..i + 1][..i] == FEATURES[..i];
      lines := lines + [PeerRow(feat, peer, mine, arrow, delta)];
      i := i + 1;
    }
    assert FEATURES[..|FEATURES|] == FEATURES;
  }

  /** The biggest gaps (at most three), or the "already at or above" line. */
  method AppendGaps(lines0: seq<Line>, avg: Values, x: Values) returns (lines: seq<Line>)
    ensures lines == lines0 + GapsSection(avg, x)
  {
    lines := lines0;
    var gaps := Gaps(avg, x);
    if gaps != [] {
      var top := Take(gaps, 3);
      var shown: seq<Line> := [];
      var i := 0;
      while i < |top|
        invariant 0 <= i <= |top|
        invariant shown == Map(GapLineOf, top[..i])
      {
        var (feat, diff) := top[i];
        assert top[..i + 1][..i] == top[..i];
        shown := shown + [GapLine(feat, diff)];
        i := i + 1;
      }
      assert top[..|top|] == top;
      lines := lines + [GapsHeader] + shown;
    } else {
      lines := lines + [AtOrAbove];
    }
  }

  /** The path is its internal part followed by the leaf, which appears nowhere else. */
  lemma PathSplit(t: Tree, x: Values)
    requires ValidTree(t)
    ensures |Path(t, x, 0)| == |InternalPath(t, x)| + 1
    ensures Path(t, x, 0)[|InternalPath(t, x)|] == Leaf(t, x)
    ensures forall k :: 0 <= k < |InternalPath(t, x)| ==>
      Path(t, x, 0)[k] == InternalPath(t, x)[k] != Leaf(t, x)
  {
    LeafOnlyAtEnd(t, x);
  }

  /** The numbered lines of a prefix one node longer. */
  lemma PathStepsExtend(t: Tree, x: Values, nodes: seq<nat>, i: nat)
    requires ValidTree(t) && InternalNodes(t, nodes) && i < |nodes|
    ensures PathSteps(t, x, nodes[..i + 1]) == PathSteps(t, x, nodes[..i]) + [StepLine(t, x, nodes[i], i + 1)]
  {
    assert nodes[..i + 1][..i] == nodes[..i];
  }

  /** The header and one line per node of the decision path, stopping at the leaf. */
  method DecisionPathLines(t: Tree, x: Values) returns (lines: seq<Line>)
    requires ValidTree(t)
    ensures lines == [PathHeader] + PathSteps(t, x, InternalPath(t, x))
  {
    var nodeIds := Path(t, x, 0);
    var leafId := Leaf(t, x);
    ghost var internal := InternalPath(t, x);
    PathSplit(t, x);
    var steps: seq<Line> := [];
    var step := 0;
    while step < |nodeIds|
      invariant 0 <= step <= |internal|
      invariant steps == PathSteps(t, x, internal[..step])
    {
      var nodeId := nodeIds[step];
      if nodeId == leafId {
        break;
      }
      assert nodeId == internal[step];
      PathStepsExtend(t, x, internal, step);
      steps := steps + [StepLine(t, x, nodeId, step + 1)];
      step := step + 1;
    }
    assert internal[..step] == internal;
    lines := [PathHeader] + steps;
  }

  /** The improvement levers, or the "optimal parameters" line when there are none. */
  method AppendTips(lines0: seq<Line>, x: Values) returns (lines: seq<Line>)
    ensures lines == lines0 + TipsSection(x)
  {
    lines := lines0;
    var tips := TipLines(x);
    if tips != [] {
      lines := lines + [TipsHeader];
      var i := 0;
      while i < |tips|
        invariant 0 <= i <= |tips|
        invariant lines == lines0 + [TipsHeader] + tips[..i]
      {
        lines := lines + [tips[i]];
        i := i + 1;
      }
      assert tips[..|tips|] == tips;
    } else {
      lines := lines + [Optimal];
    }
  }

  /** The five threshold tests of `predict_strict`. */
  method TipLines(x: Values) returns (tips: seq<Line>)
    ensures tips == Tips(x)
  {
    tips := [];
    if x.studyHours < 4.0 { tips := tips + [Tip(StudyHours, x.studyHours)]; }
    assert tips == TipIf(x, StudyHours);
    if x.attentionSpan < 40.0 { tips := tips + [Tip(AttentionSpan, x.attentionSpan)]; }
    assert tips == TipIf(x, StudyHours) + TipIf(x, AttentionSpan);
    if x.focusRatio < 60.0 { tips := tips + [Tip(FocusRatio, x.focusRatio)]; }
    assert tips == TipIf(x, StudyHours) + TipIf(x, AttentionSpan) + TipIf(x, FocusRatio);
    if x.sleepHours < 7.0 { tips := tips + [Tip(SleepHours, x.sleepHours)]; }
    assert tips == TipIf(x, StudyHours) + TipIf(x, AttentionSpan) + TipIf(x, FocusRatio) + TipIf(x, SleepHours);
    if x.breakFreq < 2.0 { tips := tips + [Tip(BreakFreq, x.breakFreq)]; }
  }
}
