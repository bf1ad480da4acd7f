/**
 * The CrossNER evaluation: per-label precision, recall and F1 of predicted
 * records against gold records, and their micro, macro and weighted
 * averages. Entities are compared as strings, per label and per record pair,
 * duplicates counting as often as they occur in both lists.
 */
module Metrics {
  import opened Wrappers
  import opened Records
  import opened Counting
  import opened EntityCounts
  import CrossNerTarget

  // ---------------------------------------------------------------------------
  // Scoring

  /** Precision, recall and F1 of one label. */
  datatype Score = Score(precision: real, recall: real, f1: real)

  datatype Measure = Precision | Recall

  /** Precision: true positives over predictions; recall: over gold entities. */
  function Measured(t: Tally, m: Measure): real {
    match m
    case Precision => Ratio(t.matched, t.predicted)
    case Recall => Ratio(t.matched, t.gold)
  }

  /** a / b, or 0 when b is 0. */
  function Ratio(a: nat, b: nat): (q: real)
    ensures 0.0 <= q
    ensures b == 0 ==> q == 0.0
    ensures a <= b ==> q <= 1.0
  {
    if b > 0 then a as real / b as real else 0.0
  }

  lemma RatioSelf(a: nat)
    requires a > 0
    ensures Ratio(a, a) == 1.0
  {
  }

  /** The harmonic mean 2pr / (p + r), or 0 when p + r is 0. */
  function F1(p: real, r: real): real {
    if p + r > 0.0 then 2.0 * p * r / (p + r) else 0.0
  }

  lemma Cancel(a: real, b: real, s: real)
    requires s > 0.0 && a * s <= b * s
    ensures a <= b
  {
    assert (b - a) * s >= 0.0;
  }

  /** For 0 <= p <= r, F1 lies between p and r. */
  lemma F1Ordered(p: real, r: real)
    requires 0.0 <= p <= r && 0.0 < r
    ensures p <= F1(p, r) <= r
  {
    var s := p + r;
    var f := 2.0 * p * r / s;
    assert F1(p, r) == f;
    assert f * s == 2.0 * p * r;
    assert p * p <= p * r by { assert p * (r - p) >= 0.0; }
    assert p * s <= f * s by { assert p * s == p * p + p * r; }
    Cancel(p, f, s);
    assert p * r <= r * r by { assert r * (r - p) >= 0.0; }
    assert f * s <= r * s by { assert r * s == p * r + r * r; }
    Cancel(f, r, s);
  }

  lemma F1Symmetric(p: real, r: real)
    ensures F1(p, r) == F1(r, p)
  {
    assert 2.0 * p * r == 2.0 * r * p;
  }

  lemma F1Zero(p: real, r: real)
    requires 0.0 <= p && 0.0 <= r
    ensures F1(p, r) == 0.0 <==> p == 0.0 || r == 0.0
  {
    if p > 0.0 && r > 0.0 {
      assert 2.0 * p * r > 0.0;
      assert 2.0 * p * r / (p + r) > 0.0;
    }
  }

  lemma F1Same(p: real)
    requires 0.0 <= p
    ensures F1(p, p) == p
  {
    if p > 0.0 {
      assert 2.0 * p * p == p * (p + p);
    }
  }

  /**
   * For non-negative p and r, F1 lies between the smaller and the larger of
   * the two, is 0 exactly when one of them is 0, and is p when both are p.
   */
  lemma F1Between(p: real, r: real)
    requires 0.0 <= p && 0.0 <= r
    ensures (if p <= r then p else r) <= F1(p, r) <= (if p <= r then r else p)
    ensures F1(p, r) == 0.0 <==> p == 0.0 || r == 0.0
    ensures F1(p, p) == p
  {
    if p <= r && r > 0.0 {
      F1Ordered(p, r);
    } else if r < p {
      F1Ordered(r, p);
      F1Symmetric(p, r);
    }
    F1Zero(p, r);
    F1Same(p);
  }

  /** A precision, a recall and their F1. */
  function Scored(p: real, r: real): Score {
    Score(p, r, F1(p, r))
  }

  /** Precision and recall in [0, 1] give an F1 in [0, 1]. */
  lemma ScoredRange(p: real, r: real)
    requires 0.0 <= p <= 1.0 && 0.0 <= r <= 1.0
    ensures var s := Scored(p, r);
            0.0 <= s.precision <= 1.0 && 0.0 <= s.recall <= 1.0 && 0.0 <= s.f1 <= 1.0
  {
    F1Between(p, r);
  }

  /** A label's precision (true positives over predicted), recall (over gold) and F1. */
  function LabelScore(t: Tally): Score {
    Scored(Measured(t, Precision), Measured(t, Recall))
  }

  /** Every score is in [0, 1]; precision is 0 without predictions, recall 0 without gold entities. */
  lemma LabelScoreRange(t: Tally)
    requires Bounded(t)
    ensures var s := LabelScore(t);
            && 0.0 <= s.precision <= 1.0 && 0.0 <= s.recall <= 1.0 && 0.0 <= s.f1 <= 1.0
            && (t.predicted == 0 ==> s.precision == 0.0)
            && (t.gold == 0 ==> s.recall == 0.0)
  {
    var s := LabelScore(t);
    F1Between(s.precision, s.recall);
  }

  /** A label whose every gold entity is predicted and nothing else scores 1, 1, 1. */
  lemma LabelScorePerfect(t: Tally)
    requires 0 < t.gold && t.matched == t.gold == t.predicted
    ensures LabelScore(t) == Score(1.0, 1.0, 1.0)
  {
    RatioSelf(t.gold);
    F1Between(1.0, 1.0);
  }

  /** The per-label scoring loop: one entry per listed label. */
  method ScoreLabels(labelList: seq<string>, counters: Counters) returns (results: map<string, Score>)
    requires Covers(counters.trueCounts, labelList) && Covers(counters.predCounts, labelList)
    requires Covers(counters.tpCounts, labelList)
    ensures results == map entityType | entityType in labelList :: LabelScore(counters.Of(entityType))
  {
    results := map[];
    var j := 0;
    while j < |labelList|
      invariant j <= |labelList|
      invariant forall entityType :: entityType in results <==> entityType in labelList[..j]
      invariant forall entityType :: entityType in results ==> results[entityType] == LabelScore(counters.Of(entityType))
    {
      assert labelList[..j + 1] == labelList[..j] + [labelList[j]];
      var entityType := labelList[j];
      var t := Tally(counters.trueCounts[entityType], counters.predCounts[entityType], counters.tpCounts[entityType]);
      results := results[entityType := LabelScore(t)];
      j := j + 1;
    }
    assert labelList[..j] == labelList;
  }

  // ---------------------------------------------------------------------------
  // Averages

  function TotalGold(ts: seq<Tally>, n: nat): nat
    requires n <= |ts|
  {
    if n == 0 then 0 else TotalGold(ts, n - 1) + ts[n - 1].gold
  }

  function TotalPredicted(ts: seq<Tally>, n: nat): nat
    requires n <= |ts|
  {
    if n == 0 then 0 else TotalPredicted(ts, n - 1) + ts[n - 1].predicted
  }

  function TotalMatched(ts: seq<Tally>, n: nat): nat
    requires n <= |ts|
  {
    if n == 0 then 0 else TotalMatched(ts, n - 1) + ts[n - 1].matched
  }

  /** The sum of a measure over the first n labels, counting only positive values. */
  function PositiveSum(ts: seq<Tally>, n: nat, m: Measure): real
    requires n <= |ts|
  {
    if n == 0 then 0.0
    else
      var v := Measured(ts[n - 1], m);
      PositiveSum(ts, n - 1, m) + if v > 0.0 then v else 0.0
  }

  /** The plain sum of a measure over the first n labels. */
  function MeasureSum(ts: seq<Tally>, n: nat, m: Measure): real
    requires n <= |ts|
  {
    if n == 0 then 0.0 else MeasureSum(ts, n - 1, m) + Measured(ts[n - 1], m)
  }

  /** The sum of a measure over the first n labels, each weighted by its share of all gold entities. */
  function WeightedSum(ts: seq<Tally>, n: nat, total: nat, m: Measure): real
    requires n <= |ts| && total > 0
  {
    if n == 0 then 0.0
    else WeightedSum(ts, n - 1, total, m) + (ts[n - 1].gold as real / total as real) * Measured(ts[n - 1], m)
  }

  /** The three averages, each a precision, a recall and their F1. */
  datatype Overall = Overall(micro: Score, macro: Score, weighted: Score)

  datatype MetricError = ZeroDivisionError

  /** Micro averages: from the counters summed over all labels. */
  function Micro(ts: seq<Tally>): Score {
    var n := |ts|;
    Scored(Ratio(TotalMatched(ts, n), TotalPredicted(ts, n)), Ratio(TotalMatched(ts, n), TotalGold(ts, n)))
  }

  /** Macro averages: the sums of the positive per-label values over the number of labels. */
  function Macro(ts: seq<Tally>): Score
    requires ts != []
  {
    var n := |ts|;
    Scored(PositiveSum(ts, n, Precision) / n as real, PositiveSum(ts, n, Recall) / n as real)
  }

  /** Weighted averages: per-label values weighted by gold share, or 0 without gold entities. */
  function Weighted(ts: seq<Tally>): Score {
    var n := |ts|;
    var total := TotalGold(ts, n);
    if total > 0 then Scored(WeightedSum(ts, n, total, Precision), WeightedSum(ts, n, total, Recall))
    else Scored(0.0, 0.0)
  }

  /** The averages over the tallies of the distinct labels; no labels is a division by zero. */
  function Aggregate(ts: seq<Tally>): Result<Overall, MetricError> {
    if ts == [] then Err(ZeroDivisionError) else Ok(Overall(Micro(ts), Macro(ts), Weighted(ts)))
  }

  ghost predicate AllBounded(ts: seq<Tally>) {
    forall i :: 0 <= i < |ts| ==> Bounded(ts[i])
  }

  lemma {:induction false} TotalsBounded(ts: seq<Tally>, n: nat)
    requires n <= |ts| && AllBounded(ts)
    ensures TotalMatched(ts, n) <= TotalPredicted(ts, n) && TotalMatched(ts, n) <= TotalGold(ts, n)
  {
    if n > 0 {
      TotalsBounded(ts, n - 1);
      assert Bounded(ts[n - 1]);
    }
  }

  lemma {:induction false} MeasureRange(ts: seq<Tally>, n: nat, m: Measure)
    requires n <= |ts| && AllBounded(ts)
    ensures 0.0 <= MeasureSum(ts, n, m) <= n as real
    ensures PositiveSum(ts, n, m) == MeasureSum(ts, n, m)
  {
    if n > 0 {
      MeasureRange(ts, n - 1, m);
      assert Bounded(ts[n - 1]);
    }
  }

  lemma DivAdd(a: real, b: real, t: real)
    requires t > 0.0
    ensures a / t + b / t == (a + b) / t
  {
  }

  /** A label's gold share times its recall is its matched share. */
  lemma ShareOf(g: real, m: real, t: real)
    requires t > 0.0 && g > 0.0
    ensures (g / t) * (m / g) == m / t
  {
    var w, r := g / t, m / g;
    assert w * t == g;
    assert r * g == m;
    assert w * r * t == m by {
      assert w * r * t == (w * t) * r;
    }
  }

  lemma Fraction(w: real, p: real)
    requires 0.0 <= w && 0.0 <= p <= 1.0
    ensures 0.0 <= w * p <= w
  {
    assert w - w * p == w * (1.0 - p);
  }

  /** One label's recall weighted by its gold share is its share of the matched entities. */
  lemma WeightedRecallTerm(t: Tally, total: nat)
    requires total > 0 && Bounded(t)
    ensures (t.gold as real / total as real) * Measured(t, Recall) == t.matched as real / total as real
  {
    if t.gold > 0 {
      ShareOf(t.gold as real, t.matched as real, total as real);
    }
  }

  /** Recall weighted by gold share adds up to matched entities over all gold entities. */
  lemma {:induction false} WeightedRecallSum(ts: seq<Tally>, n: nat, total: nat)
    requires n <= |ts| && total > 0 && AllBounded(ts)
    ensures WeightedSum(ts, n, total, Recall) == TotalMatched(ts, n) as real / total as real
  {
    if n > 0 {
      WeightedRecallSum(ts, n - 1, total);
      assert Bounded(ts[n - 1]);
      WeightedRecallTerm(ts[n - 1], total);
      DivAdd(TotalMatched(ts, n - 1) as real, ts[n - 1].matched as real, total as real);
    }
  }

  lemma AddBounds(a: real, b: real, c: real, d: real)
    requires 0.0 <= a <= c && 0.0 <= b <= d
    ensures 0.0 <= a + b <= c + d
  {
  }

  /** One label's weighted precision lies between 0 and its gold share. */
  lemma WeightedPrecisionTerm(t: Tally, total: nat)
    requires total > 0 && Bounded(t)
    ensures 0.0 <= (t.gold as real / total as real) * Measured(t, Precision) <= t.gold as real / total as real
  {
    Fraction(t.gold as real / total as real, Measured(t, Precision));
  }

  /** Precision weighted by gold share is at most the gold share of the first n labels. */
  lemma {:induction false} WeightedPrecisionSum(ts: seq<Tally>, n: nat, total: nat)
    requires n <= |ts| && total > 0 && AllBounded(ts)
    ensures 0.0 <= WeightedSum(ts, n, total, Precision) <= TotalGold(ts, n) as real / total as real
  {
    if n > 0 {
      WeightedPrecisionSum(ts, n - 1, total);
      var t := ts[n - 1];
      assert Bounded(t);
      WeightedPrecisionTerm(t, total);
      DivAdd(TotalGold(ts, n - 1) as real, t.gold as real, total as real);
      AddBounds(WeightedSum(ts, n - 1, total, Precision), (t.gold as real / total as real) * Measured(t, Precision),
                TotalGold(ts, n - 1) as real / total as real, t.gold as real / total as real);
    }
  }

  /** No labels is a division by zero; any label makes the averages computable. */
  lemma AggregateFails(ts: seq<Tally>)
    ensures Aggregate(ts).Err? <==> ts == []
  {
  }

  /**
   * Micro precision and recall are the summed true positives over the summed
   * predictions and gold entities: in [0, 1], and 0 without predictions or
   * without gold entities; so is micro F1.
   */
  lemma MicroRange(ts: seq<Tally>)
    requires AllBounded(ts)
    ensures var o := Micro(ts);
            var n := |ts|;
            && 0.0 <= o.precision <= 1.0 && 0.0 <= o.recall <= 1.0 && 0.0 <= o.f1 <= 1.0
            && (TotalPredicted(ts, n) == 0 ==> o.precision == 0.0)
            && (TotalGold(ts, n) == 0 ==> o.recall == 0.0)
  {
    var n := |ts|;
    TotalsBounded(ts, n);
    ScoredRange(Ratio(TotalMatched(ts, n), TotalPredicted(ts, n)), Ratio(TotalMatched(ts, n), TotalGold(ts, n)));
  }

  /**
   * Macro precision and recall are the plain means over all labels: the
   * positive filter drops only zeros, and the divisor counts every label.
   */
  lemma MacroMean(ts: seq<Tally>)
    requires AllBounded(ts) && ts != []
    ensures var o := Macro(ts);
            var n := |ts|;
            && o.precision == MeasureSum(ts, n, Precision) / n as real
            && o.recall == MeasureSum(ts, n, Recall) / n as real
            && 0.0 <= o.precision <= 1.0 && 0.0 <= o.recall <= 1.0 && 0.0 <= o.f1 <= 1.0
  {
    var n := |ts|;
    MeasureRange(ts, n, Precision);
    MeasureRange(ts, n, Recall);
    MeanRange(MeasureSum(ts, n, Precision), n as real);
    MeanRange(MeasureSum(ts, n, Recall), n as real);
    ScoredRange(MeasureSum(ts, n, Precision) / n as real, MeasureSum(ts, n, Recall) / n as real);
  }

  lemma MeanRange(sum: real, n: real)
    requires 0.0 <= sum <= n && n > 0.0
    ensures 0.0 <= sum / n <= 1.0
  {
  }

  /**
   * Weighted recall is micro recall; weighted precision is in [0, 1]; all
   * three are 0 without gold entities; weighted F1 is in [0, 1].
   */
  lemma WeightedRange(ts: seq<Tally>)
    requires AllBounded(ts)
    ensures var o := Weighted(ts);
            && o.recall == Micro(ts).recall
            && 0.0 <= o.precision <= 1.0 && 0.0 <= o.recall <= 1.0 && 0.0 <= o.f1 <= 1.0
            && (TotalGold(ts, |ts|) == 0 ==> o == Score(0.0, 0.0, 0.0))
  {
    var n := |ts|;
    var total := TotalGold(ts, n);
    if total > 0 {
      WeightedRecallSum(ts, n, total);
      WeightedPrecisionSum(ts, n, total);
      TotalsBounded(ts, n);
      var wp, wr := WeightedSum(ts, n, total, Precision), WeightedSum(ts, n, total, Recall);
      assert wr == Ratio(TotalMatched(ts, n), total);
      assert wp <= Ratio(total, total);
      RatioSelf(total);
      ScoredRange(wp, wr);
    } else {
      ScoredRange(0.0, 0.0);
    }
  }

  // ---------------------------------------------------------------------------
  // The evaluation

  /** The per-label results and the averages. */
  datatype Report = Report(scores: map<string, Score>, overall: Overall)

  /** The tallies of the given labels, in order. */
  function Tallies(counters: Counters, keys: seq<string>): (ts: seq<Tally>)
    ensures |ts| == |keys|
  {
    seq(|keys|, i requires 0 <= i < |keys| => counters.Of(keys[i]))
  }

  /** The evaluation of predicted records against gold records for the listed labels. */
  function Evaluate(gold: seq<Record>, pred: seq<Record>, labelList: seq<string>): Result<Report, MetricError> {
    var counters := AllCounts(gold, pred, labelList);
    match Aggregate(Tallies(counters, Distinct(labelList)))
    case Err(e) => Err(e)
    case Ok(o) => Ok(Report(map entityType | entityType in labelList :: LabelScore(counters.Of(entityType)), o))
  }

  /** `calculate_metrics` once both files are read: count, score each label, average. */
  method CalculateMetrics(gold: seq<Record>, pred: seq<Record>, labelList: seq<string>)
    returns (r: Result<Report, MetricError>)
    ensures r == Evaluate(gold, pred, labelList)
  {
    var trueCounts, predCounts, tpCounts := CountEntities(gold, pred, labelList);
    var counters := Counters(trueCounts, predCounts, tpCounts);
    var results := ScoreLabels(labelList, counters);
    var overall := Aggregate(Tallies(counters, Distinct(labelList)));
    if overall.Err? {
      return Err(overall.error);
    }
    r := Ok(Report(results, overall.value));
  }

  /** The counters of the distinct listed labels are bounded. */
  lemma TalliesBounded(gold: seq<Record>, pred: seq<Record>, labelList: seq<string>)
    ensures AllBounded(Tallies(AllCounts(gold, pred, labelList), Distinct(labelList)))
  {
    CountsBounded(gold, pred, labelList);
  }

  /**
   * The tallies summed for the averages are those of the distinct listed
   * labels, in order: a label listed k times holds k times its gold, its
   * predicted and its matched entities over the compared record pairs.
   */
  lemma TalliesClosedForm(gold: seq<Record>, pred: seq<Record>, labelList: seq<string>)
    ensures var keys := Distinct(labelList);
            var ts := Tallies(AllCounts(gold, pred, labelList), keys);
            var n := Compared(gold, pred);
            && |ts| == |keys|
            && forall i :: 0 <= i < |keys| ==>
                 var k := Occurrences(labelList, |labelList|, keys[i]);
                 && keys[i] in labelList && 0 < k
                 && ts[i] == Tally(Times(k, LabelTotal(TrueCount, gold, pred, n, keys[i])),
                                   Times(k, LabelTotal(PredCount, gold, pred, n, keys[i])),
                                   Times(k, LabelTotal(TpCount, gold, pred, n, keys[i])))
  {
    var keys := Distinct(labelList);
    CountsClosedForm(gold, pred, labelList);
    forall i | 0 <= i < |keys|
      ensures keys[i] in labelList && 0 < Occurrences(labelList, |labelList|, keys[i])
    {
      assert keys[i] in keys;
      MultisetOccurrences(labelList, keys[i]);
    }
  }

  /**
   * An evaluation fails exactly when no label is listed; otherwise there is
   * one score per listed label, each in [0, 1].
   */
  lemma EvaluateScores(gold: seq<Record>, pred: seq<Record>, labelList: seq<string>)
    ensures Evaluate(gold, pred, labelList).Err? <==> labelList == []
    ensures Evaluate(gold, pred, labelList).Ok? ==>
              var s := Evaluate(gold, pred, labelList).value.scores;
              && (forall entityType :: entityType in s <==> entityType in labelList)
              && forall entityType :: entityType in s ==>
                   0.0 <= s[entityType].precision <= 1.0 && 0.0 <= s[entityType].recall <= 1.0
                   && 0.0 <= s[entityType].f1 <= 1.0
  {
    if labelList != [] {
      assert labelList[0] in Distinct(labelList);
    }
    CountsBounded(gold, pred, labelList);
    forall entityType | entityType in labelList
      ensures InUnit(LabelScore(AllCounts(gold, pred, labelList).Of(entityType)))
    {
      LabelScoreRange(AllCounts(gold, pred, labelList).Of(entityType));
    }
  }

  /**
   * With at least one label listed, over the counters of the distinct
   * listed labels: every average is in [0, 1]; macro precision and recall
   * are the plain means of the per-label values; weighted recall is micro
   * recall.
   */
  lemma EvaluateAverages(gold: seq<Record>, pred: seq<Record>, labelList: seq<string>)
    requires labelList != []
    ensures Evaluate(gold, pred, labelList).Ok?
    ensures var o := Evaluate(gold, pred, labelList).value.overall;
            var ts := Tallies(AllCounts(gold, pred, labelList), Distinct(labelList));
            && InUnit(o.micro) && InUnit(o.macro) && InUnit(o.weighted)
            && o.macro.precision == MeasureSum(ts, |ts|, Precision) / |ts| as real
            && o.macro.recall == MeasureSum(ts, |ts|, Recall) / |ts| as real
            && o.weighted.recall == o.micro.recall
  {
    var ts := Tallies(AllCounts(gold, pred, labelList), Distinct(labelList));
    assert labelList[0] in Distinct(labelList);
    TalliesBounded(gold, pred, labelList);
    MicroRange(ts);
    MacroMean(ts);
    WeightedRange(ts);
  }

  /** Precision, recall and F1 all in [0, 1]. */
  ghost predicate InUnit(s: Score) {
    0.0 <= s.precision <= 1.0 && 0.0 <= s.recall <= 1.0 && 0.0 <= s.f1 <= 1.0
  }

  /**
   * Predictions identical to the gold records score 1 in precision, recall
   * and F1 for every listed label with at least one gold entity.
   */
  lemma EvaluateSelf(gold: seq<Record>, labelList: seq<string>)
    requires labelList != []
    ensures Evaluate(gold, gold, labelList).Ok?
    ensures forall entityType :: entityType in labelList && AllCounts(gold, gold, labelList).Of(entityType).gold > 0 ==>
              Evaluate(gold, gold, labelList).value.scores[entityType] == Score(1.0, 1.0, 1.0)
  {
    var counters := AllCounts(gold, gold, labelList);
    assert labelList[0] in Distinct(labelList);
    forall entityType | entityType in labelList && counters.Of(entityType).gold > 0
      ensures LabelScore(counters.Of(entityType)) == Score(1.0, 1.0, 1.0)
    {
      LabelSelf(gold, labelList, entityType);
      LabelScorePerfect(counters.Of(entityType));
    }
  }

  /** Only the first min(|gold|, |pred|) records of either file matter. */
  lemma EvaluateComparesShorter(gold: seq<Record>, pred: seq<Record>, labelList: seq<string>)
    ensures var n := Compared(gold, pred);
            Evaluate(gold, pred, labelList) == Evaluate(gold[..n], pred[..n], labelList)
  {
    CountsCompareShorter(gold, pred, labelList);
  }

  // ---------------------------------------------------------------------------
  // Label lists

  const ScienceLabels: seq<string> := [
    "scientist", "person", "university", "organisation", "country",
    "location", "discipline", "enzyme", "protein", "chemicalcompound",
    "chemicalelement", "event", "astronomicalobject", "academicjournal",
    "award", "theory", "misc"]

  const PoliticsLabels: seq<string> := [
    "politician", "person", "organisation", "politicalparty", "event",
    "election", "country", "location", "misc"]

  const MusicLabels: seq<string> := [
    "musicgenre", "song", "band", "album", "musicalartist", "musicalinstrument",
    "award", "event", "country", "location", "organisation", "person", "misc"]

  const AiLabels: seq<string> := [
    "field", "task", "product", "algorithm", "researcher", "metrics",
    "university", "country", "person", "organisation", "location",
    "misc", "conference", "programlang"]

  const LiteratureLabels: seq<string> := [
    "book", "writer", "award", "poem", "event", "magazine",
    "person", "location", "organisation", "country", "misc", "literarygenre"]

  /** The evaluation's label lists are the converter's entity types, domain by domain. */
  lemma LabelListsAreDomainTypes()
    ensures ScienceLabels == CrossNerTarget.GetLabelsByDomain("science")
    ensures PoliticsLabels == CrossNerTarget.GetLabelsByDomain("politics")
    ensures MusicLabels == CrossNerTarget.GetLabelsByDomain("music")
    ensures AiLabels == CrossNerTarget.GetLabelsByDomain("ai")
    ensures LiteratureLabels == CrossNerTarget.GetLabelsByDomain("literature")
  {
  }
}
