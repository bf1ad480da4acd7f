/**
 * The counting half of the CrossNER evaluation: for every pair of gold and
 * predicted records, position by position, and every listed label, three
 * counter dictionaries gain the number of gold entities, the number of
 * predicted entities and the number of true positives. Entities are
 * compared as strings, duplicates counting as often as they occur in both
 * lists.
 */
module EntityCounts {
  import opened Records
  import opened Counting

  /** A label's counters: gold entities, predicted entities, true positives. */
  datatype Tally = Tally(gold: nat, predicted: nat, matched: nat)

  /** True positives never exceed either side. */
  ghost predicate Bounded(t: Tally) {
    t.matched <= t.gold && t.matched <= t.predicted
  }

  /** The entities a record lists under a label; none when the label is missing. */
  function Get(r: Record, entityType: string): seq<string> {
    if entityType in r.labels then r.labels[entityType] else []
  }

  function Min(a: nat, b: nat): nat {
    if a <= b then a else b
  }

  /**
   * The true positives between two entity lists, as the two Counters give
   * them: for each of the first n distinct entities in keys, the smaller of
   * its numbers of occurrences in gold and in pred, summed.
   */
  function MinSum(gold: seq<string>, pred: seq<string>, keys: seq<string>, n: nat): nat
    requires n <= |keys|
  {
    if n == 0 then 0
    else MinSum(gold, pred, keys, n - 1) + Min(Occurrences(gold, |gold|, keys[n - 1]), Occurrences(pred, |pred|, keys[n - 1]))
  }

  /** True positives: the min-sum over every distinct predicted entity. */
  function Matches(gold: seq<string>, pred: seq<string>): nat {
    var keys := Distinct(pred);
    MinSum(gold, pred, keys, |keys|)
  }

  /** The occurrences in the first m entries of xs of the first n keys, summed. */
  function CountSum(xs: seq<string>, m: nat, keys: seq<string>, n: nat): nat
    requires m <= |xs| && n <= |keys|
  {
    if n == 0 then 0 else CountSum(xs, m, keys, n - 1) + Occurrences(xs, m, keys[n - 1])
  }

  /** Counting one more entry of xs adds the number of keys equal to it. */
  lemma {:induction false} CountSumStep(xs: seq<string>, m: nat, keys: seq<string>, n: nat)
    requires 0 < m <= |xs| && n <= |keys|
    ensures CountSum(xs, m, keys, n) == CountSum(xs, m - 1, keys, n) + Occurrences(keys, n, xs[m - 1])
  {
    if n > 0 {
      CountSumStep(xs, m, keys, n - 1);
    }
  }

  /** Nothing of xs counted: the sum is zero. */
  lemma {:induction false} CountSumNone(xs: seq<string>, keys: seq<string>, n: nat)
    requires n <= |keys|
    ensures CountSum(xs, 0, keys, n) == 0
  {
    if n > 0 {
      CountSumNone(xs, keys, n - 1);
    }
  }

  /**
   * Over keys without repeats, the summed occurrences count each of the first
   * m entries of xs at most once, and exactly once when the keys cover them.
   */
  lemma {:induction false} CountSumAll(xs: seq<string>, m: nat, keys: seq<string>)
    requires m <= |xs| && NoRepeats(keys)
    ensures CountSum(xs, m, keys, |keys|) <= m
    ensures (forall i :: 0 <= i < m ==> xs[i] in keys) ==> CountSum(xs, m, keys, |keys|) == m
  {
    if m > 0 {
      CountSumAll(xs, m - 1, keys);
      CountSumStep(xs, m, keys, |keys|);
      var x := xs[m - 1];
      if x in keys {
        var k :| 0 <= k < |keys| && keys[k] == x;
        OccursOnce(keys, |keys|, k);
      } else {
        OccursNever(keys, |keys|, x);
      }
    } else {
      CountSumNone(xs, keys, |keys|);
    }
  }

  /** Each min is at most either count. */
  lemma {:induction false} MinSumBounded(gold: seq<string>, pred: seq<string>, keys: seq<string>, n: nat)
    requires n <= |keys|
    ensures MinSum(gold, pred, keys, n) <= CountSum(gold, |gold|, keys, n)
    ensures MinSum(gold, pred, keys, n) <= CountSum(pred, |pred|, keys, n)
  {
    if n > 0 {
      MinSumBounded(gold, pred, keys, n - 1);
    }
  }

  /** Compared with itself, every min is the whole count. */
  lemma {:induction false} MinSumSelf(gold: seq<string>, keys: seq<string>, n: nat)
    requires n <= |keys|
    ensures MinSum(gold, gold, keys, n) == CountSum(gold, |gold|, keys, n)
  {
    if n > 0 {
      MinSumSelf(gold, keys, n - 1);
    }
  }

  /** True positives are bounded by both lists. */
  lemma MatchesBounded(gold: seq<string>, pred: seq<string>)
    ensures Matches(gold, pred) <= |gold| && Matches(gold, pred) <= |pred|
  {
    var keys := Distinct(pred);
    MinSumBounded(gold, pred, keys, |keys|);
    CountSumAll(gold, |gold|, keys);
    CountSumAll(pred, |pred|, keys);
  }

  /** A list compared with itself matches every entity. */
  lemma MatchesSelf(gold: seq<string>)
    ensures Matches(gold, gold) == |gold|
  {
    var keys := Distinct(gold);
    MinSumSelf(gold, keys, |keys|);
    CountSumAll(gold, |gold|, keys);
  }

  /**
   * One more predicted entity x raises the min-sum over the first n keys by
   * one exactly when x is among them and gold still has an unmatched copy.
   */
  lemma {:induction false} MinSumBump(gold: seq<string>, pred: seq<string>, x: string, keys: seq<string>, n: nat)
    requires n <= |keys| && NoRepeats(keys)
    ensures MinSum(gold, pred + [x], keys, n)
         == MinSum(gold, pred, keys, n)
            + if x in keys[..n] && Occurrences(gold, |gold|, x) > Occurrences(pred, |pred|, x) then 1 else 0
  {
    if n > 0 {
      MinSumBump(gold, pred, x, keys, n - 1);
      OccurrencesAppend(pred, x, keys[n - 1]);
      assert keys[..n] == keys[..n - 1] + [keys[n - 1]];
      if keys[n - 1] == x {
        assert x !in keys[..n - 1];
      }
    }
  }

  /** The min-sum over the first n keys depends only on those keys. */
  lemma {:induction false} MinSumKeysPrefix(gold: seq<string>, pred: seq<string>, keys: seq<string>, keys': seq<string>, n: nat)
    requires n <= |keys| && n <= |keys'| && keys[..n] == keys'[..n]
    ensures MinSum(gold, pred, keys, n) == MinSum(gold, pred, keys', n)
  {
    if n > 0 {
      assert keys[n - 1] == keys[..n][n - 1] && keys'[n - 1] == keys'[..n][n - 1];
      assert keys[..n - 1] == keys[..n][..n - 1] && keys'[..n - 1] == keys'[..n][..n - 1];
      MinSumKeysPrefix(gold, pred, keys, keys', n - 1);
    }
  }

  /** One more predicted entity is one more true positive exactly when gold has an unmatched copy. */
  lemma MatchesAppend(gold: seq<string>, pred: seq<string>, x: string)
    ensures Matches(gold, pred + [x])
         == Matches(gold, pred) + if Occurrences(gold, |gold|, x) > Occurrences(pred, |pred|, x) then 1 else 0
  {
    var keys := Distinct(pred);
    assert (pred + [x])[..|pred|] == pred;
    assert keys[..|keys|] == keys;
    MinSumBump(gold, pred, x, keys, |keys|);
    if x !in keys {
      NewEntityMatches(gold, pred, x);
    }
  }

  /** An entity new to pred adds its own key, worth one true positive exactly when gold lists it. */
  lemma NewEntityMatches(gold: seq<string>, pred: seq<string>, x: string)
    requires x !in Distinct(pred)
    ensures Matches(gold, pred + [x])
         == MinSum(gold, pred + [x], Distinct(pred), |Distinct(pred)|) + if Occurrences(gold, |gold|, x) > 0 then 1 else 0
    ensures Occurrences(pred, |pred|, x) == 0
  {
    var keys := Distinct(pred);
    assert (pred + [x])[..|pred|] == pred;
    var keys' := Distinct(pred + [x]);
    assert keys' == keys + [x];
    assert keys'[..|keys|] == keys[..|keys|];
    MinSumKeysPrefix(gold, pred + [x], keys', keys, |keys|);
    MultisetOccurrences(pred, x);
    OccurrencesAppend(pred, x, x);
  }

  /** One more copy of x in B adds one to A * B exactly when A has more copies of x than B. */
  lemma IntersectionAppend(a: multiset<string>, b: multiset<string>, x: string)
    ensures |a * (b + multiset{x})| == |a * b| + if a[x] > b[x] then 1 else 0
  {
    if a[x] > b[x] {
      assert a * (b + multiset{x}) == (a * b) + multiset{x};
    } else {
      assert a * (b + multiset{x}) == a * b;
    }
  }

  /**
   * The true positives the two Counters give are the size of the multiset
   * intersection of the two entity lists.
   */
  lemma {:induction false} MatchesIntersection(gold: seq<string>, pred: seq<string>)
    ensures Matches(gold, pred) == |multiset(gold) * multiset(pred)|
  {
    if pred == [] {
      assert multiset(gold) * multiset(pred) == multiset{};
    } else {
      var front, x := pred[..|pred| - 1], pred[|pred| - 1];
      assert pred == front + [x];
      MatchesIntersection(gold, front);
      MatchesAppend(gold, front, x);
      IntersectionAppend(multiset(gold), multiset(front), x);
      MultisetOccurrences(gold, x);
      MultisetOccurrences(front, x);
    }
  }

  /** True positives do not depend on which list is the gold one. */
  lemma MatchesSymmetric(gold: seq<string>, pred: seq<string>)
    ensures Matches(gold, pred) == Matches(pred, gold)
  {
    MatchesIntersection(gold, pred);
    MatchesIntersection(pred, gold);
    assert multiset(gold) * multiset(pred) == multiset(pred) * multiset(gold);
  }

  /**
   * The true-positive loop of one label and one pair: over the distinct
   * predicted entities in order of first occurrence, each one that is also
   * a gold entity adds the smaller of its two counts to the counter tp.
   */
  method AddTruePositives(goldEntities: seq<string>, predEntities: seq<string>, tp: nat) returns (tp': nat)
    ensures tp' == tp + Matches(goldEntities, predEntities)
  {
    var keys := Distinct(predEntities);
    tp' := tp;
    var i := 0;
    while i < |keys|
      invariant i <= |keys|
      invariant tp' == tp + MinSum(goldEntities, predEntities, keys, i)
    {
      var entity := keys[i];
      var goldCount := Occurrences(goldEntities, |goldEntities|, entity);
      if goldCount > 0 {
        tp' := tp' + Min(goldCount, Occurrences(predEntities, |predEntities|, entity));
      }
      i := i + 1;
    }
  }


  /** The three counter dictionaries: gold entities, predicted entities, true positives. */
  datatype Count = TrueCount | PredCount | TpCount

  /** What one pair of records adds to a label's counter of the given kind. */
  function Amount(c: Count, gold: Record, pred: Record, entityType: string): nat {
    var goldEntities, predEntities := Get(gold, entityType), Get(pred, entityType);
    match c
    case TrueCount => |goldEntities|
    case PredCount => |predEntities|
    case TpCount => Matches(goldEntities, predEntities)
  }

  /** The amounts one pair of records adds, label by label. */
  function PairAmounts(c: Count, gold: Record, pred: Record): string -> nat {
    entityType => Amount(c, gold, pred, entityType)
  }

  /** A label's counter of the given kind summed over the first n pairs of records. */
  function LabelTotal(c: Count, gold: seq<Record>, pred: seq<Record>, n: nat, entityType: string): nat
    requires n <= |gold| && n <= |pred|
  {
    if n == 0 then 0 else LabelTotal(c, gold, pred, n - 1, entityType) + Amount(c, gold[n - 1], pred[n - 1], entityType)
  }

  /** Summed over any number of pairs, true positives are at most the gold and the predicted entities. */
  lemma {:induction false} LabelTotalBounded(gold: seq<Record>, pred: seq<Record>, n: nat, entityType: string)
    requires n <= |gold| && n <= |pred|
    ensures LabelTotal(TpCount, gold, pred, n, entityType) <= LabelTotal(TrueCount, gold, pred, n, entityType)
    ensures LabelTotal(TpCount, gold, pred, n, entityType) <= LabelTotal(PredCount, gold, pred, n, entityType)
  {
    if n > 0 {
      LabelTotalBounded(gold, pred, n - 1, entityType);
      MatchesBounded(Get(gold[n - 1], entityType), Get(pred[n - 1], entityType));
    }
  }

  /** Records compared with themselves: every gold entity is predicted and matched. */
  lemma {:induction false} LabelTotalSelf(gold: seq<Record>, n: nat, entityType: string)
    requires n <= |gold|
    ensures LabelTotal(TpCount, gold, gold, n, entityType) == LabelTotal(TrueCount, gold, gold, n, entityType)
    ensures LabelTotal(PredCount, gold, gold, n, entityType) == LabelTotal(TrueCount, gold, gold, n, entityType)
  {
    if n > 0 {
      LabelTotalSelf(gold, n - 1, entityType);
      MatchesSelf(Get(gold[n - 1], entityType));
    }
  }

  /** Pairs are formed position by position, up to the shorter of the two files. */
  function Compared(gold: seq<Record>, pred: seq<Record>): (n: nat)
    ensures n <= |gold| && n <= |pred| && (n == |gold| || n == |pred|)
  {
    if |gold| <= |pred| then |gold| else |pred|
  }

  /** A counter dictionary after the first r pairs: each pair's amounts added for every listing. */
  function CountsAfter(c: Count, gold: seq<Record>, pred: seq<Record>, labelList: seq<string>, r: nat): map<string, nat>
    requires r <= |gold| && r <= |pred|
  {
    if r == 0 then Zeros(labelList)
    else AddListings(labelList, |labelList|, CountsAfter(c, gold, pred, labelList, r - 1), PairAmounts(c, gold[r - 1], pred[r - 1]))
  }

  /** A counter dictionary after all compared pairs. */
  function Counts(c: Count, gold: seq<Record>, pred: seq<Record>, labelList: seq<string>): map<string, nat> {
    CountsAfter(c, gold, pred, labelList, Compared(gold, pred))
  }

  /** The three counter dictionaries together. */
  datatype Counters = Counters(trueCounts: map<string, nat>, predCounts: map<string, nat>, tpCounts: map<string, nat>) {
    /** One label's three counts. */
    function Of(entityType: string): Tally {
      Tally(At(trueCounts, entityType), At(predCounts, entityType), At(tpCounts, entityType))
    }
  }

  /** The counters after all compared pairs. */
  function AllCounts(gold: seq<Record>, pred: seq<Record>, labelList: seq<string>): Counters {
    Counters(Counts(TrueCount, gold, pred, labelList), Counts(PredCount, gold, pred, labelList),
             Counts(TpCount, gold, pred, labelList))
  }

  /**
   * The counting loops: for every pair of records up to the shorter file
   * and every listed label, add the lengths of the gold and the predicted
   * lists and the true positives to that label's counters. What the
   * counters then hold is CountsClosedForm.
   */
  method CountEntities(gold: seq<Record>, pred: seq<Record>, labelList: seq<string>)
    returns (trueCounts: map<string, nat>, predCounts: map<string, nat>, tpCounts: map<string, nat>)
    ensures trueCounts == Counts(TrueCount, gold, pred, labelList)
    ensures predCounts == Counts(PredCount, gold, pred, labelList)
    ensures tpCounts == Counts(TpCount, gold, pred, labelList)
    ensures Covers(trueCounts, labelList) && Covers(predCounts, labelList) && Covers(tpCounts, labelList)
  {
    trueCounts, predCounts, tpCounts := Zeros(labelList), Zeros(labelList), Zeros(labelList);
    CountsStart(TrueCount, gold, pred, labelList);
    CountsStart(PredCount, gold, pred, labelList);
    CountsStart(TpCount, gold, pred, labelList);
    var n := Compared(gold, pred);
    var r := 0;
    while r < n
      invariant r <= n
      invariant trueCounts == CountsAfter(TrueCount, gold, pred, labelList, r)
      invariant predCounts == CountsAfter(PredCount, gold, pred, labelList, r)
      invariant tpCounts == CountsAfter(TpCount, gold, pred, labelList, r)
      invariant Covers(trueCounts, labelList) && Covers(predCounts, labelList) && Covers(tpCounts, labelList)
    {
      CountsStep(TrueCount, gold, pred, labelList, r);
      CountsStep(PredCount, gold, pred, labelList, r);
      CountsStep(TpCount, gold, pred, labelList, r);
      trueCounts, predCounts, tpCounts := CountPair(gold, pred, labelList, r, trueCounts, predCounts, tpCounts);
      r := r + 1;
    }
  }

  /**
   * The inner loop: for every listed label, pair r's gold and predicted
   * list lengths and its true positives added to that label's counters.
   */
  method CountPair(gold: seq<Record>, pred: seq<Record>, labelList: seq<string>, r: nat,
                   trueCounts: map<string, nat>, predCounts: map<string, nat>, tpCounts: map<string, nat>)
    returns (trueCounts': map<string, nat>, predCounts': map<string, nat>, tpCounts': map<string, nat>)
    requires r < |gold| && r < |pred|
    requires Covers(trueCounts, labelList) && Covers(predCounts, labelList) && Covers(tpCounts, labelList)
    ensures trueCounts' == AddListings(labelList, |labelList|, trueCounts, PairAmounts(TrueCount, gold[r], pred[r]))
    ensures predCounts' == AddListings(labelList, |labelList|, predCounts, PairAmounts(PredCount, gold[r], pred[r]))
    ensures tpCounts' == AddListings(labelList, |labelList|, tpCounts, PairAmounts(TpCount, gold[r], pred[r]))
    ensures Covers(trueCounts', labelList) && Covers(predCounts', labelList) && Covers(tpCounts', labelList)
  {
    trueCounts', predCounts', tpCounts' := trueCounts, predCounts, tpCounts;
    var j := 0;
    while j < |labelList|
      invariant j <= |labelList|
      invariant trueCounts' == AddListings(labelList, j, trueCounts, PairAmounts(TrueCount, gold[r], pred[r]))
      invariant predCounts' == AddListings(labelList, j, predCounts, PairAmounts(PredCount, gold[r], pred[r]))
      invariant tpCounts' == AddListings(labelList, j, tpCounts, PairAmounts(TpCount, gold[r], pred[r]))
      invariant Covers(trueCounts', labelList) && Covers(predCounts', labelList) && Covers(tpCounts', labelList)
    {
      var entityType := labelList[j];
      var goldEntities, predEntities := Get(gold[r], entityType), Get(pred[r], entityType);
      var trueCount := trueCounts'[entityType] + |goldEntities|;
      var predCount := predCounts'[entityType] + |predEntities|;
      var tp := AddTruePositives(goldEntities, predEntities, tpCounts'[entityType]);
      AddListingsNext(labelList, j, trueCounts, PairAmounts(TrueCount, gold[r], pred[r]), trueCounts', trueCount);
      AddListingsNext(labelList, j, predCounts, PairAmounts(PredCount, gold[r], pred[r]), predCounts', predCount);
      AddListingsNext(labelList, j, tpCounts, PairAmounts(TpCount, gold[r], pred[r]), tpCounts', tp);
      trueCounts' := trueCounts'[entityType := trueCount];
      predCounts' := predCounts'[entityType := predCount];
      tpCounts' := tpCounts'[entityType := tp];
      j := j + 1;
    }
  }


  /** The counters before any pair is compared. */
  lemma CountsStart(c: Count, gold: seq<Record>, pred: seq<Record>, labelList: seq<string>)
    ensures CountsAfter(c, gold, pred, labelList, 0) == Zeros(labelList)
    ensures Covers(Zeros(labelList), labelList)
  {
  }

  /** Comparing pair r adds its amounts to the counters after r pairs. */
  lemma CountsStep(c: Count, gold: seq<Record>, pred: seq<Record>, labelList: seq<string>, r: nat)
    requires r < |gold| && r < |pred|
    ensures CountsAfter(c, gold, pred, labelList, r + 1)
         == AddListings(labelList, |labelList|, CountsAfter(c, gold, pred, labelList, r), PairAmounts(c, gold[r], pred[r]))
  {
  }

  /** The counters after r > 0 pairs are those after r - 1 pairs with pair r - 1's amounts added. */
  lemma CountsUnfold(c: Count, gold: seq<Record>, pred: seq<Record>, labelList: seq<string>, r: nat)
    requires 0 < r <= |gold| && r <= |pred|
    ensures CountsAfter(c, gold, pred, labelList, r)
         == AddListings(labelList, |labelList|, CountsAfter(c, gold, pred, labelList, r - 1), PairAmounts(c, gold[r - 1], pred[r - 1]))
  {
  }

  /** After r pairs, a label listed k times holds k times its amounts over those pairs. */
  lemma {:induction false} CountsAfterValue(c: Count, gold: seq<Record>, pred: seq<Record>, labelList: seq<string>, r: nat,
                                            entityType: string)
    requires r <= |gold| && r <= |pred|
    ensures At(CountsAfter(c, gold, pred, labelList, r), entityType)
         == Times(Occurrences(labelList, |labelList|, entityType), LabelTotal(c, gold, pred, r, entityType))
  {
    if r == 0 {
      CountsStart(c, gold, pred, labelList);
      TimesZero(Occurrences(labelList, |labelList|, entityType));
    } else {
      CountsAfterValue(c, gold, pred, labelList, r - 1, entityType);
      CountsAfterNext(c, gold, pred, labelList, r, entityType);
    }
  }

  /** The closed form carries over from r - 1 compared pairs to r. */
  lemma CountsAfterNext(c: Count, gold: seq<Record>, pred: seq<Record>, labelList: seq<string>, r: nat, entityType: string)
    requires 0 < r <= |gold| && r <= |pred|
    requires At(CountsAfter(c, gold, pred, labelList, r - 1), entityType)
          == Times(Occurrences(labelList, |labelList|, entityType), LabelTotal(c, gold, pred, r - 1, entityType))
    ensures At(CountsAfter(c, gold, pred, labelList, r), entityType)
         == Times(Occurrences(labelList, |labelList|, entityType), LabelTotal(c, gold, pred, r, entityType))
  {
    var amounts := PairAmounts(c, gold[r - 1], pred[r - 1]);
    CountsUnfold(c, gold, pred, labelList, r);
    AddListingsValue(labelList, |labelList|, CountsAfter(c, gold, pred, labelList, r - 1), amounts, entityType);
    TimesStep(At(CountsAfter(c, gold, pred, labelList, r), entityType), At(CountsAfter(c, gold, pred, labelList, r - 1), entityType),
              Occurrences(labelList, |labelList|, entityType), LabelTotal(c, gold, pred, r - 1, entityType),
              amounts(entityType), LabelTotal(c, gold, pred, r, entityType));
  }

  /** k copies of a total that grows by an amount grow by k copies of the amount. */
  lemma TimesStep(now: nat, earlier: nat, k: nat, before: nat, amount: nat, total: nat)
    requires earlier == Times(k, before) && now == earlier + Times(k, amount) && total == before + amount
    ensures now == Times(k, total)
  {
    TimesAdd(k, before, amount);
  }

  /**
   * A label listed k times holds k times its gold entities, its predicted
   * entities and its true positives summed over the compared pairs (an
   * unlisted label, k = 0, holds nothing).
   */
  lemma CountsClosedForm(gold: seq<Record>, pred: seq<Record>, labelList: seq<string>)
    ensures forall c, entityType ::
              At(Counts(c, gold, pred, labelList), entityType)
                == Times(Occurrences(labelList, |labelList|, entityType), LabelTotal(c, gold, pred, Compared(gold, pred), entityType))
  {
    forall c, entityType
      ensures At(Counts(c, gold, pred, labelList), entityType)
                == Times(Occurrences(labelList, |labelList|, entityType), LabelTotal(c, gold, pred, Compared(gold, pred), entityType))
    {
      CountsAfterValue(c, gold, pred, labelList, Compared(gold, pred), entityType);
    }
  }

  /** Every label's true positives are at most its gold and its predicted entities. */
  lemma CountsBounded(gold: seq<Record>, pred: seq<Record>, labelList: seq<string>)
    ensures forall entityType :: Bounded(AllCounts(gold, pred, labelList).Of(entityType))
  {
    forall entityType
      ensures Bounded(AllCounts(gold, pred, labelList).Of(entityType))
    {
      LabelBounded(gold, pred, labelList, entityType);
    }
  }

  /** One label's true positives are at most its gold and its predicted entities. */
  lemma LabelBounded(gold: seq<Record>, pred: seq<Record>, labelList: seq<string>, entityType: string)
    ensures Bounded(AllCounts(gold, pred, labelList).Of(entityType))
  {
    var n := Compared(gold, pred);
    var k := Occurrences(labelList, |labelList|, entityType);
    CountsAfterValue(TrueCount, gold, pred, labelList, n, entityType);
    CountsAfterValue(PredCount, gold, pred, labelList, n, entityType);
    CountsAfterValue(TpCount, gold, pred, labelList, n, entityType);
    LabelTotalBounded(gold, pred, n, entityType);
    TimesMono(k, LabelTotal(TpCount, gold, pred, n, entityType), LabelTotal(TrueCount, gold, pred, n, entityType));
    TimesMono(k, LabelTotal(TpCount, gold, pred, n, entityType), LabelTotal(PredCount, gold, pred, n, entityType));
  }

  /**
   * Records compared with themselves: every label's true positives and
   * predicted entities are its gold entities.
   */
  lemma LabelSelf(gold: seq<Record>, labelList: seq<string>, entityType: string)
    ensures var t := AllCounts(gold, gold, labelList).Of(entityType);
            t.matched == t.gold && t.predicted == t.gold
  {
    var n := Compared(gold, gold);
    CountsAfterValue(TrueCount, gold, gold, labelList, n, entityType);
    CountsAfterValue(PredCount, gold, gold, labelList, n, entityType);
    CountsAfterValue(TpCount, gold, gold, labelList, n, entityType);
    LabelTotalSelf(gold, n, entityType);
  }

  /** Pairs beyond position n do not change the counters after the first r <= n. */
  lemma {:induction false} CountsAfterPrefix(c: Count, gold: seq<Record>, pred: seq<Record>, labelList: seq<string>, n: nat, r: nat)
    requires r <= n <= |gold| && n <= |pred|
    ensures CountsAfter(c, gold[..n], pred[..n], labelList, r) == CountsAfter(c, gold, pred, labelList, r)
  {
    if r == 0 {
      CountsStart(c, gold, pred, labelList);
      CountsStart(c, gold[..n], pred[..n], labelList);
    } else {
      CountsAfterPrefix(c, gold, pred, labelList, n, r - 1);
      CountsUnfold(c, gold, pred, labelList, r);
      CountsUnfold(c, gold[..n], pred[..n], labelList, r);
      assert gold[..n][r - 1] == gold[r - 1] && pred[..n][r - 1] == pred[r - 1];
    }
  }

  /**
   * Only the first min(|gold|, |pred|) pairs are compared: the counters are
   * those of the two files cut to that length.
   */
  lemma CountsCompareShorter(gold: seq<Record>, pred: seq<Record>, labelList: seq<string>)
    ensures var n := Compared(gold, pred);
            AllCounts(gold, pred, labelList) == AllCounts(gold[..n], pred[..n], labelList)
  {
    var n := Compared(gold, pred);
    assert Compared(gold[..n], pred[..n]) == n;
    CountsAfterPrefix(TrueCount, gold, pred, labelList, n, n);
    CountsAfterPrefix(PredCount, gold, pred, labelList, n, n);
    CountsAfterPrefix(TpCount, gold, pred, labelList, n, n);
  }
}
