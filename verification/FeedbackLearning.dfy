/** Learning score boosts from the feedback history (`scripts/feedback-learning.js`). */
module FeedbackLearning {
  import opened Common
  import opened FeedbackStorage

  const LearningRate: real := 0.1
  const DecayRate: real := 0.95
  const MinSamples := 5
  const WeightMin: real := -3.0
  const WeightMax: real := 3.0
  /** The baseline approval rate: one of three tweet options. */
  const BaselineRate: real := 0.33
  /** One day in milliseconds. */
  const DayMs: real := 86400000.0

  // ------------------------------------------------------------------
  // calculateCategoryBoosts / calculateSourceBoosts
  // ------------------------------------------------------------------

  function Total(c: ApprovalCount): nat { c.approved + c.ignored }

  /** The share of approvals among the articles counted under one key. */
  function Rate(c: ApprovalCount): real
    requires Total(c) > 0
  {
    c.approved as real / Total(c) as real
  }

  function BoostOf(c: ApprovalCount): real
    requires Total(c) > 0
  {
    ClampReal((Rate(c) - BaselineRate) * LearningRate * 10.0, WeightMin, WeightMax)
  }

  /** The boost of every key counted at least MIN_SAMPLES times. */
  function Boosts(stats: map<string, ApprovalCount>): map<string, real>
  {
    map k | k in stats && Total(stats[k]) >= MinSamples :: BoostOf(stats[k])
  }

  /** A boost is the approval rate's excess over the baseline: the clamp to [-3, 3] never
      applies, the boost lies in [-0.33, 0.67], and it is positive iff more than a third of
      the articles were approved. */
  lemma BoostValue(c: ApprovalCount)
    requires Total(c) > 0
    ensures 0.0 <= Rate(c) <= 1.0
    ensures BoostOf(c) == Rate(c) - BaselineRate
    ensures -BaselineRate <= BoostOf(c) <= 1.0 - BaselineRate
    ensures BoostOf(c) > 0.0 <==> Rate(c) > BaselineRate
  {
    var t := Total(c) as real;
    assert Rate(c) * t == c.approved as real <= t;
  }

  /** Builds the boost table, one key at a time. */
  method BoostTable(stats: map<string, ApprovalCount>) returns (boosts: map<string, real>)
    ensures boosts == Boosts(stats)
  {
    boosts := map[];
    var rest := stats.Keys;
    while rest != {}
      invariant rest <= stats.Keys
      invariant forall k :: k in boosts ==> k in stats && k !in rest && Total(stats[k]) >= MinSamples
      invariant forall k :: k in stats && k !in rest && Total(stats[k]) >= MinSamples ==>
                             k in boosts && boosts[k] == BoostOf(stats[k])
      decreases rest
    {
      var k :| k in rest;
      if Total(stats[k]) >= MinSamples {
        boosts := boosts[k := BoostOf(stats[k])];
      }
      rest := rest - {k};
    }
  }

  /** Counts every article of every record under its key, then turns the counts into boosts. */
  method CalculateBoosts(history: seq<Record>, key: Article -> string) returns (boosts: map<string, real>)
    ensures boosts == Boosts(ByKey(history, key))
  {
    var stats: map<string, ApprovalCount> := map[];
    for i := 0 to |history|
      invariant stats == ByKey(history[..i], key)
    {
      assert history[..i + 1][..i] == history[..i];
      stats := CountRecordArticles(stats, history[i].sourceArticles, history[i].action == "approved", key);
    }
    assert history[..|history|] == history;
    boosts := BoostTable(stats);
  }

  /** A key has a boost iff at least five articles were counted under it, and the boost is
      the share of those articles that came from approved records, less the baseline. */
  lemma BoostsFromHistory(h: seq<Record>, key: Article -> string, k: string)
    ensures var n := KeyCount(h, key, k, true) + KeyCount(h, key, k, false);
            (k in Boosts(ByKey(h, key)) <==> n >= MinSamples) &&
            (n >= MinSamples ==>
               Boosts(ByKey(h, key))[k] == KeyCount(h, key, k, true) as real / n as real - BaselineRate)
  {
    ByKeyCounts(h, key, k);
    var m := ByKey(h, key);
    if k in m && Total(m[k]) >= MinSamples {
      BoostValue(m[k]);
    }
  }

  // ------------------------------------------------------------------
  // applyDecay
  // ------------------------------------------------------------------

  /** Every weight scaled by the factor, dropping those that end up below 0.01 in magnitude. */
  function Decayed(w: map<string, real>, factor: real): map<string, real>
  {
    map k | k in w && Survives(w[k], factor) :: w[k] * factor
  }

  /** A weight survives decay unless it ends up below 0.01 in magnitude. */
  predicate Survives(v: real, factor: real)
  {
    AbsReal(v * factor) >= 0.01
  }

  /** `applyDecay` on a present weights object: unchanged unless some time has passed. */
  function DecayAfter(w: map<string, real>, days: real, factor: real): map<string, real>
  {
    if days <= 0.0 then w else Decayed(w, factor)
  }

  /** `decayFactor` stands for DECAY_RATE raised to `days`; a missing weights object is
      returned as it is. */
  method ApplyDecay(weights: Option<map<string, real>>, days: real, decayFactor: real)
    returns (r: Option<map<string, real>>)
    ensures weights.None? ==> r.None?
    ensures weights.Some? ==> r == Some(DecayAfter(weights.value, days, decayFactor))
  {
    if weights.None? || days <= 0.0 {
      return weights;
    }
    var decayed := DecayEach(weights.value, decayFactor);
    r := Some(decayed);
  }

  /** The loop of `applyDecay`: scales each weight and deletes the near-zero ones. */
  method DecayEach(w: map<string, real>, decayFactor: real) returns (decayed: map<string, real>)
    ensures decayed == Decayed(w, decayFactor)
  {
    decayed := map[];
    var rest := w.Keys;
    while rest != {}
      invariant rest <= w.Keys
      invariant forall k :: k in decayed ==> k in w && k !in rest && Survives(w[k], decayFactor)
      invariant forall k :: k in w && k !in rest && Survives(w[k], decayFactor) ==>
                             k in decayed && decayed[k] == w[k] * decayFactor
      decreases rest
    {
      var k :| k in rest;
      var v := w[k] * decayFactor;
      decayed := decayed[k := v];
      if AbsReal(v) < 0.01 {
        decayed := decayed - {k};
      }
      rest := rest - {k};
    }
    assert decayed.Keys == Decayed(w, decayFactor).Keys;
    assert forall k :: k in decayed ==> decayed[k] == Decayed(w, decayFactor)[k];
  }

  lemma ScaleBounded(v: real, f: real)
    requires WeightMin <= v <= WeightMax && 0.0 <= f <= 1.0
    ensures WeightMin <= v * f <= WeightMax
  {
    if v >= 0.0 {
      assert v * f <= v * 1.0;
    } else {
      assert v * f >= v * 1.0;
    }
  }

  /** Decay only removes keys and, for a factor in [0, 1], keeps every weight in [-3, 3]. */
  lemma DecayBounded(w: map<string, real>, days: real, f: real)
    requires forall k :: k in w ==> WeightMin <= w[k] <= WeightMax
    requires 0.0 <= f <= 1.0
    ensures DecayAfter(w, days, f).Keys <= w.Keys
    ensures forall k :: k in DecayAfter(w, days, f) ==> WeightMin <= DecayAfter(w, days, f)[k] <= WeightMax
  {
    forall k | k in w
      ensures WeightMin <= w[k] * f <= WeightMax
    {
      ScaleBounded(w[k], f);
    }
  }

  // ------------------------------------------------------------------
  // learn
  // ------------------------------------------------------------------

  datatype LearnResult = NotUpdated(reason: string) | Updated(weights: Weights)

  /** Days since the last update; no time has passed when the weights carry no timestamp. */
  function DaysSince(updatedAt: int, now: int): real
  {
    if updatedAt != 0 then (now - updatedAt) as real / DayMs else 0.0
  }

  /** The decayed prior weights overridden by the freshly learned ones. */
  function Merged(prior: map<string, real>, h: seq<Record>, key: Article -> string, days: real, factor: real)
    : map<string, real>
  {
    DecayAfter(prior, days, factor) + Boosts(ByKey(h, key))
  }

  /** The weights `learn` stores for history h, prior weights w and time now. */
  function Learned(h: seq<Record>, w: Weights, now: int, factor: real): Weights
  {
    var days := DaysSince(w.updatedAt, now);
    var cat := Merged(w.categoryBoosts, h, CategoryOf, days, factor);
    var src := Merged(w.sourceBoosts, h, SourceOf, days, factor);
    Weights(w.version + 1, now, cat, src, Some(WeightStats(|h|, |cat.Keys|, |src.Keys|)))
  }

  /** With fewer than five records nothing changes; otherwise the merged weights are stored
      with the next version. `decayFactor` stands for DECAY_RATE raised to the days since the
      last update. */
  method Learn(sd: StaticData, now: int, decayFactor: real) returns (r: LearnResult)
    modifies sd
    ensures |OrDefault(old(sd.feedbackHistory), [])| < MinSamples ==>
              r == NotUpdated("insufficient_samples") && sd.learnedWeights == old(sd.learnedWeights)
    ensures |OrDefault(old(sd.feedbackHistory), [])| >= MinSamples ==>
              r == Updated(Learned(OrDefault(old(sd.feedbackHistory), []), OrDefault(old(sd.learnedWeights), NoWeights),
                                   now, decayFactor)) &&
              sd.learnedWeights == Some(r.weights)
    ensures sd.feedbackHistory == old(sd.feedbackHistory)
  {
    var history := OrDefault(sd.feedbackHistory, []);
    var oldWeights := OrDefault(sd.learnedWeights, NoWeights);
    if |history| < MinSamples {
      return NotUpdated("insufficient_samples");
    }
    var categoryBoosts := CalculateBoosts(history, CategoryOf);
    var sourceBoosts := CalculateBoosts(history, SourceOf);
    var days := DaysSince(oldWeights.updatedAt, now);
    var decayedCategory := ApplyDecay(Some(oldWeights.categoryBoosts), days, decayFactor);
    var decayedSource := ApplyDecay(Some(oldWeights.sourceBoosts), days, decayFactor);
    var mergedCategory := decayedCategory.value + categoryBoosts;
    var mergedSource := decayedSource.value + sourceBoosts;
    var weights := Weights(oldWeights.version + 1, now, mergedCategory, mergedSource,
                           Some(WeightStats(|history|, |mergedCategory.Keys|, |mergedSource.Keys|)));
    sd.learnedWeights := Some(weights);
    r := Updated(weights);
  }

  /** The stored weights carry the next version, the time of learning and the sample count. */
  lemma LearnedHeader(h: seq<Record>, w: Weights, now: int, f: real)
    ensures Learned(h, w, now, f).version == w.version + 1
    ensures Learned(h, w, now, f).updatedAt == now
    ensures Learned(h, w, now, f).stats == Some(WeightStats(|h|, |Learned(h, w, now, f).categoryBoosts.Keys|,
                                                            |Learned(h, w, now, f).sourceBoosts.Keys|))
  {
  }

  /** New weights win: a key with at least five samples gets its fresh boost; any other key
      keeps its decayed prior weight, if that survived. */
  lemma MergedEntry(prior: map<string, real>, h: seq<Record>, key: Article -> string, days: real, f: real, k: string)
    ensures var n := KeyCount(h, key, k, true) + KeyCount(h, key, k, false);
            var m := Merged(prior, h, key, days, f);
            (n >= MinSamples ==> k in m && m[k] == KeyCount(h, key, k, true) as real / n as real - BaselineRate) &&
            (n < MinSamples ==> (k in m <==> k in DecayAfter(prior, days, f)) &&
                                (k in m ==> m[k] == DecayAfter(prior, days, f)[k]))
  {
    BoostsFromHistory(h, key, k);
  }

  /** Weights stored without a timestamp are not decayed. */
  lemma MergedWithoutTimestamp(h: seq<Record>, w: Weights, now: int, f: real)
    requires w.updatedAt == 0
    ensures Learned(h, w, now, f).categoryBoosts == w.categoryBoosts + Boosts(ByKey(h, CategoryOf))
    ensures Learned(h, w, now, f).sourceBoosts == w.sourceBoosts + Boosts(ByKey(h, SourceOf))
  {
  }

  lemma MergedBounded(prior: map<string, real>, h: seq<Record>, key: Article -> string, days: real, f: real)
    requires forall k :: k in prior ==> WeightMin <= prior[k] <= WeightMax
    requires 0.0 <= f <= 1.0
    ensures forall k :: k in Merged(prior, h, key, days, f) ==> WeightMin <= Merged(prior, h, key, days, f)[k] <= WeightMax
  {
    DecayBounded(prior, days, f);
    var stats := ByKey(h, key);
    forall k | k in Boosts(stats)
      ensures WeightMin <= Boosts(stats)[k] <= WeightMax
    {
      BoostValue(stats[k]);
    }
  }

  predicate Bounded(m: map<string, real>)
  {
    forall k :: k in m ==> WeightMin <= m[k] <= WeightMax
  }

  /** Learning keeps every weight in [-3, 3] when the prior ones were and the decay factor is
      in [0, 1]. */
  lemma LearnedBounded(h: seq<Record>, w: Weights, now: int, f: real)
    requires Bounded(w.categoryBoosts) && Bounded(w.sourceBoosts)
    requires 0.0 <= f <= 1.0
    ensures Bounded(Learned(h, w, now, f).categoryBoosts) && Bounded(Learned(h, w, now, f).sourceBoosts)
  {
    var days := DaysSince(w.updatedAt, now);
    MergedBounded(w.categoryBoosts, h, CategoryOf, days, f);
    MergedBounded(w.sourceBoosts, h, SourceOf, days, f);
  }

  // ------------------------------------------------------------------
  // getScoreAdjustment
  // ------------------------------------------------------------------

  /** A key's boost; a missing key (or a zero boost) adds nothing. */
  function BoostFor(m: map<string, real>, k: string): real
  {
    if k in m then m[k] else 0.0
  }

  /** The category boost plus the source boost. */
  function GetScoreAdjustment(w: Weights, category: string, source: string): (r: real)
    ensures category !in w.categoryBoosts ==> r == BoostFor(w.sourceBoosts, source)
    ensures source !in w.sourceBoosts ==> r == BoostFor(w.categoryBoosts, category)
    ensures Bounded(w.categoryBoosts) && Bounded(w.sourceBoosts) ==> 2.0 * WeightMin <= r <= 2.0 * WeightMax
  {
    BoostFor(w.categoryBoosts, category) + BoostFor(w.sourceBoosts, source)
  }

  /** Right after learning, a category and a source with at least five samples each adjust a
      score by the sum of their approval rates' excesses over the baseline. */
  lemma LearnedAdjustment(h: seq<Record>, w: Weights, now: int, f: real, c: string, s: string)
    requires KeyCount(h, CategoryOf, c, true) + KeyCount(h, CategoryOf, c, false) >= MinSamples
    requires KeyCount(h, SourceOf, s, true) + KeyCount(h, SourceOf, s, false) >= MinSamples
    ensures GetScoreAdjustment(Learned(h, w, now, f), c, s) ==
              KeyCount(h, CategoryOf, c, true) as real / (KeyCount(h, CategoryOf, c, true) + KeyCount(h, CategoryOf, c, false)) as real
              - BaselineRate +
              KeyCount(h, SourceOf, s, true) as real / (KeyCount(h, SourceOf, s, true) + KeyCount(h, SourceOf, s, false)) as real
              - BaselineRate
  {
    var days := DaysSince(w.updatedAt, now);
    MergedEntry(w.categoryBoosts, h, CategoryOf, days, f, c);
    MergedEntry(w.sourceBoosts, h, SourceOf, days, f, s);
  }
}
