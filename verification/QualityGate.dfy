/** The content quality gate of `scripts/ai-quality-gate.js`: the per-item check with its
    fallback, the filter by recommendation and the statistics. */
module QualityGate {
  import opened Common

  // ------------------------------------------------------------------
  // Items and their quality checks
  // ------------------------------------------------------------------

  /** A quality assessment. A missing number is 0; a missing recommendation is `None`. */
  datatype QualityCheck = QualityCheck(factuality: real, biasRisk: string, spamScore: real,
                                       recommendation: Option<string>, reason: string, error: string)

  /** An item: the fields the prompt reads, which the gate passes through, and its quality
      check, if it has one. */
  datatype Item = Item(title: string, source: string, content: string, qualityCheck: Option<QualityCheck>)

  /** What came of asking the model about one item: the parsed assessment, or the message of
      the error raised while asking or parsing. */
  datatype Reply = Assessed(check: QualityCheck) | Failed(message: string)

  /** The assessment given to an item whose check failed. */
  function FallbackCheck(message: string): QualityCheck
  {
    QualityCheck(5.0, "medium", 5.0, Some("review"), "Quality check failed", message)
  }

  /** One item of a batch: the item with the model's assessment, or with the fallback. */
  function CheckOne(llm: Item -> Reply, item: Item): Item
  {
    var check := match llm(item)
      case Assessed(q) => q
      case Failed(m) => FallbackCheck(m);
    item.(qualityCheck := Some(check))
  }

  /** `CheckOne` for a given model, as a function of the item. */
  function Checker(llm: Item -> Reply): Item -> Item
  {
    (item: Item) => CheckOne(llm, item)
  }

  /** The outcome of `checkQuality`: the error thrown without an API key, or the checked items. */
  datatype CheckOutcome = MissingKey | Checked(items: seq<Item>)

  /** `checkQuality`: every item checked, in input order. */
  function CheckQuality(items: seq<Item>, apiKey: string, llm: Item -> Reply): CheckOutcome
  {
    if apiKey == "" then MissingKey else Checked(Map(items, Checker(llm)))
  }

  /** Without an API key nothing is checked; otherwise there is one result per item, in input
      order, carrying the item's own fields and a quality check: the model's assessment, or for
      a failed check factuality 5, bias risk medium, spam score 5 and the recommendation
      review, with the error's message. */
  lemma CheckQualityShape(items: seq<Item>, apiKey: string, llm: Item -> Reply)
    ensures CheckQuality(items, apiKey, llm).MissingKey? <==> apiKey == ""
    ensures var out := CheckQuality(items, apiKey, llm);
            out.Checked? ==>
              |out.items| == |items| &&
              forall i :: 0 <= i < |items| ==>
                var r := out.items[i];
                r.title == items[i].title && r.source == items[i].source && r.content == items[i].content &&
                r.qualityCheck.Some? &&
                (llm(items[i]).Assessed? ==> r.qualityCheck.value == llm(items[i]).check) &&
                (llm(items[i]).Failed? ==>
                   var q := r.qualityCheck.value;
                   q.factuality == 5.0 && q.biasRisk == "medium" && q.spamScore == 5.0 &&
                   q.recommendation == Some("review") && q.error == llm(items[i]).message)
  {
    if apiKey != "" {
      var out := Map(items, Checker(llm));
      forall i | 0 <= i < |items|
        ensures out[i] == CheckOne(llm, items[i])
      {
      }
    }
  }

  /** The batch loop: `batchSize` items at a time, each batch's results appended in order. */
  method CheckQualityBatches(items: seq<Item>, apiKey: string, llm: Item -> Reply, batchSize: int)
    returns (outcome: CheckOutcome)
    requires batchSize >= 1
    ensures outcome == CheckQuality(items, apiKey, llm)
  {
    if apiKey == "" {
      return MissingKey;
    }
    var results: seq<Item> := [];
    var i := 0;
    while i < |items|
      invariant 0 <= i
      invariant results == Map(items[..Min(i, |items|)], Checker(llm))
      decreases |items| - i
    {
      var end := Min(i + batchSize, |items|);
      var batch := items[i..end];
      var batchResults := Map(batch, Checker(llm));
      assert items[..end] == items[..i] + batch;
      results := results + batchResults;
      i := i + batchSize;
    }
    assert items[..Min(i, |items|)] == items;
    outcome := Checked(results);
  }

  // ------------------------------------------------------------------
  // Filtering by recommendation
  // ------------------------------------------------------------------

  /** The recommendations a threshold lets through; an unknown threshold counts as "review". */
  function Allowed(minRecommendation: string): (r: set<string>)
    ensures "pass" in r && r <= {"pass", "review", "reject"}
    ensures "review" in r <==> minRecommendation != "pass"
    ensures "reject" in r <==> minRecommendation == "reject"
  {
    if minRecommendation == "pass" then {"pass"}
    else if minRecommendation == "review" then {"pass", "review"}
    else if minRecommendation == "reject" then {"pass", "review", "reject"}
    else {"pass", "review"}
  }

  /** An item's recommendation; "review" when it has no check or its check recommends nothing. */
  function RecOf(item: Item): string
  {
    if item.qualityCheck.Some? && item.qualityCheck.value.recommendation.Some? &&
       item.qualityCheck.value.recommendation.value != ""
    then item.qualityCheck.value.recommendation.value
    else "review"
  }

  /** Whether an item passes the threshold. */
  function Passes(minRecommendation: string): Item -> bool
  {
    (item: Item) => RecOf(item) in Allowed(minRecommendation)
  }

  /** `filterByQuality`. */
  function FilterByQuality(items: seq<Item>, minRecommendation: string): seq<Item>
  {
    Filter(items, Passes(minRecommendation))
  }

  /** Filtering keeps exactly the items whose flag is set, in input order. */
  lemma {:induction false} FilterIsSelect<T>(s: seq<T>, p: T -> bool)
    ensures Filter(s, p) == Select(s, Map(s, p))
  {
    if s != [] {
      var init := s[..|s| - 1];
      var x := s[|s| - 1];
      FilterIsSelect(init, p);
      SplitLast(s);
      MapSnoc(init, x, p);
      var m := Map(s, p);
      assert m[..|s| - 1] == Map(init, p);
      assert Select(s, m) == Select(init, Map(init, p)) + (if p(x) then [x] else []);
      FilterAppend(init, [x], p);
      assert Filter([x], p) == (if p(x) then [x] else []) + Filter([], p);
    }
  }

  /** The filter keeps, in input order, exactly the items whose recommendation the threshold
      allows; an item that recommends nothing counts as "review". */
  lemma FilterByQualityShape(items: seq<Item>, minRecommendation: string)
    ensures FilterByQuality(items, minRecommendation) == Select(items, Map(items, Passes(minRecommendation)))
    ensures forall x :: x in FilterByQuality(items, minRecommendation) <==>
              x in items && RecOf(x) in Allowed(minRecommendation)
  {
    FilterIsSelect(items, Passes(minRecommendation));
  }

  /** A stricter threshold keeps a subset of what a looser one keeps. */
  lemma FilterMonotone(items: seq<Item>)
    ensures forall x :: x in FilterByQuality(items, "pass") ==> x in FilterByQuality(items, "review")
    ensures forall x :: x in FilterByQuality(items, "review") ==> x in FilterByQuality(items, "reject")
  {
    FilterByQualityShape(items, "pass");
    FilterByQualityShape(items, "review");
    FilterByQualityShape(items, "reject");
  }

  /** An item whose check failed is kept by every threshold except "pass". */
  lemma FallbackKeptUnlessPass(llm: Item -> Reply, item: Item, minRecommendation: string)
    requires llm(item).Failed?
    ensures CheckOne(llm, item) in FilterByQuality([CheckOne(llm, item)], minRecommendation) <==>
            minRecommendation != "pass"
  {
    FilterByQualityShape([CheckOne(llm, item)], minRecommendation);
  }

  // ------------------------------------------------------------------
  // Statistics
  // ------------------------------------------------------------------

  /** The statistics: the counters of the `stats` object by key, and the two averages. */
  datatype Stats = Stats(counts: map<string, int>, avgFactuality: real, avgSpamScore: real)

  /** The counters and the sums, as the loop accumulates them. */
  datatype Tally = Tally(counts: map<string, int>, factSum: real, spamSum: real)

  const AvgFactualityKey := "avgFactuality"
  const AvgSpamScoreKey := "avgSpamScore"

  /** The key `stats[qc.recommendation]` counts under; a missing recommendation is the key
      "undefined". */
  function RecKey(qc: QualityCheck): string
  {
    match qc.recommendation
    case None => "undefined"
    case Some(s) => s
  }

  /** The counters before the loop. */
  function InitialCounts(total: int): map<string, int>
  {
    map["total" := total, "pass" := 0, "review" := 0, "reject" := 0]
  }

  /** One of the three recommendations the gate knows. */
  predicate Known(rec: string)
  {
    rec == "pass" || rec == "review" || rec == "reject"
  }

  /** The starting counters: `total` is the number of items, the three recommendations 0. */
  lemma InitialCountsAt(total: int)
    ensures var init := InitialCounts(total);
            "total" in init && "pass" in init && "review" in init && "reject" in init &&
            Get(init, "total") == total && Get(init, "pass") == 0 &&
            Get(init, "review") == 0 && Get(init, "reject") == 0
  {
    assert |"total"| == 5 && |"pass"| == 4 && |"review"| == 6 && |"reject"| == 6;
    assert "review"[2] != "reject"[2];
  }

  /** `stats[key] = (stats[key] || 0) + 1`. A count under one of the average keys is left out:
      the average overwrites it after the loop. */
  function Bump(counts: map<string, int>, key: string): map<string, int>
  {
    if key == AvgFactualityKey || key == AvgSpamScoreKey then counts
    else counts[key := (if key in counts then counts[key] else 0) + 1]
  }

  /** One item of the loop: an item without a check is skipped. */
  function TallyStep(t: Tally, item: Item): Tally
  {
    match item.qualityCheck
    case None => t
    case Some(qc) => Tally(Bump(t.counts, RecKey(qc)), t.factSum + qc.factuality, t.spamSum + qc.spamScore)
  }

  /** The loop over `items`, starting from the counters for `total` items. */
  function TallyOf(items: seq<Item>, total: int): Tally
  {
    if items == [] then Tally(InitialCounts(total), 0.0, 0.0)
    else TallyStep(TallyOf(items[..|items| - 1], total), items[|items| - 1])
  }

  /** `getQualityStats`: the averages divide by the number of all items, with or without a
      check, and are 0 without items. */
  function QualityStats(items: seq<Item>): Stats
  {
    var t := TallyOf(items, |items|);
    Stats(t.counts, Average(t.factSum, |items|), Average(t.spamSum, |items|))
  }

  /** A sum divided by the number of items; 0 without items. */
  function Average(sum: real, n: nat): real
  {
    if n > 0 then sum / n as real else 0.0
  }

  /** The loop of `getQualityStats`. */
  method GetQualityStats(items: seq<Item>) returns (stats: Stats)
    ensures stats == QualityStats(items)
  {
    var counts := InitialCounts(|items|);
    var factSum := 0.0;
    var spamSum := 0.0;
    for i := 0 to |items|
      invariant Tally(counts, factSum, spamSum) == TallyOf(items[..i], |items|)
    {
      assert items[..i + 1][..i] == items[..i];
      var item := items[i];
      if item.qualityCheck.None? {
        continue;
      }
      var qc := item.qualityCheck.value;
      var key := RecKey(qc);
      if key != AvgFactualityKey && key != AvgSpamScoreKey {
        counts := counts[key := (if key in counts then counts[key] else 0) + 1];
      }
      factSum := factSum + qc.factuality;
      spamSum := spamSum + qc.spamScore;
    }
    assert items[..|items|] == items;
    var avgFactuality := 0.0;
    var avgSpamScore := 0.0;
    if |items| > 0 {
      avgFactuality := factSum / |items| as real;
      avgSpamScore := spamSum / |items| as real;
    }
    stats := Stats(counts, avgFactuality, avgSpamScore);
  }

  /** Whether an item has a check that counts under `key`. */
  function CountsUnder(key: string): Item -> bool
  {
    (item: Item) => item.qualityCheck.Some? && RecKey(item.qualityCheck.value) == key
  }

  function Get(counts: map<string, int>, key: string): int { if key in counts then counts[key] else 0 }

  /** Every counter is its starting value plus the number of checked items that count under
      its key. */
  lemma {:induction false} TallyCounts(items: seq<Item>, total: int, key: string)
    requires key != AvgFactualityKey && key != AvgSpamScoreKey
    ensures Get(TallyOf(items, total).counts, key) == Get(InitialCounts(total), key) + Count(items, CountsUnder(key))
  {
    if items != [] {
      var init := items[..|items| - 1];
      var x := items[|items| - 1];
      TallyCounts(init, total, key);
      assert items == init + [x];
      CountAppend(init, [x], CountsUnder(key));
    }
  }

  /** The counters' keys are the four starting ones and those some checked item counts
      under. */
  lemma {:induction false} TallyKeys(items: seq<Item>, total: int, key: string)
    requires key != AvgFactualityKey && key != AvgSpamScoreKey
    ensures key in TallyOf(items, total).counts <==>
              key in InitialCounts(total) || exists x :: x in items && CountsUnder(key)(x)
  {
    if items != [] {
      var init := items[..|items| - 1];
      var x := items[|items| - 1];
      TallyKeys(init, total, key);
      assert items == init + [x];
      var t := TallyOf(init, total);
      assert TallyOf(items, total) == TallyStep(t, x);
      assert key in TallyStep(t, x).counts <==> key in t.counts || CountsUnder(key)(x);
      if exists y :: y in items && CountsUnder(key)(y) {
        var y :| y in items && CountsUnder(key)(y);
        if y != x {
          assert y in init;
        }
      }
      if exists y :: y in init && CountsUnder(key)(y) {
        var y :| y in init && CountsUnder(key)(y);
        assert y in items;
      }
    }
  }

  /** The counters hold nothing under the average keys. */
  lemma {:induction false} TallyNoAverageKeys(items: seq<Item>, total: int)
    ensures AvgFactualityKey !in TallyOf(items, total).counts && AvgSpamScoreKey !in TallyOf(items, total).counts
  {
    if items != [] {
      TallyNoAverageKeys(items[..|items| - 1], total);
    }
  }

  /** `total` is the number of items, raised by one for each item that recommends "total";
      `pass`, `review` and `reject` count the checked items recommending them; items without a
      check count toward `total` only. */
  lemma StatsCounts(items: seq<Item>)
    ensures "total" in TallyOf(items, |items|).counts &&
            TallyOf(items, |items|).counts["total"] == |items| + Count(items, CountsUnder("total"))
    ensures "pass" in TallyOf(items, |items|).counts &&
            TallyOf(items, |items|).counts["pass"] == Count(items, CountsUnder("pass"))
    ensures "review" in TallyOf(items, |items|).counts &&
            TallyOf(items, |items|).counts["review"] == Count(items, CountsUnder("review"))
    ensures "reject" in TallyOf(items, |items|).counts &&
            TallyOf(items, |items|).counts["reject"] == Count(items, CountsUnder("reject"))
  {
    var n := |items|;
    InitialCountsAt(n);
    TallyKeys(items, n, "total");
    TallyKeys(items, n, "pass");
    TallyKeys(items, n, "review");
    TallyKeys(items, n, "reject");
    TallyCounts(items, n, "total");
    TallyCounts(items, n, "pass");
    TallyCounts(items, n, "review");
    TallyCounts(items, n, "reject");
  }

  /** When every check recommends pass, review or reject, `total` is the number of items, no
      counter exists besides the four, and the three counts add up to the number of checked
      items. */
  lemma StatsCountsClosed(items: seq<Item>)
    requires forall x :: x in items && x.qualityCheck.Some? ==> Known(RecKey(x.qualityCheck.value))
    ensures forall key :: key in TallyOf(items, |items|).counts ==> key == "total" || Known(key)
    ensures Get(TallyOf(items, |items|).counts, "total") == |items|
    ensures Get(TallyOf(items, |items|).counts, "pass") + Get(TallyOf(items, |items|).counts, "review") +
            Get(TallyOf(items, |items|).counts, "reject") == Count(items, (x: Item) => x.qualityCheck.Some?)
  {
    StatsCounts(items);
    CountNone(items, CountsUnder("total"));
    TallyClosedKeys(items);
    CountThree(items);
  }

  lemma TallyClosedKeys(items: seq<Item>)
    requires forall x :: x in items && x.qualityCheck.Some? ==> Known(RecKey(x.qualityCheck.value))
    ensures forall key :: key in TallyOf(items, |items|).counts ==> key == "total" || Known(key)
  {
    var n := |items|;
    TallyNoAverageKeys(items, n);
    forall key | key in TallyOf(items, n).counts ensures key == "total" || Known(key)
    {
      TallyKeys(items, n, key);
    }
  }

  /** No element satisfies `p`, so none is counted. */
  lemma {:induction false} CountNone<T>(s: seq<T>, p: T -> bool)
    requires forall x :: x in s ==> !p(x)
    ensures Count(s, p) == 0
  {
    if s != [] {
      CountNone(s[..|s| - 1], p);
      assert s == s[..|s| - 1] + [s[|s| - 1]];
      CountAppend(s[..|s| - 1], [s[|s| - 1]], p);
    }
  }

  /** When every check recommends pass, review or reject, the three counts split the checked
      items. */
  lemma {:induction false} CountThree(items: seq<Item>)
    requires forall x :: x in items && x.qualityCheck.Some? ==> Known(RecKey(x.qualityCheck.value))
    ensures Count(items, CountsUnder("pass")) + Count(items, CountsUnder("review")) + Count(items, CountsUnder("reject")) ==
            Count(items, (x: Item) => x.qualityCheck.Some?)
  {
    if items != [] {
      var init := items[..|items| - 1];
      var x := items[|items| - 1];
      CountThree(init);
      assert items == init + [x];
      CountAppend(init, [x], CountsUnder("pass"));
      CountAppend(init, [x], CountsUnder("review"));
      CountAppend(init, [x], CountsUnder("reject"));
      CountAppend(init, [x], (x: Item) => x.qualityCheck.Some?);
    }
  }

  /** A single item recommending "total" makes `total` 2. */
  lemma TotalRecommendationRaisesTotal(item: Item)
    requires item.qualityCheck.Some? && item.qualityCheck.value.recommendation == Some("total")
    ensures QualityStats([item]).counts["total"] == 2
  {
    StatsCounts([item]);
    CountAppend([], [item], CountsUnder("total"));
  }
}
