/** The LLM ranking node (`scripts/llm-rank-node.js`): after the selection of `LlmSelection`,
    the selected entries are sent to the model in batches, each reply is turned into a score
    per entry (with a tier adjustment and the learned feedback boost), entries without a reply
    get an engagement estimate, and the ranked list is sorted, filtered by a minimum score and
    capped per source. The model call is the parameter `llm`; the engagement estimate
    `Math.round(Math.log1p(metric) * 6)` is the parameter `estimate`. */
module LlmRank {
  import opened Common
  import opened LlmSelection
  import FeedbackStorage
  import FeedbackLearning

  // ------------------------------------------------------------------
  // Configuration and learned weights
  // ------------------------------------------------------------------

  /** The environment settings of the node, already parsed as integers and reals. */
  datatype Config = Config(maxItems: int, batchSize: int, xRatio: Option<real>, caps: Caps,
                           minScore: int, perSourceCap: int, feedbackEnabled: bool)

  /** The defaults: 40 items, batches of 8, 40% X, caps 4/1/2, minimum score 18, 3 per source. */
  const DefaultConfig := Config(40, 8, None, Caps(4, 1, 2), 18, 3, true)

  /** `{ categoryBoosts: {}, sourceBoosts: {} }`. */
  const NoBoosts := FeedbackStorage.Weights(0, 0, map[], map[], None)

  /** The learned weights in workflow static data when feedback learning is enabled and
      they exist, otherwise no boosts at all. */
  function LoadedWeights(enabled: bool, sd: FeedbackStorage.StaticData?): (w: FeedbackStorage.Weights)
    reads sd
    ensures !enabled || sd == null || sd.learnedWeights.None? ==> w.categoryBoosts == map[] && w.sourceBoosts == map[]
    ensures enabled && sd != null && sd.learnedWeights.Some? ==> w == sd.learnedWeights.value
  {
    if enabled && sd != null && sd.learnedWeights.Some? then sd.learnedWeights.value else NoBoosts
  }

  // ------------------------------------------------------------------
  // Scores
  // ------------------------------------------------------------------

  /** One entry of the model's reply. Numbers the reply leaves out (or sets to a falsy value)
      are 0.0 and strings are ""; `kind` is the reply's `type` field. */
  datatype RawScore = RawScore(id: Option<int>, timeliness: real, freshness: real, impact: real,
                               shareworthy: real, actionability: real, practical: real,
                               relevance: real, why: string, category: string, kind: string)

  /** What one batch request gives: a failure (the request throws) or the score entries it
      parsed (none when the reply cannot be parsed). */
  datatype Reply = Failed | Replied(scores: seq<RawScore>)

  function ScoresOf(reply: Reply): seq<RawScore> { if reply.Failed? then [] else reply.scores }

  /** JavaScript `a || b` on numbers. */
  function Or(a: real, b: real): real { if a != 0.0 then a else b }

  /** The score an entry gets: from the model, or the engagement estimate when the model said
      nothing about it (timeliness, impact, actionability and relevance 0, category unknown). */
  datatype Score =
    | Scored(timeliness: real, impact: real, actionability: real, relevance: real, total: real,
             why: string, category: string, tierBoost: int, learnedBoost: real)
    | Estimated(total: real)

  /** A ranked item: the entry's data with its score. */
  datatype Ranked = Ranked(data: Item, score: Score)

  function TotalOf(r: Ranked): real { r.score.total }

  /** `TIER_BOOST[tier] || TIER_BOOST['B']`, as (impact, actionability). */
  function TierBoost(tier: string): (b: (int, int))
    ensures -2 <= b.0 <= 2 && -1 <= b.1 <= 1
    ensures tier !in {"A", "C", "D"} ==> b == (0, 0)
  {
    if tier == "A" then (2, 1)
    else if tier == "C" then (-1, -1)
    else if tier == "D" then (-2, -1)
    else (0, 0)
  }

  function SourceOf(r: Ranked): string { OrText(r.data.source, "unknown") }

  /** The score of an entry the model answered for. */
  function ScoreEntry(e: Entry, s: RawScore, w: FeedbackStorage.Weights): Score
  {
    var (bi, ba) := TierBoost(e.data.tier);
    var timeliness := Or(s.timeliness, s.freshness);
    var impact := ClampReal(Or(s.impact, s.shareworthy) + bi as real, 0.0, 9.0);
    var action := ClampReal(Or(s.actionability, s.practical) + ba as real, 0.0, 7.0);
    var category := OrText(OrText(s.category, s.kind), "unknown");
    var learned := FeedbackLearning.GetScoreAdjustment(w, category, OrText(e.data.source, "unknown"));
    Scored(timeliness, impact, action, s.relevance,
           ClampReal(timeliness + impact + action + s.relevance + learned, 0.0, 30.0),
           s.why, category, bi + ba, learned)
  }

  /** The tier-adjusted impact lies in [0, 9], actionability in [0, 7] and the total in [0, 30];
      each is the plain sum when that sum is already in range; the learned boost is the
      category's plus the source's, and is 0 when neither has a weight. */
  lemma ScoreEntryShape(e: Entry, s: RawScore, w: FeedbackStorage.Weights)
    ensures var sc := ScoreEntry(e, s, w);
            var (bi, ba) := TierBoost(e.data.tier);
            var rawImpact := Or(s.impact, s.shareworthy) + bi as real;
            var rawAction := Or(s.actionability, s.practical) + ba as real;
            var sum := sc.timeliness + sc.impact + sc.actionability + sc.relevance + sc.learnedBoost;
            sc.Scored? &&
            0.0 <= sc.impact <= 9.0 && (0.0 <= rawImpact <= 9.0 ==> sc.impact == rawImpact) &&
            0.0 <= sc.actionability <= 7.0 && (0.0 <= rawAction <= 7.0 ==> sc.actionability == rawAction) &&
            0.0 <= sc.total <= 30.0 && (0.0 <= sum <= 30.0 ==> sc.total == sum) &&
            (sum < 0.0 ==> sc.total == 0.0) && (sum > 30.0 ==> sc.total == 30.0) &&
            sc.tierBoost == bi + ba &&
            sc.timeliness == (if s.timeliness != 0.0 then s.timeliness else s.freshness) &&
            sc.category != "" &&
            (sc.category !in w.categoryBoosts && OrText(e.data.source, "unknown") !in w.sourceBoosts ==>
               sc.learnedBoost == 0.0)
  {
  }

  /** The fallback score: `min(30, estimate)`. */
  function EstimateEntry(e: Entry, estimate: real -> int): (sc: Score)
    ensures sc.Estimated? && sc.total <= 30.0
  {
    Estimated(Min(30, estimate(e.metricScore)) as real)
  }

  // ------------------------------------------------------------------
  // One batch
  // ------------------------------------------------------------------

  /** The reply's scores by numeric id; an entry without an id is skipped and a later entry
      with the same id replaces an earlier one. */
  function ScoreMap(scores: seq<RawScore>): map<int, RawScore>
  {
    if scores == [] then map[]
    else
      var last := scores[|scores| - 1];
      var m := ScoreMap(scores[..|scores| - 1]);
      if last.id.Some? then m[last.id.value := last] else m
  }

  /** An id is in the map exactly when some score carries it, and it maps to the last such score. */
  lemma {:induction false} ScoreMapLatest(scores: seq<RawScore>, k: int)
    ensures k in ScoreMap(scores) <==> exists i :: 0 <= i < |scores| && scores[i].id == Some(k)
    ensures forall i :: 0 <= i < |scores| && scores[i].id == Some(k) &&
                        (forall j :: i < j < |scores| ==> scores[j].id != Some(k)) ==>
                        k in ScoreMap(scores) && ScoreMap(scores)[k] == scores[i]
  {
    if scores != [] {
      var init := scores[..|scores| - 1];
      ScoreMapLatest(init, k);
      assert forall i :: 0 <= i < |init| ==> init[i] == scores[i];
      if k !in ScoreMap(scores) {
        assert forall i :: 0 <= i < |scores| ==> scores[i].id != Some(k);
      }
    }
  }

  /** `scoreMap`: `batchScores.forEach(score => scoreMap.set(Number(score.id), score))`. */
  method BuildScoreMap(scores: seq<RawScore>) returns (m: map<int, RawScore>)
    ensures m == ScoreMap(scores)
  {
    m := map[];
    for i := 0 to |scores|
      invariant m == ScoreMap(scores[..i])
    {
      assert scores[..i + 1][..i] == scores[..i];
      if scores[i].id.Some? {
        m := m[scores[i].id.value := scores[i]];
      }
    }
    assert scores[..|scores|] == scores;
  }

  function RankEntry(e: Entry, sm: map<int, RawScore>, w: FeedbackStorage.Weights, estimate: real -> int): Ranked
  {
    if e.index in sm then Ranked(e.data, ScoreEntry(e, sm[e.index], w))
    else Ranked(e.data, EstimateEntry(e, estimate))
  }

  /** The ranked items of one batch, in batch order. */
  function RankGroup(group: seq<Entry>, sm: map<int, RawScore>, w: FeedbackStorage.Weights,
                     estimate: real -> int): seq<Ranked>
  {
    seq(|group|, i requires 0 <= i < |group| => RankEntry(group[i], sm, w, estimate))
  }

  /** `group.forEach(entry => rankedItems.push(...))`, onto the items ranked so far. */
  method PushGroup(ranked: seq<Ranked>, group: seq<Entry>, sm: map<int, RawScore>,
                   w: FeedbackStorage.Weights, estimate: real -> int) returns (out: seq<Ranked>)
    ensures out == ranked + RankGroup(group, sm, w, estimate)
  {
    out := ranked;
    for j := 0 to |group|
      invariant |out| == |ranked| + j && out[..|ranked|] == ranked
      invariant forall i :: 0 <= i < j ==> out[|ranked| + i] == RankEntry(group[i], sm, w, estimate)
    {
      out := out + [RankEntry(group[j], sm, w, estimate)];
    }
    assert out[|ranked|..] == RankGroup(group, sm, w, estimate);
    assert out == out[..|ranked|] + out[|ranked|..];
  }

  // ------------------------------------------------------------------
  // All batches
  // ------------------------------------------------------------------

  function GroupReply(group: seq<Entry>, llm: seq<Entry> -> Reply, w: FeedbackStorage.Weights,
                      estimate: real -> int): seq<Ranked>
  {
    RankGroup(group, ScoreMap(ScoresOf(llm(group))), w, estimate)
  }

  /** `rankedItems`: every batch's items, batch after batch. */
  function RankAll(bs: seq<seq<Entry>>, llm: seq<Entry> -> Reply, w: FeedbackStorage.Weights,
                   estimate: real -> int): seq<Ranked>
  {
    if bs == [] then []
    else RankAll(bs[..|bs| - 1], llm, w, estimate) + GroupReply(bs[|bs| - 1], llm, w, estimate)
  }

  /** `failedBatches`: the batches whose request failed. */
  function FailedCount(bs: seq<seq<Entry>>, llm: seq<Entry> -> Reply): (n: nat)
    ensures n <= |bs|
  {
    if bs == [] then 0
    else FailedCount(bs[..|bs| - 1], llm) + (if llm(bs[|bs| - 1]).Failed? then 1 else 0)
  }

  /** All batches failed exactly when the failure count reaches the number of batches. */
  lemma {:induction false} FailedCountAll(bs: seq<seq<Entry>>, llm: seq<Entry> -> Reply)
    ensures FailedCount(bs, llm) == |bs| <==> forall k :: 0 <= k < |bs| ==> llm(bs[k]).Failed?
  {
    if bs != [] {
      var init := bs[..|bs| - 1];
      FailedCountAll(init, llm);
      assert forall k :: 0 <= k < |init| ==> init[k] == bs[k];
    }
  }

  /** One ranked item per selected entry, in selection order, carrying that entry's data. */
  lemma {:induction false} RankAllAligned(bs: seq<seq<Entry>>, llm: seq<Entry> -> Reply,
                                          w: FeedbackStorage.Weights, estimate: real -> int)
    ensures |RankAll(bs, llm, w, estimate)| == |Flatten(bs)|
    ensures forall i :: 0 <= i < |Flatten(bs)| ==> RankAll(bs, llm, w, estimate)[i].data == Flatten(bs)[i].data
  {
    if bs != [] {
      var init := bs[..|bs| - 1];
      var last := bs[|bs| - 1];
      RankAllAligned(init, llm, w, estimate);
      assert init + [last] == bs;
      FlattenSnoc(init, last);
      var a: seq<Ranked> := RankAll(init, llm, w, estimate);
      var g: seq<Ranked> := GroupReply(last, llm, w, estimate);
      forall i | 0 <= i < |Flatten(bs)|
        ensures (a + g)[i].data == Flatten(bs)[i].data
      {
        if i >= |a| {
          assert (a + g)[i] == g[i - |a|];
          assert Flatten(bs)[i] == last[i - |a|];
        }
      }
    }
  }

  /** The batch loop: one request per batch, counting the failed ones. */
  method RankBatches(bs: seq<seq<Entry>>, llm: seq<Entry> -> Reply, w: FeedbackStorage.Weights,
                     estimate: real -> int) returns (ranked: seq<Ranked>, failed: nat)
    ensures ranked == RankAll(bs, llm, w, estimate)
    ensures failed == FailedCount(bs, llm)
  {
    ranked := [];
    failed := 0;
    for k := 0 to |bs|
      invariant ranked == RankAll(bs[..k], llm, w, estimate)
      invariant failed == FailedCount(bs[..k], llm)
    {
      assert bs[..k + 1][..k] == bs[..k];
      var group := bs[k];
      var reply := llm(group);
      var batchScores: seq<RawScore> := [];
      if reply.Failed? {
        failed := failed + 1;
      } else {
        batchScores := reply.scores;
      }
      var sm := BuildScoreMap(batchScores);
      ranked := PushGroup(ranked, group, sm, w, estimate);
    }
    assert bs[..|bs|] == bs;
  }

  // ------------------------------------------------------------------
  // Filters after ranking
  // ------------------------------------------------------------------

  /** `Math.ceil(n / size)`. */
  function CeilDiv(n: nat, size: nat): nat
    requires size >= 1
  {
    (n + size - 1) / size
  }

  /** The failure threshold `Math.ceil(selected.length / size)` is the number of batches. */
  lemma BatchCount<T>(arr: seq<T>, size: nat)
    requires size >= 1
    ensures |Batches(arr, size)| == CeilDiv(|arr|, size)
  {
    CeilDivUnique(|arr|, size, |Batches(arr, size)|);
  }

  /** The only `b` with `n <= b * size < n + size` is `ceil(n / size)`. */
  lemma CeilDivUnique(n: nat, size: nat, b: nat)
    requires size >= 1
    requires n <= b * size < n + size
    ensures b == CeilDiv(n, size)
  {
    var q := CeilDiv(n, size);
    var r := (n + size - 1) % size;
    assert n + size - 1 == q * size + r && 0 <= r < size;
    assert (q + 1) * size == q * size + size;
    assert (b + 1) * size == b * size + size;
    if b > q {
      MulMono(q + 1, b, size);
    } else if b < q {
      MulMono(b + 1, q, size);
    }
  }

  lemma MulMono(a: int, c: int, k: nat)
    requires a <= c
    ensures a * k <= c * k
  {
  }

  /** `rankedItems.filter(item => item.score.total >= minScoreThreshold)`. */
  function AboveThreshold(s: seq<Ranked>, th: int): (r: seq<Ranked>)
    ensures |r| <= |s|
    ensures forall x :: x in r ==> x in s && TotalOf(x) >= th as real
  {
    if s == [] then []
    else (if TotalOf(s[0]) >= th as real then [s[0]] else []) + AboveThreshold(s[1..], th)
  }

  /** On a list sorted by total, the threshold keeps a prefix: everything from the first
      total below the threshold on is dropped. */
  lemma {:induction false} ThresholdPrefix(s: seq<Ranked>, th: int)
    requires SortedDesc(s, TotalOf)
    ensures AboveThreshold(s, th) == s[..|AboveThreshold(s, th)|]
    ensures forall i :: |AboveThreshold(s, th)| <= i < |s| ==> TotalOf(s[i]) < th as real
  {
    if s != [] {
      SortedTail(s, TotalOf);
      ThresholdPrefix(s[1..], th);
      if TotalOf(s[0]) >= th as real {
        ThresholdKeepHead(s, th);
      } else {
        ThresholdDropAll(s, th);
      }
    }
  }

  lemma ThresholdKeepHead(s: seq<Ranked>, th: int)
    requires s != [] && TotalOf(s[0]) >= th as real
    requires AboveThreshold(s[1..], th) == s[1..][..|AboveThreshold(s[1..], th)|]
    requires forall i :: |AboveThreshold(s[1..], th)| <= i < |s| - 1 ==> TotalOf(s[1..][i]) < th as real
    ensures AboveThreshold(s, th) == s[..|AboveThreshold(s, th)|]
    ensures forall i :: |AboveThreshold(s, th)| <= i < |s| ==> TotalOf(s[i]) < th as real
  {
    var tail := s[1..];
    var rt := AboveThreshold(tail, th);
    assert AboveThreshold(s, th) == [s[0]] + rt;
    assert s[..|rt| + 1] == [s[0]] + tail[..|rt|];
    forall i | |rt| + 1 <= i < |s| ensures TotalOf(s[i]) < th as real {
      assert s[i] == tail[i - 1];
    }
  }

  lemma ThresholdDropAll(s: seq<Ranked>, th: int)
    requires SortedDesc(s, TotalOf) && s != [] && TotalOf(s[0]) < th as real
    ensures AboveThreshold(s, th) == []
    ensures forall i :: 0 <= i < |s| ==> TotalOf(s[i]) < th as real
  {
    forall i | 0 <= i < |s| ensures TotalOf(s[i]) < th as real {
      assert i == 0 || TotalOf(s[0]) >= TotalOf(s[i]);
    }
    assert forall x :: x in s ==> TotalOf(x) < th as real;
  }

  /** The items of one source (`json.source || 'unknown'`), in order. */
  function OfSource(s: seq<Ranked>, x: string): seq<Ranked>
  {
    if s == [] then []
    else OfSource(s[..|s| - 1], x) + (if SourceOf(s[|s| - 1]) == x then [s[|s| - 1]] else [])
  }

  lemma OfSourceSnoc(s: seq<Ranked>, r: Ranked, x: string)
    ensures OfSource(s + [r], x) == OfSource(s, x) + (if SourceOf(r) == x then [r] else [])
  {
    assert (s + [r])[..|s|] == s;
  }

  /** The per-source cap: an item is kept while fewer than `cap` items of its source have been
      kept before it. */
  function CapSources(s: seq<Ranked>, cap: int): seq<Ranked>
  {
    if s == [] then []
    else
      var kept := CapSources(s[..|s| - 1], cap);
      if |OfSource(kept, SourceOf(s[|s| - 1]))| >= cap then kept else kept + [s[|s| - 1]]
  }

  /** The cap keeps exactly the first `max(cap, 0)` items of every source. */
  lemma {:induction false} CapSourcesPerSource(s: seq<Ranked>, cap: int, x: string)
    ensures var o := OfSource(s, x);
            OfSource(CapSources(s, cap), x) == o[..Min(Max(cap, 0), |o|)]
  {
    if s != [] {
      var init := s[..|s| - 1];
      var last := s[|s| - 1];
      var kept := CapSources(init, cap);
      CapSourcesPerSource(init, cap, x);
      OfSourceSnoc(kept, last, x);
      var oi := OfSource(init, x);
      if SourceOf(last) == x {
        CapSourcesPerSource(init, cap, SourceOf(last));
        assert OfSource(s, x) == oi + [last];
        if Max(cap, 0) <= |oi| {
          assert (oi + [last])[..Max(cap, 0)] == oi[..Max(cap, 0)];
        } else {
          assert (oi + [last])[..|oi| + 1] == oi + [last];
        }
      } else {
        assert OfSource(s, x) == oi;
        if |OfSource(kept, SourceOf(last))| < cap {
          assert OfSource(kept + [last], x) == OfSource(kept, x);
        }
      }
    }
  }

  /** Everything the cap keeps comes from its input, and a list sorted by total stays sorted. */
  lemma {:induction false} CapSourcesSorted(s: seq<Ranked>, cap: int)
    ensures forall r :: r in CapSources(s, cap) ==> r in s
    ensures SortedDesc(s, TotalOf) ==> SortedDesc(CapSources(s, cap), TotalOf)
  {
    if s != [] {
      var init := s[..|s| - 1];
      var last := s[|s| - 1];
      CapSourcesSorted(init, cap);
      var kept := CapSources(init, cap);
      if SortedDesc(s, TotalOf) {
        assert SortedDesc(init, TotalOf);
        forall i | 0 <= i < |kept|
          ensures TotalOf(kept[i]) >= TotalOf(last)
        {
          assert kept[i] in init;
        }
      }
    }
  }

  /** `filteredBySourceCap`, with the count per source kept in a map. */
  method CapPerSource(s: seq<Ranked>, cap: int) returns (kept: seq<Ranked>)
    ensures kept == CapSources(s, cap)
  {
    var counts: map<string, nat> := map[];
    kept := [];
    for i := 0 to |s|
      invariant kept == CapSources(s[..i], cap)
      invariant forall x :: x in counts ==> counts[x] == |OfSource(kept, x)|
      invariant forall x :: x !in counts ==> |OfSource(kept, x)| == 0
    {
      assert s[..i + 1][..i] == s[..i];
      var source := SourceOf(s[i]);
      var count := if source in counts then counts[source] else 0;
      if count >= cap {
        continue;
      }
      forall x
        ensures OfSource(kept + [s[i]], x) == OfSource(kept, x) + (if source == x then [s[i]] else [])
      {
        OfSourceSnoc(kept, s[i], x);
      }
      counts := counts[source := count + 1];
      kept := kept + [s[i]];
    }
    assert s[..|s|] == s;
  }

  // ------------------------------------------------------------------
  // The node
  // ------------------------------------------------------------------

  /** `rankedItems` sorted by total, then the score filter, then the per-source cap. */
  function ByScore(ranked: seq<Ranked>, minScore: int): seq<Ranked>
  {
    AboveThreshold(SortDesc(ranked, TotalOf), minScore)
  }

  /** The final list is sorted by total, scores at least the threshold, comes from the ranked
      items, and holds the best-ranked `max(cap, 0)` items of each source that passed. */
  lemma FinishShape(ranked: seq<Ranked>, minScore: int, cap: int)
    ensures var byScore := ByScore(ranked, minScore);
            var out := CapSources(byScore, cap);
            SortedDesc(out, TotalOf) && |out| <= |byScore| <= |ranked| &&
            (forall x :: x in out ==> TotalOf(x) >= minScore as real && x in ranked) &&
            (forall s :: OfSource(out, s) == OfSource(byScore, s)[..Min(Max(cap, 0), |OfSource(byScore, s)|)])
  {
    var sorted := SortDesc(ranked, TotalOf);
    var byScore := ByScore(ranked, minScore);
    ThresholdPrefix(sorted, minScore);
    assert SortedDesc(byScore, TotalOf);
    CapSourcesSorted(byScore, cap);
    CapSourcesLength(byScore, cap);
    forall s
      ensures OfSource(CapSources(byScore, cap), s) == OfSource(byScore, s)[..Min(Max(cap, 0), |OfSource(byScore, s)|)]
    {
      CapSourcesPerSource(byScore, cap, s);
    }
    forall x | x in CapSources(byScore, cap)
      ensures x in ranked
    {
      assert x in multiset(sorted);
    }
  }

  lemma {:induction false} CapSourcesLength(s: seq<Ranked>, cap: int)
    ensures |CapSources(s, cap)| <= |s|
  {
    if s != [] {
      CapSourcesLength(s[..|s| - 1], cap);
    }
  }

  /** The counts the node logs. */
  datatype Stats = Stats(inputCount: nat, selectedForRanking: nat, afterLlmRanking: nat,
                         afterScoreFilter: nat, afterSourceCap: nat, minScoreThreshold: int,
                         perSourceCap: int, filteredLowScore: int, filteredSourceCap: int)

  /** The node's outcome: one of its two errors, or the items it returns with its statistics. */
  datatype Outcome =
    | MissingApiKey
    | AllBatchesFailed(failed: nat, batches: nat)
    | Output(items: seq<Ranked>, stats: Stats)

  function BatchSize(cfg: Config): nat { Max(1, cfg.batchSize) }

  /** Ranking of the selected entries (`inputCount` input items in all), from the batch loop on. */
  function RankSelected(selected: seq<Entry>, inputCount: nat, cfg: Config, w: FeedbackStorage.Weights,
                        llm: seq<Entry> -> Reply, estimate: real -> int): Outcome
  {
    var bs := Batches(selected, BatchSize(cfg));
    var ranked := RankAll(bs, llm, w, estimate);
    var failed := FailedCount(bs, llm);
    if failed >= CeilDiv(|selected|, BatchSize(cfg)) then AllBatchesFailed(failed, CeilDiv(|selected|, BatchSize(cfg)))
    else
      var byScore := ByScore(ranked, cfg.minScore);
      var out := CapSources(byScore, cfg.perSourceCap);
      Output(out, Stats(inputCount, |selected|, |ranked|, |byScore|, |out|, cfg.minScore, cfg.perSourceCap,
                        |ranked| - |byScore|, |byScore| - |out|))
  }

  /** What the node does to its input items, given its weights, the model and the estimate. */
  function Rank(items: seq<Item>, cfg: Config, apiKey: string, w: FeedbackStorage.Weights,
                llm: seq<Entry> -> Reply, estimate: real -> int): Outcome
  {
    if apiKey == "" then MissingApiKey
    else RankSelected(Selection(items, cfg.maxItems, cfg.xRatio, cfg.caps), |items|, cfg, w, llm, estimate)
  }

  /** Ranking fails exactly when every batch failed; an empty selection has no batches and so
      fails too. */
  lemma RankSelectedFails(selected: seq<Entry>, inputCount: nat, cfg: Config, w: FeedbackStorage.Weights,
                          llm: seq<Entry> -> Reply, estimate: real -> int)
    ensures var bs := Batches(selected, BatchSize(cfg));
            var r := RankSelected(selected, inputCount, cfg, w, llm, estimate);
            (r.Output? <==> exists k :: 0 <= k < |bs| && llm(bs[k]).Replied?) &&
            (selected == [] ==> r.AllBatchesFailed?)
  {
    var bs := Batches(selected, BatchSize(cfg));
    BatchCount(selected, BatchSize(cfg));
    FailedCountAll(bs, llm);
    if selected == [] {
      assert |bs| * BatchSize(cfg) < BatchSize(cfg);
    }
  }

  /** What the ranking returns is sorted by total, scores at least the threshold, holds the
      best-ranked `max(perSourceCap, 0)` items of each source and nothing from elsewhere;
      `after_llm_ranking` equals the number selected and the filter counts are differences. */
  lemma RankSelectedOutput(selected: seq<Entry>, inputCount: nat, cfg: Config, w: FeedbackStorage.Weights,
                           llm: seq<Entry> -> Reply, estimate: real -> int)
    requires RankSelected(selected, inputCount, cfg, w, llm, estimate).Output?
    ensures var r := RankSelected(selected, inputCount, cfg, w, llm, estimate);
            var ranked := RankAll(Batches(selected, BatchSize(cfg)), llm, w, estimate);
            var byScore := ByScore(ranked, cfg.minScore);
            SortedDesc(r.items, TotalOf) &&
            (forall x :: x in r.items ==> TotalOf(x) >= cfg.minScore as real && x in ranked) &&
            (forall s :: OfSource(r.items, s) == OfSource(byScore, s)[..Min(Max(cfg.perSourceCap, 0), |OfSource(byScore, s)|)]) &&
            r.stats.afterLlmRanking == r.stats.selectedForRanking == |selected| &&
            r.stats.afterSourceCap == |r.items| &&
            0 <= r.stats.filteredLowScore == r.stats.afterLlmRanking - r.stats.afterScoreFilter &&
            0 <= r.stats.filteredSourceCap == r.stats.afterScoreFilter - r.stats.afterSourceCap
  {
    var bs := Batches(selected, BatchSize(cfg));
    RankAllAligned(bs, llm, w, estimate);
    FinishShape(RankAll(bs, llm, w, estimate), cfg.minScore, cfg.perSourceCap);
  }

  /** The node fails on a missing API key and when every batch failed. */
  lemma RankFails(items: seq<Item>, cfg: Config, apiKey: string, w: FeedbackStorage.Weights,
                  llm: seq<Entry> -> Reply, estimate: real -> int)
    ensures var bs := Batches(Selection(items, cfg.maxItems, cfg.xRatio, cfg.caps), BatchSize(cfg));
            var r := Rank(items, cfg, apiKey, w, llm, estimate);
            (r.MissingApiKey? <==> apiKey == "") &&
            (r.Output? <==> apiKey != "" && exists k :: 0 <= k < |bs| && llm(bs[k]).Replied?)
  {
    var selected := Selection(items, cfg.maxItems, cfg.xRatio, cfg.caps);
    RankSelectedFails(selected, |items|, cfg, w, llm, estimate);
  }

  /** With no input items the node never returns items. */
  lemma RankNoItems(cfg: Config, apiKey: string, w: FeedbackStorage.Weights,
                    llm: seq<Entry> -> Reply, estimate: real -> int)
    ensures !Rank([], cfg, apiKey, w, llm, estimate).Output?
  {
    SelectionSize([], cfg.maxItems, cfg.xRatio, cfg.caps);
    RankSelectedFails(Selection([], cfg.maxItems, cfg.xRatio, cfg.caps), 0, cfg, w, llm, estimate);
  }

  /** When the node returns items, it ranked `min(maxItemsSafe, n)` entries of its `n` inputs. */
  lemma RankCounts(items: seq<Item>, cfg: Config, apiKey: string, w: FeedbackStorage.Weights,
                   llm: seq<Entry> -> Reply, estimate: real -> int)
    requires Rank(items, cfg, apiKey, w, llm, estimate).Output?
    ensures var r := Rank(items, cfg, apiKey, w, llm, estimate);
            r.stats.inputCount == |items| &&
            r.stats.afterLlmRanking == r.stats.selectedForRanking == Min(SafeMax(items, cfg.maxItems), |items|)
  {
    var selected := Selection(items, cfg.maxItems, cfg.xRatio, cfg.caps);
    SelectionSize(items, cfg.maxItems, cfg.xRatio, cfg.caps);
    RankSelectedOutput(selected, |items|, cfg, w, llm, estimate);
  }

  /** Sorts the ranked items by total, drops those under the threshold and caps each source. */
  method FilterRanked(ranked: seq<Ranked>, minScore: int, cap: int) returns (byScore: seq<Ranked>, out: seq<Ranked>)
    ensures byScore == ByScore(ranked, minScore)
    ensures out == CapSources(byScore, cap)
  {
    var sorted := SortDesc(ranked, TotalOf);
    byScore := AboveThreshold(sorted, minScore);
    out := CapPerSource(byScore, cap);
  }

  /** From the batch loop on: ranks batch by batch, gives up when every batch failed, then
      sorts, filters by score and caps per source. */
  method RankSelectedNode(selected: seq<Entry>, inputCount: nat, cfg: Config, w: FeedbackStorage.Weights,
                          llm: seq<Entry> -> Reply, estimate: real -> int) returns (r: Outcome)
    ensures r == RankSelected(selected, inputCount, cfg, w, llm, estimate)
  {
    var size := BatchSize(cfg);
    var bs := Chunk(selected, size);
    var ranked, failed := RankBatches(bs, llm, w, estimate);
    if failed >= CeilDiv(|selected|, size) {
      return AllBatchesFailed(failed, CeilDiv(|selected|, size));
    }
    var byScore, out := FilterRanked(ranked, cfg.minScore, cfg.perSourceCap);
    r := Output(out, Stats(inputCount, |selected|, |ranked|, |byScore|, |out|, cfg.minScore, cfg.perSourceCap,
                           |ranked| - |byScore|, |byScore| - |out|));
  }

  /** The node: loads the learned weights, checks the API key, selects the entries to rank and
      ranks them. */
  method LlmRankNode(items: seq<Item>, cfg: Config, apiKey: string, sd: FeedbackStorage.StaticData?,
                     llm: seq<Entry> -> Reply, estimate: real -> int) returns (r: Outcome)
    ensures r == Rank(items, cfg, apiKey, LoadedWeights(cfg.feedbackEnabled, sd), llm, estimate)
  {
    var w := LoadedWeights(cfg.feedbackEnabled, sd);
    if apiKey == "" {
      return MissingApiKey;
    }
    var (xQuota, rssQuota) := QuotaPair(items, cfg.maxItems, cfg.xRatio);
    var xSelected := SelectX(XSorted(items), xQuota, cfg.caps);
    var selected := xSelected + SliceTo(RssSorted(items), rssQuota);
    assert selected == Selection(items, cfg.maxItems, cfg.xRatio, cfg.caps);
    r := RankSelectedNode(selected, |items|, cfg, w, llm, estimate);
  }
}
