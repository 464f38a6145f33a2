/** The feedback history and learned weights kept in workflow static data
    (`scripts/feedback-storage.js`). */
module FeedbackStorage {
  import opened Common

  const MaxFeedbackHistory := 500
  const FeedbackExpiryDays := 30
  /** FEEDBACK_EXPIRY_DAYS (30 days) in milliseconds. */
  const ExpiryMs := 2592000000
  /** Seven days in milliseconds. */
  const WeekMs := 604800000

  // ------------------------------------------------------------------
  // Data model
  // ------------------------------------------------------------------

  /** An article of a feedback record; a missing string is "". */
  datatype Article = Article(url: string, title: string, source: string, category: string)

  /** A feedback record. A field its writer does not set is None; the random `feedbackId`
      is not modelled. */
  datatype Record = Record(timestamp: int, userId: string, action: string, tweetOption: Option<string>,
                           sourceArticles: seq<Article>, tweetText: Option<string>,
                           threadTs: Option<string>, commandTs: Option<string>)

  datatype WeightStats = WeightStats(samples: nat, categories: nat, sources: nat)

  /** Learned weights. A `version` or `updatedAt` of 0 stands for a missing (falsy) value. */
  datatype Weights = Weights(version: int, updatedAt: int, categoryBoosts: map<string, real>,
                             sourceBoosts: map<string, real>, stats: Option<WeightStats>)

  /** The weights `initStorage` creates. */
  const InitialWeights := Weights(1, 0, map[], map[], None)

  /** What `getLearnedWeights` reports when nothing is stored. */
  const NoWeights := Weights(0, 0, map[], map[], None)

  /** Workflow static data as the feedback modules use it; None is a missing field. */
  class StaticData {
    var feedbackHistory: Option<seq<Record>>
    var learnedWeights: Option<Weights>

    constructor (history: Option<seq<Record>>, weights: Option<Weights>)
      ensures feedbackHistory == history && learnedWeights == weights
    {
      feedbackHistory := history;
      learnedWeights := weights;
    }
  }

  function OrDefault<T>(o: Option<T>, d: T): T
  {
    if o.Some? then o.value else d
  }

  // ------------------------------------------------------------------
  // initStorage
  // ------------------------------------------------------------------

  /** Fills in the missing fields and leaves present ones alone, so a second call changes
      nothing. */
  method InitStorage(sd: StaticData)
    modifies sd
    ensures old(sd.feedbackHistory).Some? ==> sd.feedbackHistory == old(sd.feedbackHistory)
    ensures old(sd.feedbackHistory).None? ==> sd.feedbackHistory == Some([])
    ensures old(sd.learnedWeights).Some? ==> sd.learnedWeights == old(sd.learnedWeights)
    ensures old(sd.learnedWeights).None? ==> sd.learnedWeights == Some(InitialWeights)
  {
    if sd.feedbackHistory.None? {
      sd.feedbackHistory := Some([]);
    }
    if sd.learnedWeights.None? {
      sd.learnedWeights := Some(InitialWeights);
    }
  }

  // ------------------------------------------------------------------
  // Expiry and the history cap
  // ------------------------------------------------------------------

  /** The records younger than the expiry, in order. */
  function Unexpired(h: seq<Record>, now: int): (r: seq<Record>)
    ensures |r| <= |h|
    ensures forall x :: x in r ==> x in h && now - x.timestamp < ExpiryMs
  {
    if h == [] then []
    else Unexpired(h[..|h| - 1], now) + (if now - h[|h| - 1].timestamp < ExpiryMs then [h[|h| - 1]] else [])
  }

  /** A record is kept iff it is young enough. */
  lemma {:induction false} UnexpiredIff(h: seq<Record>, now: int, x: Record)
    ensures x in Unexpired(h, now) <==> x in h && now - x.timestamp < ExpiryMs
  {
    if h != [] {
      UnexpiredIff(h[..|h| - 1], now, x);
      assert h == h[..|h| - 1] + [h[|h| - 1]];
    }
  }

  /** Filtering distributes over concatenation, so the kept records stay in order. */
  lemma {:induction false} UnexpiredAppend(a: seq<Record>, b: seq<Record>, now: int)
    ensures Unexpired(a + b, now) == Unexpired(a, now) + Unexpired(b, now)
  {
    if b != [] {
      UnexpiredAppend(a, b[..|b| - 1], now);
      assert (a + b)[..|a + b| - 1] == a + b[..|b| - 1];
    } else {
      assert a + b == a;
    }
  }

  /** `h.slice(-n)` when h is longer than n: the newest n records. */
  function KeepLast<T>(h: seq<T>, n: nat): (r: seq<T>)
    ensures |r| == Min(|h|, n)
    ensures h == h[..|h| - |r|] + r
  {
    if |h| > n then h[|h| - n..] else h
  }

  // ------------------------------------------------------------------
  // recordFeedback and cleanExpiredFeedback
  // ------------------------------------------------------------------

  /** An article as the caller passes it; `scoreCategory` is `a.score?.category`. */
  datatype ArticleIn = ArticleIn(url: string, title: string, source: string, category: string, scoreCategory: string)

  /** The argument of `recordFeedback`; a missing string is "". */
  datatype Feedback = Feedback(userId: string, action: string, tweetOption: string,
                               sourceArticles: seq<ArticleIn>, tweetText: string)

  function StoredArticle(a: ArticleIn): Article
  {
    Article(a.url, a.title, a.source,
            if a.category != "" then a.category else if a.scoreCategory != "" then a.scoreCategory else "unknown")
  }

  function StoredArticles(arts: seq<ArticleIn>): (r: seq<Article>)
    ensures |r| == |arts| && forall i :: 0 <= i < |arts| ==> r[i] == StoredArticle(arts[i])
  {
    if arts == [] then [] else StoredArticles(arts[..|arts| - 1]) + [StoredArticle(arts[|arts| - 1])]
  }

  /** The stored category is never empty: the article's own, else its score's, else "unknown". */
  lemma CategoryFallback(a: ArticleIn)
    ensures StoredArticle(a).category != ""
    ensures a.category != "" ==> StoredArticle(a).category == a.category
    ensures a.category == "" && a.scoreCategory != "" ==> StoredArticle(a).category == a.scoreCategory
  {
  }

  function NewRecord(f: Feedback, now: int): Record
  {
    Record(now, if f.userId != "" then f.userId else "unknown", f.action,
           if f.tweetOption != "" then Some(f.tweetOption) else None,
           StoredArticles(f.sourceArticles), Some(f.tweetText), None, None)
  }

  /** The history after recording `rec` at time `now`. */
  function Recorded(h: seq<Record>, rec: Record, now: int): seq<Record>
  {
    KeepLast(Unexpired(h + [rec], now), MaxFeedbackHistory)
  }

  /** After recording, the new record is the last one, at most 500 records remain, none of
      them expired, and they are the newest of the unexpired old records followed by the new one. */
  lemma RecordedShape(h: seq<Record>, rec: Record, now: int)
    requires rec.timestamp == now
    ensures var r := Recorded(h, rec, now);
            1 <= |r| <= MaxFeedbackHistory && r[|r| - 1] == rec &&
            (forall x :: x in r ==> now - x.timestamp < ExpiryMs) &&
            r[..|r| - 1] == KeepLast(Unexpired(h, now), MaxFeedbackHistory - 1)
  {
    UnexpiredSnoc(h, rec, now);
    KeepLastSnoc(Unexpired(h, now), rec, MaxFeedbackHistory);
  }

  lemma UnexpiredSnoc(h: seq<Record>, rec: Record, now: int)
    requires now - rec.timestamp < ExpiryMs
    ensures Unexpired(h + [rec], now) == Unexpired(h, now) + [rec]
  {
    assert (h + [rec])[..|h + [rec]| - 1] == h;
  }

  lemma KeepLastSnoc<T>(u: seq<T>, x: T, n: nat)
    requires n >= 1
    ensures KeepLast(u + [x], n) == KeepLast(u, n - 1) + [x]
  {
    if |u| + 1 > n {
      assert (u + [x])[|u| + 1 - n..] == u[|u| - (n - 1)..] + [x];
    }
  }

  /** Drops the expired records and reports how many went. */
  method CleanExpiredFeedback(sd: StaticData, now: int) returns (removed: int)
    requires sd.feedbackHistory.Some?
    modifies sd
    ensures sd.feedbackHistory == Some(Unexpired(old(sd.feedbackHistory).value, now))
    ensures removed == |old(sd.feedbackHistory).value| - |Unexpired(old(sd.feedbackHistory).value, now)| >= 0
    ensures sd.learnedWeights == old(sd.learnedWeights)
  {
    var before := |sd.feedbackHistory.value|;
    sd.feedbackHistory := Some(Unexpired(sd.feedbackHistory.value, now));
    removed := before - |sd.feedbackHistory.value|;
  }

  /** Appends the record, drops expired records, then keeps the newest 500. */
  method RecordFeedback(sd: StaticData, f: Feedback, now: int) returns (record: Record)
    requires sd.feedbackHistory.Some?
    modifies sd
    ensures record == NewRecord(f, now)
    ensures sd.feedbackHistory == Some(Recorded(old(sd.feedbackHistory).value, record, now))
    ensures sd.learnedWeights == old(sd.learnedWeights)
  {
    record := NewRecord(f, now);
    sd.feedbackHistory := Some(sd.feedbackHistory.value + [record]);
    var _ := CleanExpiredFeedback(sd, now);
    var h := sd.feedbackHistory.value;
    if |h| > MaxFeedbackHistory {
      sd.feedbackHistory := Some(h[|h| - MaxFeedbackHistory..]);
    }
  }

  // ------------------------------------------------------------------
  // getFeedbackStats
  // ------------------------------------------------------------------

  datatype ApprovalCount = ApprovalCount(approved: nat, ignored: nat)

  datatype FeedbackStats = FeedbackStats(total: nat, approved: nat, ignored: nat,
                                         byCategory: map<string, ApprovalCount>,
                                         bySource: map<string, ApprovalCount>,
                                         last7Days: nat, last30Days: nat)

  function CategoryOf(a: Article): string { if a.category != "" then a.category else "unknown" }

  function SourceOf(a: Article): string { if a.source != "" then a.source else "unknown" }

  /** Counts one article under its key: as approved, or as ignored for any other action. */
  function CountUnder(m: map<string, ApprovalCount>, k: string, approved: bool): map<string, ApprovalCount>
  {
    var c := if k in m then m[k] else ApprovalCount(0, 0);
    m[k := if approved then ApprovalCount(c.approved + 1, c.ignored) else ApprovalCount(c.approved, c.ignored + 1)]
  }

  function CountArticles(m: map<string, ApprovalCount>, arts: seq<Article>, approved: bool,
                         key: Article -> string): map<string, ApprovalCount>
  {
    if arts == [] then m
    else CountUnder(CountArticles(m, arts[..|arts| - 1], approved, key), key(arts[|arts| - 1]), approved)
  }

  /** The per-key counts over every article of every record. */
  function ByKey(h: seq<Record>, key: Article -> string): map<string, ApprovalCount>
  {
    if h == [] then map[]
    else CountArticles(ByKey(h[..|h| - 1], key), h[|h| - 1].sourceArticles, h[|h| - 1].action == "approved", key)
  }

  function ActionCount(h: seq<Record>, action: string): (r: nat)
    ensures r <= |h|
  {
    if h == [] then 0 else ActionCount(h[..|h| - 1], action) + (if h[|h| - 1].action == action then 1 else 0)
  }

  function YoungerCount(h: seq<Record>, now: int, span: int): (r: nat)
    ensures r <= |h|
  {
    if h == [] then 0 else YoungerCount(h[..|h| - 1], now, span) + (if now - h[|h| - 1].timestamp < span then 1 else 0)
  }

  function Stats(h: seq<Record>, now: int): FeedbackStats
  {
    FeedbackStats(|h|, ActionCount(h, "approved"), ActionCount(h, "ignored"),
                  ByKey(h, CategoryOf), ByKey(h, SourceOf), YoungerCount(h, now, WeekMs), YoungerCount(h, now, ExpiryMs))
  }

  /** The inner loop: counts a record's articles. */
  method CountRecordArticles(m: map<string, ApprovalCount>, arts: seq<Article>, approved: bool,
                             key: Article -> string)
    returns (m': map<string, ApprovalCount>)
    ensures m' == CountArticles(m, arts, approved, key)
  {
    m' := m;
    for j := 0 to |arts|
      invariant m' == CountArticles(m, arts[..j], approved, key)
    {
      assert arts[..j + 1][..j] == arts[..j];
      var k := key(arts[j]);
      if k !in m' {
        m' := m'[k := ApprovalCount(0, 0)];
      }
      if approved {
        m' := m'[k := ApprovalCount(m'[k].approved + 1, m'[k].ignored)];
      } else {
        m' := m'[k := ApprovalCount(m'[k].approved, m'[k].ignored + 1)];
      }
    }
    assert arts[..|arts|] == arts;
  }

  /** The statistics loop over the history (missing history counts as empty). */
  method GetFeedbackStats(sd: StaticData, now: int) returns (stats: FeedbackStats)
    ensures stats == Stats(OrDefault(sd.feedbackHistory, []), now)
  {
    var history := OrDefault(sd.feedbackHistory, []);
    var approved, ignored, last7, last30 := 0, 0, 0, 0;
    var byCategory: map<string, ApprovalCount> := map[];
    var bySource: map<string, ApprovalCount> := map[];
    for i := 0 to |history|
      invariant approved == ActionCount(history[..i], "approved")
      invariant ignored == ActionCount(history[..i], "ignored")
      invariant last7 == YoungerCount(history[..i], now, WeekMs)
      invariant last30 == YoungerCount(history[..i], now, ExpiryMs)
      invariant byCategory == ByKey(history[..i], CategoryOf)
      invariant bySource == ByKey(history[..i], SourceOf)
    {
      var f := history[i];
      assert history[..i + 1][..i] == history[..i];
      if f.action == "approved" {
        approved := approved + 1;
      } else if f.action == "ignored" {
        ignored := ignored + 1;
      }
      var age := now - f.timestamp;
      if age < WeekMs {
        last7 := last7 + 1;
      }
      if age < ExpiryMs {
        last30 := last30 + 1;
      }
      byCategory := CountRecordArticles(byCategory, f.sourceArticles, f.action == "approved", CategoryOf);
      bySource := CountRecordArticles(bySource, f.sourceArticles, f.action == "approved", SourceOf);
    }
    assert history[..|history|] == history;
    stats := FeedbackStats(|history|, approved, ignored, byCategory, bySource, last7, last30);
  }

  lemma {:induction false} YoungerMonotone(h: seq<Record>, now: int, s: int, t: int)
    requires s <= t
    ensures YoungerCount(h, now, s) <= YoungerCount(h, now, t)
  {
    if h != [] {
      YoungerMonotone(h[..|h| - 1], now, s, t);
    }
  }

  lemma {:induction false} ActionsDisjoint(h: seq<Record>)
    ensures ActionCount(h, "approved") + ActionCount(h, "ignored") <= |h|
  {
    if h != [] {
      ActionsDisjoint(h[..|h| - 1]);
    }
  }

  /** last7Days <= last30Days <= total, and the two exact-action counts never exceed the total. */
  lemma StatsBounds(h: seq<Record>, now: int)
    ensures var s := Stats(h, now);
            s.last7Days <= s.last30Days <= s.total && s.approved + s.ignored <= s.total
  {
    YoungerMonotone(h, now, WeekMs, ExpiryMs);
    ActionsDisjoint(h);
  }

  /** The number of articles under key k in records whose action is (or is not) "approved". */
  function KeyCount(h: seq<Record>, key: Article -> string, k: string, approved: bool): nat
  {
    if h == [] then 0
    else KeyCount(h[..|h| - 1], key, k, approved) +
         (if (h[|h| - 1].action == "approved") == approved then ArticleCount(h[|h| - 1].sourceArticles, key, k) else 0)
  }

  function ArticleCount(arts: seq<Article>, key: Article -> string, k: string): nat
  {
    if arts == [] then 0 else ArticleCount(arts[..|arts| - 1], key, k) + (if key(arts[|arts| - 1]) == k then 1 else 0)
  }

  /** Counts held for k after counting some articles, in terms of the counts before. */
  lemma {:induction false} CountArticlesAt(m: map<string, ApprovalCount>, arts: seq<Article>, approved: bool,
                                           key: Article -> string, k: string)
    ensures var m' := CountArticles(m, arts, approved, key);
            var n := ArticleCount(arts, key, k);
            var c := if k in m then m[k] else ApprovalCount(0, 0);
            (k in m' <==> k in m || n > 0) &&
            (k in m' ==> m'[k] == if approved then ApprovalCount(c.approved + n, c.ignored)
                                  else ApprovalCount(c.approved, c.ignored + n))
  {
    if arts != [] {
      CountArticlesAt(m, arts[..|arts| - 1], approved, key, k);
    }
  }

  /** The per-key tables count, for each key, exactly the articles under it: those of approved
      records as approved and those of every other action as ignored. */
  lemma {:induction false} ByKeyCounts(h: seq<Record>, key: Article -> string, k: string)
    ensures k in ByKey(h, key) <==> KeyCount(h, key, k, true) + KeyCount(h, key, k, false) > 0
    ensures k in ByKey(h, key) ==>
              ByKey(h, key)[k] == ApprovalCount(KeyCount(h, key, k, true), KeyCount(h, key, k, false))
  {
    if h != [] {
      var last := h[|h| - 1];
      ByKeyCounts(h[..|h| - 1], key, k);
      CountArticlesAt(ByKey(h[..|h| - 1], key), last.sourceArticles, last.action == "approved", key, k);
    }
  }

  // ------------------------------------------------------------------
  // saveLearnedWeights and getLearnedWeights
  // ------------------------------------------------------------------

  /** Stores the weights with the next version number (whatever version they carry) and
      `updatedAt = now`. */
  method SaveLearnedWeights(sd: StaticData, weights: Weights, now: int) returns (saved: Weights)
    modifies sd
    ensures saved.version == (if old(sd.learnedWeights).Some? then old(sd.learnedWeights).value.version else 0) + 1
    ensures saved.updatedAt == now
    ensures saved.categoryBoosts == weights.categoryBoosts && saved.sourceBoosts == weights.sourceBoosts
    ensures saved.stats == weights.stats
    ensures sd.learnedWeights == Some(saved) && sd.feedbackHistory == old(sd.feedbackHistory)
  {
    var previous := if sd.learnedWeights.Some? then sd.learnedWeights.value.version else 0;
    saved := weights.(version := previous + 1, updatedAt := now);
    sd.learnedWeights := Some(saved);
  }

  /** The stored weights, or version 0 with no boosts when none are stored. */
  function GetLearnedWeights(sd: StaticData): (w: Weights)
    reads sd
    ensures sd.learnedWeights.Some? ==> w == sd.learnedWeights.value
    ensures sd.learnedWeights.None? ==> w.version == 0 && w.updatedAt == 0 &&
                                         w.categoryBoosts == map[] && w.sourceBoosts == map[]
  {
    OrDefault(sd.learnedWeights, NoWeights)
  }
}
