/** The tweet generation node (`scripts/tweet-gen-node.js`): pipeline statistics over the ranked
    candidates, the choice of up to ten non-Twitter sources, and the checks applied to the three
    drafts the model writes (a URL at the end, the tone guard and the 280-character limit). The
    model's reply is the parameter `llm`; the generation time is left out. */
module TweetGen {
  import opened Common

  /** The fields of a ranked candidate the node reads; a missing string is "" and a missing
      total is 0.0. */
  datatype Candidate = Candidate(source: string, sourceType: string, tier: string, url: string,
                                 link: string, title: string, snippet: string, total: real,
                                 category: string)

  // ------------------------------------------------------------------
  // Pipeline statistics
  // ------------------------------------------------------------------

  function SourceTypeKey(c: Candidate): string { OrText(c.sourceType, "RSS") }
  function TierKey(c: Candidate): string { OrText(c.tier, "unknown") }
  function CategoryKey(c: Candidate): string { OrText(c.category, "unknown") }

  /** `counts[key(c)] = (counts[key(c)] || 0) + 1` for each candidate in turn. */
  function TallyBy(items: seq<Candidate>, key: Candidate -> string): map<string, nat>
  {
    if items == [] then map[]
    else
      var t := TallyBy(items[..|items| - 1], key);
      var k := key(items[|items| - 1]);
      Bump(t, k)
  }

  /** `counts[k] = (counts[k] || 0) + 1`. */
  function Bump(t: map<string, nat>, k: string): map<string, nat> { t[k := CountOf(t, k) + 1] }

  /** The count of a key, 0 when it has none. */
  function CountOf(t: map<string, nat>, k: string): nat { if k in t then t[k] else 0 }

  /** How many candidates have key `k`. */
  function KeyCount(items: seq<Candidate>, key: Candidate -> string, k: string): nat
  {
    if items == [] then 0
    else KeyCount(items[..|items| - 1], key, k) + (if key(items[|items| - 1]) == k then 1 else 0)
  }

  /** Each key is mapped to the number of candidates carrying it, and the keys present are
      exactly those of some candidate. */
  lemma {:induction false} TallyCounts(items: seq<Candidate>, key: Candidate -> string, k: string)
    ensures CountOf(TallyBy(items, key), k) == KeyCount(items, key, k)
    ensures k in TallyBy(items, key) <==> exists i :: 0 <= i < |items| && key(items[i]) == k
  {
    if items != [] {
      var init := items[..|items| - 1];
      TallyCounts(init, key, k);
      if k in TallyBy(init, key) {
        var i :| 0 <= i < |init| && key(init[i]) == k;
        assert items[i] == init[i];
      }
      if exists i :: 0 <= i < |items| && key(items[i]) == k {
        var i :| 0 <= i < |items| && key(items[i]) == k;
        if i < |init| {
          assert init[i] == items[i];
        }
      }
    }
  }

  /** The sum of a table's counts over some of its keys. */
  ghost function SumOver(t: map<string, nat>, keys: set<string>): nat
    requires keys <= t.Keys
  {
    if keys == {} then 0
    else
      var k :| k in keys;
      t[k] + SumOver(t, keys - {k})
  }

  /** The sum of a table's counts. */
  ghost function MapSum(t: map<string, nat>): nat { SumOver(t, t.Keys) }

  /** The sum does not depend on which key is taken first. */
  lemma {:induction false} SumOverRemove(t: map<string, nat>, keys: set<string>, k: string)
    requires keys <= t.Keys && k in keys
    ensures SumOver(t, keys) == t[k] + SumOver(t, keys - {k})
    decreases keys
  {
    var j :| j in keys && SumOver(t, keys) == t[j] + SumOver(t, keys - {j});
    if j != k {
      SumOverRemove(t, keys - {j}, k);
      SumOverRemove(t, keys - {k}, j);
      assert keys - {j} - {k} == keys - {k} - {j};
    }
  }

  /** Two tables that agree on some keys have the same sum over them. */
  lemma {:induction false} SumOverSame(t: map<string, nat>, u: map<string, nat>, keys: set<string>)
    requires keys <= t.Keys && keys <= u.Keys
    requires forall k :: k in keys ==> t[k] == u[k]
    ensures SumOver(t, keys) == SumOver(u, keys)
    decreases keys
  {
    if keys != {} {
      var j :| j in keys && SumOver(t, keys) == t[j] + SumOver(t, keys - {j});
      SumOverRemove(u, keys, j);
      SumOverSame(t, u, keys - {j});
    }
  }

  /** Counting one more key adds one to the sum. */
  lemma MapSumBump(t: map<string, nat>, k: string)
    ensures MapSum(Bump(t, k)) == MapSum(t) + 1
  {
    var b := Bump(t, k);
    SumOverRemove(b, b.Keys, k);
    if k in t {
      SumOverRemove(t, t.Keys, k);
      assert b.Keys - {k} == t.Keys - {k};
      SumOverSame(b, t, t.Keys - {k});
    } else {
      assert b.Keys - {k} == t.Keys;
      SumOverSame(b, t, t.Keys);
    }
  }

  /** The counts of a table add up to the number of candidates. */
  lemma {:induction false} TallySum(items: seq<Candidate>, key: Candidate -> string)
    ensures MapSum(TallyBy(items, key)) == |items|
  {
    if items != [] {
      TallySum(items[..|items| - 1], key);
      MapSumBump(TallyBy(items[..|items| - 1], key), key(items[|items| - 1]));
    }
  }

  /** The score band: high from 24, medium from 18, low below. */
  datatype Bands = Bands(high: nat, medium: nat, low: nat)

  function BandsOf(items: seq<Candidate>): Bands
  {
    if items == [] then Bands(0, 0, 0)
    else
      var b := BandsOf(items[..|items| - 1]);
      var score := items[|items| - 1].total;
      if score >= 24.0 then b.(high := b.high + 1)
      else if score >= 18.0 then b.(medium := b.medium + 1)
      else b.(low := b.low + 1)
  }

  /** Every candidate lands in exactly one band. */
  lemma {:induction false} BandsSum(items: seq<Candidate>)
    ensures var b := BandsOf(items); b.high + b.medium + b.low == |items|
  {
    if items != [] {
      BandsSum(items[..|items| - 1]);
    }
  }

  function ScoreSum(items: seq<Candidate>): real
  {
    if items == [] then 0.0 else ScoreSum(items[..|items| - 1]) + items[|items| - 1].total
  }

  datatype PipelineStats = PipelineStats(totalCandidates: nat, bySourceType: map<string, nat>,
                                         byTier: map<string, nat>, byCategory: map<string, nat>,
                                         bands: Bands, avgScore: real)

  /** `Math.round(sum / n * 10) / 10`, or 0 without candidates. */
  function AverageScore(sum: real, n: nat): real
  {
    if n > 0 then JsRound(sum / n as real * 10.0) as real / 10.0 else 0.0
  }

  function StatsOf(items: seq<Candidate>): PipelineStats
  {
    PipelineStats(|items|, TallyBy(items, SourceTypeKey), TallyBy(items, TierKey), TallyBy(items, CategoryKey),
                  BandsOf(items), AverageScore(ScoreSum(items), |items|))
  }

  /** The bands add up to the candidate count, and each `by_*` table counts every candidate
      under its key. */
  lemma StatsShape(items: seq<Candidate>, k: string)
    ensures var s := StatsOf(items);
            s.bands.high + s.bands.medium + s.bands.low == s.totalCandidates &&
            CountOf(s.bySourceType, k) == KeyCount(items, SourceTypeKey, k) &&
            CountOf(s.byTier, k) == KeyCount(items, TierKey, k) &&
            CountOf(s.byCategory, k) == KeyCount(items, CategoryKey, k) &&
            MapSum(s.bySourceType) == s.totalCandidates && MapSum(s.byTier) == s.totalCandidates &&
            MapSum(s.byCategory) == s.totalCandidates
  {
    TallySum(items, SourceTypeKey);
    TallySum(items, TierKey);
    TallySum(items, CategoryKey);
    BandsSum(items);
    TallyCounts(items, SourceTypeKey, k);
    TallyCounts(items, TierKey, k);
    TallyCounts(items, CategoryKey, k);
  }

  /** One more candidate: its key's count goes up by one, it joins its band and its score
      joins the sum. */
  lemma StatsStep(items: seq<Candidate>, i: nat, key: Candidate -> string)
    requires i < |items|
    ensures var t := TallyBy(items[..i], key);
            TallyBy(items[..i + 1], key) == Bump(t, key(items[i]))
    ensures var b := BandsOf(items[..i]);
            BandsOf(items[..i + 1]) == if items[i].total >= 24.0 then b.(high := b.high + 1)
                                       else if items[i].total >= 18.0 then b.(medium := b.medium + 1)
                                       else b.(low := b.low + 1)
    ensures ScoreSum(items[..i + 1]) == ScoreSum(items[..i]) + items[i].total
  {
    assert items[..i + 1][..i] == items[..i];
  }

  /** The `forEach` over the candidates that fills `pipelineStats`. */
  method CollectStats(items: seq<Candidate>) returns (stats: PipelineStats)
    ensures stats == StatsOf(items)
  {
    var bySourceType: map<string, nat> := map[];
    var byTier: map<string, nat> := map[];
    var byCategory: map<string, nat> := map[];
    var bands := Bands(0, 0, 0);
    var scoreSum := 0.0;
    for i := 0 to |items|
      invariant bySourceType == TallyBy(items[..i], SourceTypeKey)
      invariant byTier == TallyBy(items[..i], TierKey)
      invariant byCategory == TallyBy(items[..i], CategoryKey)
      invariant bands == BandsOf(items[..i])
      invariant scoreSum == ScoreSum(items[..i])
    {
      StatsStep(items, i, SourceTypeKey);
      StatsStep(items, i, TierKey);
      StatsStep(items, i, CategoryKey);
      var c := items[i];
      bySourceType := Bump(bySourceType, SourceTypeKey(c));
      byTier := Bump(byTier, TierKey(c));
      byCategory := Bump(byCategory, CategoryKey(c));
      if c.total >= 24.0 {
        bands := bands.(high := bands.high + 1);
      } else if c.total >= 18.0 {
        bands := bands.(medium := bands.medium + 1);
      } else {
        bands := bands.(low := bands.low + 1);
      }
      scoreSum := scoreSum + c.total;
    }
    assert items[..|items|] == items;
    stats := PipelineStats(|items|, bySourceType, byTier, byCategory, bands, AverageScore(scoreSum, |items|));
  }

  // ------------------------------------------------------------------
  // Choosing the sources
  // ------------------------------------------------------------------

  /** `isTwitterUrl`: a substring test on the lower-cased URL. */
  predicate IsTwitterUrl(url: string)
  {
    var t := ToLower(url);
    Contains(t, "twitter.com/") || Contains(t, "x.com/") || Contains(t, "t.co/")
  }

  /** Any URL with `x.com/` in it counts as a Twitter URL, whatever precedes it, so a host such
      as `dropbox.com` is excluded as well. */
  lemma XComAnywhere(prefix: string, rest: string)
    requires forall i :: 0 <= i < |prefix| ==> !('A' <= prefix[i] <= 'Z')
    ensures IsTwitterUrl(prefix + "x.com/" + rest)
  {
    var u := prefix + "x.com/" + rest;
    var t := ToLower(u);
    assert t[|prefix|..|prefix| + 6] == "x.com/";
    assert OccursAt(t, "x.com/", |prefix|);
    ContainsIff(t, "x.com/");
  }

  function LinkOf(c: Candidate): string { OrText(c.url, c.link) }

  function SourceTypeFor(c: Candidate): string
  {
    if c.sourceType != "" then c.sourceType else if StartsWith(c.source, "X -") then "X" else "RSS"
  }

  /** Has a URL (or link), which is not a Twitter URL unless those are allowed. */
  predicate Linkable(c: Candidate, allowTwitter: bool)
  {
    LinkOf(c) != "" && (allowTwitter || !IsTwitterUrl(LinkOf(c)))
  }

  predicate Eligible(c: Candidate, allowTwitter: bool)
  {
    Linkable(c, allowTwitter) && SourceTypeFor(c) != "X"
  }

  function EligibleItems(items: seq<Candidate>, allowTwitter: bool): seq<Candidate>
  {
    Filter(items, c => Eligible(c, allowTwitter))
  }

  function FallbackItems(items: seq<Candidate>, allowTwitter: bool): seq<Candidate>
  {
    Filter(items, c => Linkable(c, allowTwitter))
  }

  /** `top10`: the first ten eligible candidates, or the first ten linkable ones when no
      candidate is eligible. */
  function Top10(items: seq<Candidate>, allowTwitter: bool): seq<Candidate>
  {
    var e := EligibleItems(items, allowTwitter);
    SliceTo(if e != [] then e else FallbackItems(items, allowTwitter), 10)
  }

  /** At most ten sources, each from the input with a URL that is not a Twitter URL unless
      allowed; there are none exactly when no candidate has a usable URL. */
  lemma Top10Shape(items: seq<Candidate>, allowTwitter: bool)
    ensures |Top10(items, allowTwitter)| <= 10
    ensures forall c :: c in Top10(items, allowTwitter) ==> c in items && Linkable(c, allowTwitter)
    ensures Top10(items, allowTwitter) == [] <==> forall c :: c in items ==> !Linkable(c, allowTwitter)
  {
    var e := EligibleItems(items, allowTwitter);
    var f := FallbackItems(items, allowTwitter);
    var src := if e != [] then e else f;
    var top := Top10(items, allowTwitter);
    assert top == SliceTo(src, 10);
    assert forall c :: c in src ==> c in items && Linkable(c, allowTwitter);
    forall c | c in top ensures c in items && Linkable(c, allowTwitter) {
      assert c in src;
    }
    if top == [] {
      assert src == [];
      forall c | c in items ensures !Linkable(c, allowTwitter) {
        assert c !in f;
      }
    } else {
      assert top[0] in top;
    }
  }

  /** The sources are the first eligible candidates, none of them an X source, when any
      candidate is eligible, and the first linkable candidates otherwise. */
  lemma Top10Order(items: seq<Candidate>, allowTwitter: bool)
    ensures EligibleItems(items, allowTwitter) != [] ==>
              Top10(items, allowTwitter) == EligibleItems(items, allowTwitter)[..|Top10(items, allowTwitter)|] &&
              |Top10(items, allowTwitter)| == Min(10, |EligibleItems(items, allowTwitter)|) &&
              forall c :: c in Top10(items, allowTwitter) ==> SourceTypeFor(c) != "X"
    ensures EligibleItems(items, allowTwitter) == [] ==>
              Top10(items, allowTwitter) == FallbackItems(items, allowTwitter)[..|Top10(items, allowTwitter)|] &&
              |Top10(items, allowTwitter)| == Min(10, |FallbackItems(items, allowTwitter)|)
  {
    var e := EligibleItems(items, allowTwitter);
    var top := Top10(items, allowTwitter);
    if e != [] {
      assert top == SliceTo(e, 10);
      forall c | c in top ensures SourceTypeFor(c) != "X" {
        assert c in e;
      }
    } else {
      assert top == SliceTo(FallbackItems(items, allowTwitter), 10);
    }
  }

  // ------------------------------------------------------------------
  // URLs in tweet text
  // ------------------------------------------------------------------

  /** The regular expression `https?:\/\/[^\s]+` matches at index `i`. */
  predicate UrlAt(t: string, i: int)
  {
    (OccursAt(t, "http://", i) && i + 7 < |t| && !IsSpace(t[i + 7])) ||
    (OccursAt(t, "https://", i) && i + 8 < |t| && !IsSpace(t[i + 8]))
  }

  /** `hasUrl`. */
  predicate HasUrl(t: string)
  {
    exists i :: 0 <= i < |t| && UrlAt(t, i)
  }

  lemma UrlAtShift(a: string, b: string, i: int)
    requires UrlAt(b, i)
    ensures UrlAt(a + b, |a| + i)
  {
    assert (a + b)[|a| + i..] == b[i..];
    if OccursAt(b, "http://", i) && i + 7 < |b| && !IsSpace(b[i + 7]) {
      assert (a + b)[|a| + i..|a| + i + 7] == b[i..i + 7];
    } else {
      assert (a + b)[|a| + i..|a| + i + 8] == b[i..i + 8];
    }
  }

  /** A match starts with the letter `h`, which is not white space. */
  lemma UrlAtStart(t: string, i: int)
    requires UrlAt(t, i)
    ensures 0 <= i < |t| && t[i] == 'h'
  {
    if OccursAt(t, "http://", i) {
      assert t[i..i + 7][0] == t[i];
    } else {
      assert t[i..i + 8][0] == t[i];
    }
  }

  /** `top10[sourceIdx - 1] || top10[0]`. */
  function SourceAt(top: seq<Candidate>, sourceIdx: int): Candidate
    requires top != []
  {
    if 1 <= sourceIdx <= |top| then top[sourceIdx - 1] else top[0]
  }

  /** `ensureUrl`: a text without a URL gets the source's `url` appended after a space. */
  function EnsureUrl(text: string, sourceIdx: int, top: seq<Candidate>): string
    requires top != []
  {
    if HasUrl(text) then text
    else
      var url := SourceAt(top, sourceIdx).url;
      if url == "" then text else text + " " + url
  }

  /** A text with a URL is kept; otherwise the source's URL is appended when there is one, and
      then the result has a URL whenever that URL is one. */
  lemma EnsureUrlShape(text: string, sourceIdx: int, top: seq<Candidate>)
    requires top != []
    ensures var r := EnsureUrl(text, sourceIdx, top);
            var url := SourceAt(top, sourceIdx).url;
            (HasUrl(text) ==> r == text) &&
            (!HasUrl(text) && url == "" ==> r == text) &&
            (!HasUrl(text) && url != "" ==> r == text + " " + url) &&
            (HasUrl(text) || HasUrl(url) ==> HasUrl(r))
  {
    var url := SourceAt(top, sourceIdx).url;
    if !HasUrl(text) && HasUrl(url) {
      var i :| 0 <= i < |url| && UrlAt(url, i);
      UrlAtShift(text + " ", url, i);
      assert text + " " + url == (text + " ") + url;
    }
  }

  // ------------------------------------------------------------------
  // Drafts and the tone guard
  // ------------------------------------------------------------------

  /** The three drafts: `hot_take`, `framework` and `case`. */
  datatype Label = HotTake | Framework | Case

  /** One draft of the model's reply (`discovery`, `insight` or `practical`); a missing text or
      vibe is "" and a missing `source_idx` is 0. */
  datatype RawTweet = RawTweet(text: string, sourceIdx: int, vibe: string)

  datatype RawTweets = RawTweets(discovery: RawTweet, insight: RawTweet, practical: RawTweet)

  /** The length fields `validateAndTruncate` adds. */
  datatype Meta = Meta(length: nat, truncated: bool, originalLength: Option<nat>)

  datatype Tweet = Tweet(text: string, rationale: string, risk: string, sourceIdx: int,
                         toneGuarded: bool, meta: Option<Meta>)

  function RawFor(raw: RawTweets, which: Label): RawTweet
  {
    match which
    case HotTake => raw.discovery
    case Framework => raw.insight
    case Case => raw.practical
  }

  function DefaultIdx(which: Label): int { if which == Framework then 2 else 1 }

  function DefaultVibe(which: Label): string
  {
    match which
    case HotTake => "discovery"
    case Framework => "insight"
    case Case => "practical"
  }

  function RiskNote(which: Label): string
  {
    match which
    case HotTake => "确保链接有效"
    case Framework => "观点表达适度"
    case Case => "实用建议需准确"
  }

  /** The legacy-format draft for a which, its text passed through `ensureUrl`. */
  function Draft(raw: RawTweets, which: Label, top: seq<Candidate>): Tweet
    requires top != []
  {
    var r := RawFor(raw, which);
    Tweet(EnsureUrl(r.text, if r.sourceIdx != 0 then r.sourceIdx else DefaultIdx(which), top),
          "风格: " + OrText(r.vibe, DefaultVibe(which)), RiskNote(which), r.sourceIdx, false, None)
  }

  /** `hasBlocked`: the lower-cased value contains a non-empty blocklisted word. */
  predicate HasBlocked(value: string, blocklist: seq<string>)
  {
    exists i :: 0 <= i < |blocklist| && blocklist[i] != "" && Contains(ToLower(value), blocklist[i])
  }

  /** `buildFallback`: a template around the source's title (cut at 60 characters) and URL. */
  function BuildFallback(which: Label, source: Option<Candidate>): Tweet
  {
    var title := if source.Some? then OrText(OrText(source.value.title, source.value.snippet), "今日AI动态") else "今日AI动态";
    var shortTitle := if |title| > 60 then title[..60] + "..." else title;
    var url := if source.Some? then source.value.url else "";
    var text := match which
      case HotTake => "发现个有意思的：" + shortTitle + " " + url
      case Framework => "这个思路可以参考下：" + shortTitle + " " + url
      case Case => "分享个实用的：" + shortTitle + "，感兴趣可以看看 " + url;
    Tweet(text, "使用简化的人性化模板", "内容较简单", 0, true, None)
  }

  /** `applyToneGuard`. */
  function ApplyToneGuard(t: Tweet, which: Label, source: Option<Candidate>, blocklist: seq<string>): Tweet
  {
    if t.text == "" then BuildFallback(which, source)
    else if HasBlocked(t.text, blocklist) || HasBlocked(t.rationale, blocklist) || HasBlocked(t.risk, blocklist) then
      BuildFallback(which, source)
    else t
  }

  /** A draft passes the guard unchanged exactly when it has text and none of its text,
      rationale and risk contains a blocklisted word; otherwise it is replaced by the
      deterministic fallback, flagged as tone-guarded, whose text is never empty. */
  lemma ToneGuardShape(t: Tweet, which: Label, source: Option<Candidate>, blocklist: seq<string>)
    requires !t.toneGuarded
    ensures var r := ApplyToneGuard(t, which, source, blocklist);
            var clean := t.text != "" && !HasBlocked(t.text, blocklist) && !HasBlocked(t.rationale, blocklist) &&
                         !HasBlocked(t.risk, blocklist);
            (clean ==> r == t) &&
            (!clean ==> r == BuildFallback(which, source) && r.toneGuarded) &&
            r.text != ""
  {
  }

  // ------------------------------------------------------------------
  // The 280-character limit
  // ------------------------------------------------------------------

  const MaxLength := 280

  /** The index of the first match of `https?:\/\/[^\s]+` at or after `from`, or -1. */
  function FirstUrlFrom(t: string, from: nat): (r: int)
    decreases |t| - from
    ensures r == -1 || (from <= r < |t| && UrlAt(t, r))
    ensures r == -1 ==> forall i :: from <= i < |t| ==> !UrlAt(t, i)
  {
    if from >= |t| then -1
    else if UrlAt(t, from) then from
    else FirstUrlFrom(t, from + 1)
  }

  /** The end of the run of non-space characters that starts at `i`. */
  function RunEnd(t: string, i: nat): (j: nat)
    requires i <= |t|
    decreases |t| - i
    ensures i <= j <= |t| && (j == |t| || IsSpace(t[j]))
    ensures forall k :: i <= k < j ==> !IsSpace(t[k])
  {
    if i == |t| || IsSpace(t[i]) then i else RunEnd(t, i + 1)
  }

  /** `text.match(/(https?:\/\/[^\s]+)/g)` from index `from` on: each match runs from its
      scheme to the next white space. */
  function UrlsFrom(t: string, from: nat): seq<string>
    decreases |t| - from
  {
    var i := FirstUrlFrom(t, from);
    if i < 0 then []
    else
      var j := RunEnd(t, i);
      assert j > i by {
        UrlAtStart(t, i);
      }
      [t[i..j]] + UrlsFrom(t, j)
  }

  function Urls(t: string): seq<string> { UrlsFrom(t, 0) }

  function SumLen(us: seq<string>): nat
  {
    if us == [] then 0 else |us[0]| + SumLen(us[1..])
  }

  /** `urls.join(' ')`. */
  function Join(us: seq<string>): (r: string)
    ensures |r| == SumLen(us) + Max(|us| - 1, 0)
  {
    if us == [] then "" else if |us| == 1 then us[0] else us[0] + " " + Join(us[1..])
  }

  /** `s.replace(p, '')`: the first occurrence of `p` is removed. */
  function ReplaceFirst(s: string, p: string): (r: string)
    ensures |r| <= |s|
  {
    var i := IndexOf(s, p);
    if i < 0 then s else s[..i] + s[i + |p|..]
  }

  /** `textWithoutUrls`: each URL in turn removed once. */
  function RemoveUrls(s: string, us: seq<string>): (r: string)
    decreases us
    ensures |r| <= |s|
  {
    if us == [] then s else RemoveUrls(ReplaceFirst(s, us[0]), us[1..])
  }

  /** The room left for the text once the URLs and the ellipsis are set aside. */
  function AvailableSpace(urls: seq<string>): int { MaxLength - SumLen(urls) - 3 }

  /** The text without its URLs, cut to the room, trimmed, then "... " and all the URLs
      joined by spaces. As the separators around the URLs are not budgeted, the result may
      exceed 280 by up to one character per URL (and by one without any). */
  function ShortenAroundUrls(text: string, urls: seq<string>): (r: string)
    requires AvailableSpace(urls) >= 50
    ensures EndsWith(r, "... " + Join(urls)) && |r| <= MaxLength + Max(1, |urls|)
  {
    var cut := Trim(SliceTo(RemoveUrls(text, urls), AvailableSpace(urls)));
    var tail := "... " + Join(urls);
    assert (cut + tail)[|cut + tail| - |tail|..] == tail;
    cut + tail
  }

  /** The text of an over-long tweet: with fewer than 50 characters of room it is cut to
      exactly 280 characters (277 and an ellipsis), otherwise it is shortened around its URLs. */
  function Truncated(text: string): (r: string)
    requires |text| > MaxLength
    ensures var urls := Urls(text);
            (AvailableSpace(urls) < 50 ==> r == text[..MaxLength - 3] + "..." && |r| == MaxLength) &&
            (AvailableSpace(urls) >= 50 ==> EndsWith(r, "... " + Join(urls)) && |r| <= MaxLength + Max(1, |urls|))
  {
    var urls := Urls(text);
    if AvailableSpace(urls) < 50 then text[..MaxLength - 3] + "..." else ShortenAroundUrls(text, urls)
  }

  /** `validateAndTruncate`. */
  function ValidateAndTruncate(t: Tweet): Tweet
  {
    var text := t.text;
    if text == "" then t
    else if |text| <= MaxLength then t.(meta := Some(Meta(|text|, false, None)))
    else
      var finalText := Truncated(text);
      t.(text := finalText, meta := Some(Meta(|finalText|, true, Some(|text|))))
  }

  /** A non-empty text of at most 280 characters is kept and flagged as not truncated; a
      longer one is replaced by its truncation and flagged, with its original length. The
      recorded length is always the new text's, the text stays non-empty and the other fields
      are unchanged. */
  lemma ValidateShape(t: Tweet)
    requires t.text != ""
    ensures var r := ValidateAndTruncate(t);
            r.meta.Some? && r.meta.value.length == |r.text| && r.text != "" &&
            r.rationale == t.rationale && r.risk == t.risk && r.toneGuarded == t.toneGuarded &&
            r.sourceIdx == t.sourceIdx &&
            (|t.text| <= MaxLength ==> r.text == t.text && !r.meta.value.truncated) &&
            (|t.text| > MaxLength ==> r.text == Truncated(t.text) && r.meta.value.truncated &&
                                      r.meta.value.originalLength == Some(|t.text|))
  {
    if |t.text| > MaxLength {
      var r := Truncated(t.text);
      if AvailableSpace(Urls(t.text)) >= 50 {
        assert |r| >= 4;
      }
    }
  }

  /** A trimmed string that neither starts nor ends with white space is unchanged by `trim`. */
  lemma TrimKeeps(s: string)
    requires s != [] && !IsSpace(s[0]) && !IsSpace(s[|s| - 1])
    ensures Trim(s) == s
  {
  }

  /** 300 letters without a URL become 277 letters and "... ": 281 characters. */
  lemma LongPlainTextExceedsLimit(t: Tweet)
    requires t.text == seq(300, i => 'a')
    ensures |ValidateAndTruncate(t).text| == MaxLength + 1
  {
    var text := t.text;
    assert forall i :: 0 <= i < |text| ==> !UrlAt(text, i) by {
      forall i | 0 <= i < |text|
        ensures !UrlAt(text, i)
      {
        if UrlAt(text, i) {
          UrlAtStart(text, i);
        }
      }
    }
    assert Urls(text) == [];
    var cut := SliceTo(RemoveUrls(text, []), 277);
    assert cut == text[..277];
    TrimKeeps(cut);
  }

  // ------------------------------------------------------------------
  // The node
  // ------------------------------------------------------------------

  /** `top10[k]?.json` for the three fallback templates. */
  function FallbackSource(top: seq<Candidate>, k: nat): Option<Candidate>
  {
    if k < |top| then Some(top[k]) else None
  }

  /** One of the three tweets: drafted, guarded, then checked against the length limit. */
  function FinalTweet(raw: RawTweets, which: Label, k: nat, top: seq<Candidate>, blocklist: seq<string>): Tweet
    requires top != []
  {
    ValidateAndTruncate(ApplyToneGuard(Draft(raw, which, top), which, FallbackSource(top, k), blocklist))
  }

  datatype Tweets = Tweets(hotTake: Tweet, framework: Tweet, case_: Tweet)

  /** The node's outcome: its two errors, or the tweets with their sources and statistics. */
  datatype Outcome =
    | NoEligibleSources
    | GenerationFailed
    | Generated(tweets: Tweets, sources: seq<Candidate>, stats: PipelineStats)

  function TweetGenerate(items: seq<Candidate>, allowTwitter: bool, blocklist: seq<string>,
                         llm: seq<Candidate> -> Option<RawTweets>): Outcome
  {
    var top := Top10(items, allowTwitter);
    if top == [] then NoEligibleSources
    else if llm(top).None? then GenerationFailed
    else
      var raw := llm(top).value;
      Generated(Tweets(FinalTweet(raw, HotTake, 0, top, blocklist), FinalTweet(raw, Framework, 1, top, blocklist),
                       FinalTweet(raw, Case, 2, top, blocklist)),
                top, StatsOf(items))
  }

  /** A finished tweet has text and records that text's length. */
  predicate Finished(t: Tweet)
  {
    t.text != "" && t.meta.Some? && t.meta.value.length == |t.text|
  }

  /** Each of the three tweets has non-empty text and records its own length. */
  lemma FinalTweetShape(raw: RawTweets, which: Label, k: nat, top: seq<Candidate>, blocklist: seq<string>)
    requires top != []
    ensures Finished(FinalTweet(raw, which, k, top, blocklist))
  {
    var d := Draft(raw, which, top);
    ToneGuardShape(d, which, FallbackSource(top, k), blocklist);
    ValidateShape(ApplyToneGuard(d, which, FallbackSource(top, k), blocklist));
  }

  /** The node fails when no candidate has a usable URL, or when the model's reply cannot be
      had; otherwise every tweet carries its length and has non-empty text, the sources are
      the chosen ones, and the statistics cover every candidate. */
  lemma TweetGenerateShape(items: seq<Candidate>, allowTwitter: bool, blocklist: seq<string>,
                           llm: seq<Candidate> -> Option<RawTweets>)
    ensures var r := TweetGenerate(items, allowTwitter, blocklist, llm);
            (r.NoEligibleSources? <==> forall c :: c in items ==> !Linkable(c, allowTwitter)) &&
            (r.GenerationFailed? <==> Top10(items, allowTwitter) != [] && llm(Top10(items, allowTwitter)).None?) &&
            (r.Generated? ==>
               r.sources == Top10(items, allowTwitter) && r.stats == StatsOf(items) &&
               Finished(r.tweets.hotTake) && Finished(r.tweets.framework) && Finished(r.tweets.case_))
  {
    Top10Shape(items, allowTwitter);
    var top := Top10(items, allowTwitter);
    if top != [] && llm(top).Some? {
      var raw := llm(top).value;
      FinalTweetShape(raw, HotTake, 0, top, blocklist);
      FinalTweetShape(raw, Framework, 1, top, blocklist);
      FinalTweetShape(raw, Case, 2, top, blocklist);
    }
  }

  /** The node: statistics, the choice of sources, the model's drafts and their checks. */
  method TweetGenNode(items: seq<Candidate>, allowTwitter: bool, blocklist: seq<string>,
                      llm: seq<Candidate> -> Option<RawTweets>) returns (r: Outcome)
    ensures r == TweetGenerate(items, allowTwitter, blocklist, llm)
  {
    var stats := CollectStats(items);
    var top := Top10(items, allowTwitter);
    if top == [] {
      return NoEligibleSources;
    }
    var reply := llm(top);
    if reply.None? {
      return GenerationFailed;
    }
    var raw := reply.value;
    var tweets := Tweets(FinalTweet(raw, HotTake, 0, top, blocklist), FinalTweet(raw, Framework, 1, top, blocklist),
                         FinalTweet(raw, Case, 2, top, blocklist));
    r := Generated(tweets, top, stats);
  }
}
