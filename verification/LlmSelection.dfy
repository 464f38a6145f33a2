/** Choosing the items the ranking node sends to the LLM (`scripts/llm-rank-node.js`):
    preparation, the X and RSS orders, the quota split and the per-source X buckets. */
module LlmSelection {
  import opened Common

  // ------------------------------------------------------------------
  // Prepared entries
  // ------------------------------------------------------------------

  /** Engagement counts; a missing count is 0. */
  datatype Metrics = Metrics(like: real, retweet: real, quote: real, reply: real, impression: real)

  /** An input item; a missing string is "". `publishedAt` is `Date.parse` of the first present
      date field, None when there is none or it does not parse. */
  datatype Item = Item(title: string, url: string, source: string, sourceType: string, tier: string,
                       metrics: Metrics, publishedAt: Option<int>)

  datatype Entry = Entry(index: nat, data: Item, metricScore: real, sourceType: string, publishedAtScore: int)

  function MetricScore(m: Metrics): real
  {
    m.like + m.retweet * 2.0 + m.quote * 1.5 + m.reply * 0.5 + m.impression * 0.05
  }

  /** More engagement never lowers the metric score, and no engagement scores 0. */
  lemma MetricScoreMonotone(a: Metrics, b: Metrics)
    requires a.like <= b.like && a.retweet <= b.retweet && a.quote <= b.quote
    requires a.reply <= b.reply && a.impression <= b.impression
    ensures MetricScore(a) <= MetricScore(b)
    ensures MetricScore(Metrics(0.0, 0.0, 0.0, 0.0, 0.0)) == 0.0
  {
  }

  /** The largest ECMAScript time value; `Date.parse` gives NaN beyond it. */
  const MaxTime := 8640000000000000

  function ParseTime(raw: Option<int>): (t: int)
    ensures -MaxTime <= t <= MaxTime
    ensures raw.Some? && -MaxTime <= raw.value <= MaxTime ==> t == raw.value
    ensures raw.None? ==> t == 0
  {
    if raw.Some? && -MaxTime <= raw.value <= MaxTime then raw.value else 0
  }

  /** The declared source type, else X for a source named `X - …`, else RSS. */
  function SourceTypeOf(d: Item): (t: string)
    ensures d.sourceType != "" ==> t == d.sourceType
    ensures d.sourceType == "" ==> (t == "X" <==> StartsWith(d.source, "X -"))
  {
    if d.sourceType != "" then d.sourceType else if StartsWith(d.source, "X -") then "X" else "RSS"
  }

  function Prep(items: seq<Item>): (p: seq<Entry>)
    ensures |p| == |items|
    ensures forall i :: 0 <= i < |p| ==> p[i].index == i && p[i].data == items[i]
  {
    seq(|items|, i requires 0 <= i < |items| =>
      Entry(i, items[i], MetricScore(items[i].metrics), SourceTypeOf(items[i]), ParseTime(items[i].publishedAt)))
  }

  /** The entries whose source type is X, in order. */
  function XItems(p: seq<Entry>): (r: seq<Entry>)
    ensures forall e :: e in r <==> e in p && e.sourceType == "X"
  {
    if p == [] then []
    else XItems(p[..|p| - 1]) + (if p[|p| - 1].sourceType == "X" then [p[|p| - 1]] else [])
  }

  /** The other entries, in order. */
  function RssItems(p: seq<Entry>): (r: seq<Entry>)
    ensures forall e :: e in r <==> e in p && e.sourceType != "X"
  {
    if p == [] then []
    else RssItems(p[..|p| - 1]) + (if p[|p| - 1].sourceType != "X" then [p[|p| - 1]] else [])
  }

  /** Every entry goes to exactly one side. */
  lemma {:induction false} PartitionSizes(p: seq<Entry>)
    ensures |XItems(p)| + |RssItems(p)| == |p|
  {
    if p != [] {
      PartitionSizes(p[..|p| - 1]);
    }
  }

  // ------------------------------------------------------------------
  // Orders
  // ------------------------------------------------------------------

  function MetricOf(e: Entry): real { e.metricScore }

  /** `tierPriority[tier] || 2`. */
  function TierPriority(tier: string): int
  {
    if tier == "A" then 4 else if tier == "B" then 3 else if tier == "C" then 2 else if tier == "D" then 1 else 2
  }

  /** One number ordering RSS entries as the comparator does: tier first, then recency. */
  function RssKey(e: Entry): real
  {
    TierPriority(e.data.tier) as real * 20000000000000000.0 + e.publishedAtScore as real
  }

  /** Sorting by `RssKey` descending is sorting by the comparator: a higher tier comes first,
      and within a tier the later entry; the comparator ties exactly when the keys tie. */
  lemma RssKeyOrder(a: Entry, b: Entry)
    requires -MaxTime <= a.publishedAtScore <= MaxTime && -MaxTime <= b.publishedAtScore <= MaxTime
    ensures RssKey(a) > RssKey(b) <==>
              TierPriority(a.data.tier) > TierPriority(b.data.tier) ||
              (TierPriority(a.data.tier) == TierPriority(b.data.tier) && a.publishedAtScore > b.publishedAtScore)
    ensures RssKey(a) == RssKey(b) <==>
              TierPriority(a.data.tier) == TierPriority(b.data.tier) && a.publishedAtScore == b.publishedAtScore
  {
  }

  // ------------------------------------------------------------------
  // Quotas
  // ------------------------------------------------------------------

  /** The X share: a finite setting clamped to [0, 1], else 0.4 (None stands for any value that is not finite: NaN, `Infinity` or `-Infinity`). */
  function XRatio(raw: Option<real>): (r: real)
    ensures 0.0 <= r <= 1.0
    ensures raw.Some? && 0.0 <= raw.value <= 1.0 ==> r == raw.value
  {
    if raw.None? then 0.4 else ClampReal(raw.value, 0.0, 1.0)
  }

  function MaxItemsSafe(maxItems: int, n: nat): (m: int)
    ensures m >= 1
    ensures n >= 1 && maxItems >= 1 ==> m == Min(maxItems, n)
  {
    Max(1, Min(maxItems, n))
  }

  lemma XTargetRange(m: int, ratio: real)
    requires m >= 1 && 0.0 <= ratio <= 1.0
    ensures 0 <= JsRound(m as real * ratio) <= m
  {
    assert 0.0 <= m as real * ratio <= m as real * 1.0;
  }

  /** The X and RSS quotas: X gets its target where it can, RSS the rest, and X takes back
      what RSS cannot fill. */
  function Quotas(m: int, nx: nat, nr: nat, target: int): (int, int)
  {
    var xq := Min(nx, target);
    var rq := Min(nr, m - xq);
    if rq < m - xq then (Min(nx, m - rq), rq) else (xq, rq)
  }

  /** Neither side exceeds its supply and together they fill `min(maxItemsSafe, supply)`. */
  lemma QuotasSplit(m: int, nx: nat, nr: nat, target: int)
    requires 0 <= target <= m
    ensures var (xq, rq) := Quotas(m, nx, nr, target);
            0 <= xq <= nx && 0 <= rq <= nr && xq + rq == Min(m, nx + nr)
  {
  }

  // ------------------------------------------------------------------
  // X buckets
  // ------------------------------------------------------------------

  datatype Caps = Caps(applied: int, research: int, default: int)

  const AppliedSources: set<string> := {"X - ai-agents", "X - ai-workflow", "X - llm-prompts", "X - ai-built",
                                        "X - ai-freebies", "X - buildinpublic", "X - ai-tips", "X - @simonw",
                                        "X - @swyx", "X - @hwchase17", "X - @goodside"}

  const ResearchSources: set<string> := {"X - @ylecun", "X - @sama"}

  /** The per-source cap: research sources, then applied sources, then the default. */
  function CapFor(caps: Caps, source: string): int
  {
    if source in ResearchSources then caps.research else if source in AppliedSources then caps.applied else caps.default
  }

  function BucketKey(e: Entry): string { if e.data.source != "" then e.data.source else "X" }

  /** `get(key).push(e)`, creating the bucket at the end when the key is new. */
  function AddToBucket(bs: seq<(string, seq<Entry>)>, k: string, e: Entry): seq<(string, seq<Entry>)>
  {
    if bs == [] then [(k, [e])]
    else if bs[0].0 == k then [(k, bs[0].1 + [e])] + bs[1..]
    else [bs[0]] + AddToBucket(bs[1..], k, e)
  }

  /** The buckets of the X entries, keyed by source in order of first appearance. */
  function Buckets(xs: seq<Entry>): seq<(string, seq<Entry>)>
  {
    if xs == [] then [] else AddToBucket(Buckets(xs[..|xs| - 1]), BucketKey(xs[|xs| - 1]), xs[|xs| - 1])
  }

  /** Distinct keys, and every entry sits in the bucket of its own key. */
  ghost predicate BucketsOk(bs: seq<(string, seq<Entry>)>)
  {
    (forall i, j :: 0 <= i < j < |bs| ==> bs[i].0 != bs[j].0) &&
    (forall i, e :: 0 <= i < |bs| && e in bs[i].1 ==> BucketKey(e) == bs[i].0)
  }

  lemma {:induction false} AddToBucketShape(bs: seq<(string, seq<Entry>)>, k: string, e: Entry)
    ensures var r := AddToBucket(bs, k, e);
            (|r| == |bs| || (|r| == |bs| + 1 && r[|bs|].0 == k && forall i :: 0 <= i < |bs| ==> bs[i].0 != k)) &&
            (forall i :: 0 <= i < |bs| ==> r[i].0 == bs[i].0) &&
            (forall i, x :: 0 <= i < |r| && x in r[i].1 ==> (x == e && r[i].0 == k) || (i < |bs| && x in bs[i].1))
  {
    if bs != [] && bs[0].0 != k {
      AddToBucketShape(bs[1..], k, e);
      var r := AddToBucket(bs, k, e);
      assert r[1..] == AddToBucket(bs[1..], k, e);
    }
  }

  lemma BucketsWellFormed(xs: seq<Entry>)
    ensures BucketsOk(Buckets(xs))
  {
    if xs != [] {
      var prev := Buckets(xs[..|xs| - 1]);
      BucketsWellFormed(xs[..|xs| - 1]);
      AddToBucketShape(prev, BucketKey(xs[|xs| - 1]), xs[|xs| - 1]);
    }
  }

  /** A bucket's candidates: its entries by metric score, cut at the cap (`slice(0, cap)`). */
  function Capped(b: (string, seq<Entry>), caps: Caps): seq<Entry>
  {
    SliceTo(SortDesc(b.1, MetricOf), CapFor(caps, b.0))
  }

  /** Each bucket's candidates, bucket after bucket. */
  function Pieces(bs: seq<(string, seq<Entry>)>, caps: Caps): (ps: seq<seq<Entry>>)
    ensures |ps| == |bs|
  {
    seq(|bs|, i requires 0 <= i < |bs| => Capped(bs[i], caps))
  }

  /** The candidates of the first pass. */
  function Cands(bs: seq<(string, seq<Entry>)>, caps: Caps): seq<Entry>
  {
    Flatten(Pieces(bs, caps))
  }

  /** A bucket's candidates are some of its entries, at most the cap of them when the cap is
      not negative (a negative cap drops that many entries from the end instead). */
  lemma CappedPiece(b: (string, seq<Entry>), caps: Caps)
    ensures CapFor(caps, b.0) >= 0 ==> |Capped(b, caps)| <= CapFor(caps, b.0)
    ensures CapFor(caps, b.0) < 0 ==> |Capped(b, caps)| == Max(0, |b.1| + CapFor(caps, b.0))
    ensures forall e :: e in Capped(b, caps) ==> e in b.1
  {
    forall e | e in Capped(b, caps)
      ensures e in b.1
    {
      assert e in multiset(SortDesc(b.1, MetricOf));
    }
  }

  // ------------------------------------------------------------------
  // Picking
  // ------------------------------------------------------------------

  function Indices(s: seq<Entry>): set<nat>
  {
    if s == [] then {} else Indices(s[..|s| - 1]) + {s[|s| - 1].index}
  }

  lemma {:induction false} IndicesIff(s: seq<Entry>, x: nat)
    ensures x in Indices(s) <==> exists e :: e in s && e.index == x
  {
    if s != [] {
      IndicesIff(s[..|s| - 1], x);
      assert s == s[..|s| - 1] + [s[|s| - 1]];
    }
  }

  /** One step of either loop: skip when full or already picked, otherwise take the entry. */
  function Take1(sel: seq<Entry>, e: Entry, quota: int): seq<Entry>
  {
    if |sel| >= quota || e.index in Indices(sel) then sel else sel + [e]
  }

  function TakeAll(sel: seq<Entry>, cands: seq<Entry>, quota: int): seq<Entry>
  {
    if cands == [] then sel else Take1(TakeAll(sel, cands[..|cands| - 1], quota), cands[|cands| - 1], quota)
  }

  /** The X selection: the capped first pass over the buckets, then the fill from all X entries
      in metric order. */
  function XSelection(xs: seq<Entry>, quota: int, caps: Caps): seq<Entry>
  {
    TakeAll(FirstPass(xs, quota, caps), xs, quota)
  }

  function FirstPass(xs: seq<Entry>, quota: int, caps: Caps): seq<Entry>
  {
    TakeAll([], Cands(Buckets(xs), caps), quota)
  }

  lemma {:induction false} TakeAllFull(sel: seq<Entry>, cands: seq<Entry>, quota: int)
    requires |sel| >= quota
    ensures TakeAll(sel, cands, quota) == sel
  {
    if cands != [] {
      TakeAllFull(sel, cands[..|cands| - 1], quota);
    }
  }

  lemma {:induction false} TakeAllAppend(sel: seq<Entry>, a: seq<Entry>, b: seq<Entry>, quota: int)
    ensures TakeAll(sel, a + b, quota) == TakeAll(TakeAll(sel, a, quota), b, quota)
  {
    if b == [] {
      assert a + b == a;
    } else {
      TakeAllAppend(sel, a, b[..|b| - 1], quota);
      assert (a + b)[..|a + b| - 1] == a + b[..|b| - 1];
    }
  }

  ghost predicate DistinctIndices(s: seq<Entry>)
  {
    |Indices(s)| == |s|
  }

  /** Picking never repeats an index, keeps what was picked, and stops at the quota. */
  lemma {:induction false} TakeAllShape(sel: seq<Entry>, cands: seq<Entry>, quota: int)
    requires DistinctIndices(sel)
    ensures var r := TakeAll(sel, cands, quota);
            DistinctIndices(r) && |sel| <= |r| && r[..|sel|] == sel && |r| <= Max(quota, |sel|) &&
            (forall e :: e in r ==> e in sel || e in cands)
  {
    if cands != [] {
      var prev := TakeAll(sel, cands[..|cands| - 1], quota);
      TakeAllShape(sel, cands[..|cands| - 1], quota);
      var e := cands[|cands| - 1];
      if !(|prev| >= quota || e.index in Indices(prev)) {
        assert (prev + [e])[..|prev|] == prev;
        assert (prev + [e])[..|sel|] == prev[..|sel|];
      }
    }
  }

  /** Unless the quota is reached, every candidate's index has been picked. */
  lemma {:induction false} TakeAllCovers(sel: seq<Entry>, cands: seq<Entry>, quota: int)
    ensures var r := TakeAll(sel, cands, quota);
            |r| < quota ==> forall e :: e in cands ==> e.index in Indices(r)
  {
    if cands != [] {
      var prev := TakeAll(sel, cands[..|cands| - 1], quota);
      var r := TakeAll(sel, cands, quota);
      TakeAllCovers(sel, cands[..|cands| - 1], quota);
      if |r| < quota {
        assert |prev| < quota;
        assert Indices(prev) <= Indices(r);
        assert cands == cands[..|cands| - 1] + [cands[|cands| - 1]];
      }
    }
  }

  lemma {:induction false} SubsetCard(a: set<nat>, b: set<nat>)
    requires a <= b
    ensures |a| <= |b|
  {
    if a != {} {
      var x :| x in a;
      SubsetCard(a - {x}, b - {x});
    }
  }

  /** With at least `quota` X entries carrying distinct indices, the X selection has exactly
      `quota` entries, all X entries, with distinct indices. */
  lemma XSelectionExact(xs: seq<Entry>, quota: int, caps: Caps)
    requires 0 <= quota <= |xs| && DistinctIndices(xs)
    requires forall e :: e in Cands(Buckets(xs), caps) ==> e in xs
    ensures |XSelection(xs, quota, caps)| == quota
    ensures DistinctIndices(XSelection(xs, quota, caps))
    ensures forall e :: e in XSelection(xs, quota, caps) ==> e in xs
  {
    var first := FirstPass(xs, quota, caps);
    var r := XSelection(xs, quota, caps);
    TakeAllShape([], Cands(Buckets(xs), caps), quota);
    TakeAllShape(first, xs, quota);
    TakeAllCovers(first, xs, quota);
    if |r| < quota {
      forall x | x in Indices(xs)
        ensures x in Indices(r)
      {
        IndicesIff(xs, x);
      }
      SubsetCard(Indices(xs), Indices(r));
    }
  }

  /** Every first-pass candidate is one of the X entries. */
  lemma CandsFromEntries(xs: seq<Entry>, caps: Caps)
    ensures forall e :: e in Cands(Buckets(xs), caps) ==> e in xs
  {
    var bs := Buckets(xs);
    BucketsMembers(xs);
    CandsMembers(bs, caps);
  }

  lemma {:induction false} BucketsMembers(xs: seq<Entry>)
    ensures forall i, e :: 0 <= i < |Buckets(xs)| && e in Buckets(xs)[i].1 ==> e in xs
  {
    if xs != [] {
      var init := xs[..|xs| - 1];
      BucketsMembers(init);
      AddToBucketShape(Buckets(init), BucketKey(xs[|xs| - 1]), xs[|xs| - 1]);
      assert forall e :: e in init ==> e in xs;
    }
  }

  lemma {:induction false} FlattenMembers(ps: seq<seq<Entry>>, e: Entry)
    requires e in Flatten(ps)
    ensures exists i :: 0 <= i < |ps| && e in ps[i]
  {
    if e !in ps[0] {
      FlattenMembers(ps[1..], e);
      var i :| 0 <= i < |ps[1..]| && e in ps[1..][i];
      assert ps[i + 1] == ps[1..][i];
    }
  }

  lemma CandsMembers(bs: seq<(string, seq<Entry>)>, caps: Caps)
    ensures forall e :: e in Cands(bs, caps) ==> exists i :: 0 <= i < |bs| && e in bs[i].1
  {
    var ps := Pieces(bs, caps);
    forall e | e in Cands(bs, caps)
      ensures exists i :: 0 <= i < |bs| && e in bs[i].1
    {
      FlattenMembers(ps, e);
      var i :| 0 <= i < |ps| && e in ps[i];
      CappedPiece(bs[i], caps);
    }
  }

  // ------------------------------------------------------------------
  // The per-source cap of the first pass
  // ------------------------------------------------------------------

  function SourceCount(s: seq<Entry>, k: string): (r: nat)
    ensures r <= |s|
  {
    if s == [] then 0 else SourceCount(s[..|s| - 1], k) + (if BucketKey(s[|s| - 1]) == k then 1 else 0)
  }

  lemma {:induction false} SourceCountAppend(a: seq<Entry>, b: seq<Entry>, k: string)
    ensures SourceCount(a + b, k) == SourceCount(a, k) + SourceCount(b, k)
  {
    if b == [] {
      assert a + b == a;
    } else {
      SourceCountAppend(a, b[..|b| - 1], k);
      assert (a + b)[..|a + b| - 1] == a + b[..|b| - 1];
    }
  }

  lemma {:induction false} SourceCountNone(s: seq<Entry>, k: string)
    requires forall e :: e in s ==> BucketKey(e) != k
    ensures SourceCount(s, k) == 0
  {
    if s != [] {
      SourceCountNone(s[..|s| - 1], k);
    }
  }

  /** Picking takes no more entries of a source than the candidates offer. */
  lemma {:induction false} TakeAllCount(sel: seq<Entry>, cands: seq<Entry>, quota: int, k: string)
    ensures SourceCount(TakeAll(sel, cands, quota), k) <= SourceCount(sel, k) + SourceCount(cands, k)
  {
    if cands != [] {
      var init := cands[..|cands| - 1];
      var e := cands[|cands| - 1];
      TakeAllCount(sel, init, quota, k);
      Take1Count(TakeAll(sel, init, quota), e, quota, k);
      assert SourceCount(cands, k) == SourceCount(init, k) + (if BucketKey(e) == k then 1 else 0);
    }
  }

  lemma Take1Count(sel: seq<Entry>, e: Entry, quota: int, k: string)
    ensures SourceCount(Take1(sel, e, quota), k) <= SourceCount(sel, k) + (if BucketKey(e) == k then 1 else 0)
  {
    if !(|sel| >= quota || e.index in Indices(sel)) {
      assert (sel + [e])[..|sel|] == sel;
    }
  }

  /** Pieces whose entries all carry their piece's key, with distinct keys: a key has at most
      its own piece's entries. */
  lemma {:induction false} PiecesCount(ps: seq<seq<Entry>>, keys: seq<string>, k: string, cap: nat)
    requires |ps| == |keys|
    requires forall i, j :: 0 <= i < j < |keys| ==> keys[i] != keys[j]
    requires forall i, e :: 0 <= i < |ps| && e in ps[i] ==> BucketKey(e) == keys[i]
    requires forall i :: 0 <= i < |ps| && keys[i] == k ==> |ps[i]| <= cap
    ensures SourceCount(Flatten(ps), k) <= cap
    ensures k !in keys ==> SourceCount(Flatten(ps), k) == 0
  {
    if ps != [] {
      PiecesCount(ps[1..], keys[1..], k, cap);
      SourceCountAppend(ps[0], Flatten(ps[1..]), k);
      if keys[0] == k {
        assert k !in keys[1..];
      } else {
        SourceCountNone(ps[0], k);
      }
    }
  }

  /** Among the candidates of well-formed buckets, a source has at most its cap. */
  lemma CandsCapped(bs: seq<(string, seq<Entry>)>, caps: Caps, k: string)
    requires BucketsOk(bs) && CapFor(caps, k) >= 0
    ensures SourceCount(Cands(bs, caps), k) <= CapFor(caps, k)
  {
    var ps := Pieces(bs, caps);
    var keys := seq(|bs|, i requires 0 <= i < |bs| => bs[i].0);
    forall i | 0 <= i < |ps|
      ensures keys[i] == k ==> |ps[i]| <= CapFor(caps, k)
      ensures forall e :: e in ps[i] ==> BucketKey(e) == keys[i]
    {
      CappedPiece(bs[i], caps);
    }
    PiecesCount(ps, keys, k, CapFor(caps, k));
  }

  /** The first pass takes at most a source's cap of that source's entries (for a cap that is
      not negative); only the fill may add more. */
  lemma FirstPassCapped(xs: seq<Entry>, quota: int, caps: Caps, k: string)
    requires CapFor(caps, k) >= 0
    ensures SourceCount(FirstPass(xs, quota, caps), k) <= CapFor(caps, k)
  {
    BucketsWellFormed(xs);
    CandsCapped(Buckets(xs), caps, k);
    TakeAllCount([], Cands(Buckets(xs), caps), quota, k);
  }

  // ------------------------------------------------------------------
  // The selection loops
  // ------------------------------------------------------------------

  /** Buckets the X entries, picks up to each bucket's cap until the quota is met, then fills
      from all X entries. */
  method SelectX(xs: seq<Entry>, quota: int, caps: Caps) returns (xSelected: seq<Entry>)
    ensures xSelected == XSelection(xs, quota, caps)
  {
    var buckets := BucketEntries(xs);
    var picked;
    xSelected, picked := PickFromBuckets(buckets, caps, quota);
    if |xSelected| < quota {
      xSelected, picked := PickFromBucket(xSelected, picked, xs, quota);
    } else {
      TakeAllFull(xSelected, xs, quota);
    }
  }

  /** The bucketing loop. */
  method BucketEntries(xs: seq<Entry>) returns (buckets: seq<(string, seq<Entry>)>)
    ensures buckets == Buckets(xs)
  {
    buckets := [];
    for i := 0 to |xs|
      invariant buckets == Buckets(xs[..i])
    {
      assert xs[..i + 1][..i] == xs[..i];
      buckets := AddToBucket(buckets, BucketKey(xs[i]), xs[i]);
    }
    assert xs[..|xs|] == xs;
  }

  /** The first pass: bucket after bucket until the quota is met. */
  method PickFromBuckets(buckets: seq<(string, seq<Entry>)>, caps: Caps, quota: int)
    returns (xSelected: seq<Entry>, picked: set<nat>)
    ensures xSelected == TakeAll([], Cands(buckets, caps), quota) && picked == Indices(xSelected)
  {
    xSelected := [];
    picked := {};
    ghost var ps := Pieces(buckets, caps);
    var b := 0;
    while b < |buckets|
      invariant 0 <= b <= |buckets|
      invariant xSelected == TakeAll([], Flatten(ps[..b]), quota)
      invariant picked == Indices(xSelected)
    {
      xSelected, picked := PickFromBucket(xSelected, picked, Capped(buckets[b], caps), quota);
      PiecesStep(ps, b);
      TakeAllAppend([], Flatten(ps[..b]), ps[b], quota);
      b := b + 1;
      if |xSelected| >= quota {
        PiecesRest(ps, b);
        TakeAllAppend([], Flatten(ps[..b]), Flatten(ps[b..]), quota);
        TakeAllFull(xSelected, Flatten(ps[b..]), quota);
        return;
      }
    }
    assert ps[..b] == ps;
  }

  lemma PiecesStep(ps: seq<seq<Entry>>, b: int)
    requires 0 <= b < |ps|
    ensures Flatten(ps[..b + 1]) == Flatten(ps[..b]) + ps[b]
  {
    assert ps[..b + 1] == ps[..b] + [ps[b]];
    FlattenSnoc(ps[..b], ps[b]);
  }

  lemma PiecesRest(ps: seq<seq<Entry>>, b: int)
    requires 0 <= b <= |ps|
    ensures Flatten(ps) == Flatten(ps[..b]) + Flatten(ps[b..])
  {
    assert ps == ps[..b] + ps[b..];
    FlattenAppend(ps[..b], ps[b..]);
  }

  /** The inner loop: walks the candidates, stopping once the quota is met and skipping
      indices already picked. */
  method PickFromBucket(sel: seq<Entry>, picked: set<nat>, cands: seq<Entry>, quota: int)
    returns (sel': seq<Entry>, picked': set<nat>)
    requires picked == Indices(sel)
    ensures sel' == TakeAll(sel, cands, quota) && picked' == Indices(sel')
  {
    sel', picked' := sel, picked;
    var j := 0;
    while j < |cands|
      invariant 0 <= j <= |cands|
      invariant sel' == TakeAll(sel, cands[..j], quota) && picked' == Indices(sel')
    {
      assert cands[..j + 1][..j] == cands[..j];
      if |sel'| >= quota {
        TakeAllAppend(sel, cands[..j], cands[j..], quota);
        assert cands[..j] + cands[j..] == cands;
        TakeAllFull(sel', cands[j..], quota);
        return;
      }
      var entry := cands[j];
      if entry.index !in picked' {
        picked' := picked' + {entry.index};
        sel' := sel' + [entry];
      }
      j := j + 1;
    }
    assert cands[..j] == cands;
  }

  // ------------------------------------------------------------------
  // The selection as a whole
  // ------------------------------------------------------------------

  /** The X entries by metric score, descending (a stable sort). */
  function XSorted(items: seq<Item>): seq<Entry> { SortDesc(XItems(Prep(items)), MetricOf) }

  /** The RSS entries by tier, then recency (a stable sort). */
  function RssSorted(items: seq<Item>): seq<Entry> { SortDesc(RssItems(Prep(items)), RssKey) }

  function SafeMax(items: seq<Item>, maxItems: int): int { MaxItemsSafe(maxItems, |items|) }

  function QuotaPair(items: seq<Item>, maxItems: int, xRatio: Option<real>): (int, int)
  {
    var m := SafeMax(items, maxItems);
    Quotas(m, |XSorted(items)|, |RssSorted(items)|, XTarget(m, xRatio))
  }

  /** `Math.round(maxItemsSafe * X_RATIO)`. */
  function XTarget(m: int, xRatio: Option<real>): (t: int)
    ensures m >= 1 ==> 0 <= t <= m
  {
    if m >= 1 then XTargetRange(m, XRatio(xRatio)); JsRound(m as real * XRatio(xRatio))
    else JsRound(m as real * XRatio(xRatio))
  }

  /** `selected`: the X selection followed by the first RSS entries up to their quota. */
  function Selection(items: seq<Item>, maxItems: int, xRatio: Option<real>, caps: Caps): seq<Entry>
  {
    var (xq, rq) := QuotaPair(items, maxItems, xRatio);
    XSelection(XSorted(items), xq, caps) + SliceTo(RssSorted(items), rq)
  }

  ghost predicate IncreasingIndices(s: seq<Entry>)
  {
    forall i, j :: 0 <= i < j < |s| ==> s[i].index < s[j].index
  }

  lemma {:induction false} XItemsIncreasing(p: seq<Entry>)
    requires IncreasingIndices(p)
    ensures IncreasingIndices(XItems(p))
  {
    if p != [] {
      var init := p[..|p| - 1];
      assert IncreasingIndices(init);
      XItemsIncreasing(init);
      var r := XItems(p);
      if p[|p| - 1].sourceType == "X" {
        forall i | 0 <= i < |r| - 1
          ensures r[i].index < r[|r| - 1].index
        {
          assert r[i] in XItems(init);
        }
      }
    }
  }

  lemma {:induction false} IncreasingDistinct(s: seq<Entry>)
    requires IncreasingIndices(s)
    ensures DistinctIndices(s)
  {
    if s != [] {
      var init := s[..|s| - 1];
      assert IncreasingIndices(init);
      IncreasingDistinct(init);
      IndicesIff(init, s[|s| - 1].index);
    }
  }

  lemma PermutationIndices(a: seq<Entry>, b: seq<Entry>)
    requires multiset(a) == multiset(b)
    ensures Indices(a) == Indices(b) && |a| == |b|
  {
    forall x | x in Indices(a)
      ensures x in Indices(b)
    {
      IndicesIff(a, x);
      IndicesIff(b, x);
      var e :| e in a && e.index == x;
      assert e in multiset(a);
    }
    forall x | x in Indices(b)
      ensures x in Indices(a)
    {
      IndicesIff(a, x);
      IndicesIff(b, x);
      var e :| e in b && e.index == x;
      assert e in multiset(b);
    }
    assert |a| == |multiset(a)| == |multiset(b)| == |b|;
  }

  /** The sorted X entries carry distinct indices. */
  lemma XSortedDistinct(items: seq<Item>)
    ensures DistinctIndices(XSorted(items))
  {
    var p := Prep(items);
    XItemsIncreasing(p);
    IncreasingDistinct(XItems(p));
    PermutationIndices(XItems(p), XSorted(items));
  }

  /** Any X quota within the available X entries is met exactly, by X entries with distinct
      indices. */
  lemma XPartShape(items: seq<Item>, xq: int, caps: Caps)
    requires 0 <= xq <= |XSorted(items)|
    ensures var xsel := XSelection(XSorted(items), xq, caps);
            |xsel| == xq && DistinctIndices(xsel) &&
            forall e :: e in xsel ==> e in Prep(items) && e.sourceType == "X"
  {
    var xs := XSorted(items);
    XSortedDistinct(items);
    CandsFromEntries(xs, caps);
    XSelectionExact(xs, xq, caps);
    forall e | e in XSelection(xs, xq, caps)
      ensures e in Prep(items) && e.sourceType == "X"
    {
      assert e in multiset(xs);
      assert e in XItems(Prep(items));
    }
  }

  /** The quotas fit the available entries and add up to `min(maxItemsSafe, n)`. */
  lemma QuotaPairShape(items: seq<Item>, maxItems: int, xRatio: Option<real>)
    ensures var (xq, rq) := QuotaPair(items, maxItems, xRatio);
            0 <= xq <= |XSorted(items)| && 0 <= rq <= |RssSorted(items)| &&
            xq + rq == Min(SafeMax(items, maxItems), |items|)
  {
    var m := SafeMax(items, maxItems);
    var nx, nr := |XSorted(items)|, |RssSorted(items)|;
    QuotasSplit(m, nx, nr, XTarget(m, xRatio));
    PartitionSizes(Prep(items));
  }

  /** The node ranks `min(maxItemsSafe, n)` entries; the X part has exactly its quota of X
      entries with distinct indices. */
  lemma SelectionShape(items: seq<Item>, maxItems: int, xRatio: Option<real>, caps: Caps)
    ensures var (xq, rq) := QuotaPair(items, maxItems, xRatio);
            var xsel := XSelection(XSorted(items), xq, caps);
            |xsel| == xq && DistinctIndices(xsel) &&
            (forall e :: e in xsel ==> e in Prep(items) && e.sourceType == "X") &&
            |Selection(items, maxItems, xRatio, caps)| == Min(SafeMax(items, maxItems), |items|)
  {
    var (xq, rq) := QuotaPair(items, maxItems, xRatio);
    QuotaPairShape(items, maxItems, xRatio);
    XPartShape(items, xq, caps);
    var xsel := XSelection(XSorted(items), xq, caps);
    var rsel := SliceTo(RssSorted(items), rq);
    assert Selection(items, maxItems, xRatio, caps) == xsel + rsel;
    assert |rsel| == rq;
  }

  lemma SelectionSize(items: seq<Item>, maxItems: int, xRatio: Option<real>, caps: Caps)
    ensures |Selection(items, maxItems, xRatio, caps)| == Min(SafeMax(items, maxItems), |items|)
  {
    SelectionShape(items, maxItems, xRatio, caps);
  }
}
