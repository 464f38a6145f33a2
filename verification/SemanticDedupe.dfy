/** The semantic dedupe node: drops an item whose embedding is close (by cosine
    similarity) to a stored embedding or to one accepted earlier in the same run, and keeps
    a bounded, expiring embedding store in workflow static data and in a file. */
module SemanticDedupe {
  import opened Common

  const DefaultThreshold: real := 0.85
  const DefaultExpiryDays := 7
  const DefaultMaxEmbeddings := 500
  const DefaultBatchSize := 20
  const MinTextLength := 10
  const MaxTextLength := 500
  const MsPerDay := 24 * 60 * 60 * 1000

  /** The expiry window in milliseconds for an expiry in days. */
  function ExpiryMs(days: int): int { days * MsPerDay }

  /** The fields of an input item this node reads; "" stands for a missing field. */
  datatype Item = Item(url: string, title: string, text: string, snippet: string, description: string, summary: string)

  /** A stored embedding. `id` "" is a missing id; `embedding` None is a value that is not
      an array; `timestamp` None is a missing timestamp. */
  datatype EmbRecord = EmbRecord(id: string, embedding: Option<seq<real>>, title: string, timestamp: Option<int>)

  // ------------------------------------------------------------------
  // Cosine similarity, compared against a threshold in exact arithmetic
  // ------------------------------------------------------------------

  function Dot(a: seq<real>, b: seq<real>): real
    requires |a| == |b|
  {
    if a == [] then 0.0 else Dot(a[..|a| - 1], b[..|b| - 1]) + a[|a| - 1] * b[|b| - 1]
  }

  lemma {:induction false} DotSymmetric(a: seq<real>, b: seq<real>)
    requires |a| == |b|
    ensures Dot(a, b) == Dot(b, a)
  {
    if a != [] { DotSymmetric(a[..|a| - 1], b[..|b| - 1]); }
  }

  lemma {:induction false} NormNonNegative(a: seq<real>)
    ensures Dot(a, a) >= 0.0
  {
    if a != [] { NormNonNegative(a[..|a| - 1]); }
  }

  /** `cosineSimilarity(a, b) >= t`. The similarity is 0 when the lengths differ or a norm
      is 0; otherwise it is `dot / sqrt(|a|^2 |b|^2)`, compared here through squares. */
  predicate CosineAtLeast(a: seq<real>, b: seq<real>, t: real)
  {
    if |a| != |b| || Dot(a, a) == 0.0 || Dot(b, b) == 0.0 then 0.0 >= t
    else
      var d := Dot(a, b);
      var p := Dot(a, a) * Dot(b, b);
      if t > 0.0 then d >= 0.0 && Sq(d) >= Sq(t) * p
      else d >= 0.0 || Sq(d) <= Sq(t) * p
  }

  /** The similarity test of the main loop; an operand that is not an array scores 0. */
  predicate Similar(a: Option<seq<real>>, b: Option<seq<real>>, t: real)
  {
    if a.None? || b.None? then 0.0 >= t else CosineAtLeast(a.value, b.value, t)
  }

  function Sq(x: real): real { x * x }

  lemma PosProduct(a: real, b: real)
    requires a > 0.0 && b > 0.0
    ensures a * b > 0.0
  {
  }

  lemma NonNegProduct(a: real, b: real)
    requires a >= 0.0 && b >= 0.0
    ensures a * b >= 0.0
  {
    if a > 0.0 && b > 0.0 { PosProduct(a, b); }
  }

  lemma SqMul(a: real, b: real)
    ensures Sq(a * b) == Sq(a) * Sq(b)
  {
  }

  lemma SqNeg(x: real)
    ensures Sq(-x) == Sq(x)
  {
  }

  /** Squaring is monotone on non-negative reals (argued through `y^2 - x^2 = (y - x)(y + x)`). */
  lemma SquareMonotone(x: real, y: real)
    requires x >= 0.0 && y >= 0.0
    ensures x >= y <==> Sq(x) >= Sq(y)
  {
    if x < y {
      PosProduct(y - x, y + x);
      assert (y - x) * (y + x) == y * y - x * x;
    } else if x > y {
      PosProduct(x - y, x + y);
      assert (x - y) * (x + y) == x * x - y * y;
    }
  }

  lemma SqPos(n: real)
    requires n > 0.0
    ensures Sq(n) > 0.0
  {
    SquareMonotone(0.0, n);
  }

  lemma DivByPositive(d: real, t: real, s: real)
    requires s > 0.0
    ensures d / s >= t <==> d >= t * s
  {
    var q := d / s;
    assert q * s == d;
    if q >= t {
      NonNegProduct(q - t, s);
      assert (q - t) * s == q * s - t * s;
    } else {
      PosProduct(t - q, s);
      assert (t - q) * s == t * s - q * s;
    }
  }

  /** The squared comparison used by `CosineAtLeast` agrees with `d / s >= t` for any
      `s > 0` with `s^2 == p`. */
  lemma SquaredComparison(d: real, t: real, s: real, p: real)
    requires s > 0.0 && Sq(s) == p
    ensures (if t > 0.0 then d >= 0.0 && Sq(d) >= Sq(t) * p else d >= 0.0 || Sq(d) <= Sq(t) * p)
            <==> d / s >= t
  {
    DivByPositive(d, t, s);
    var u := t * s;
    SqMul(t, s);
    if t > 0.0 {
      PosProduct(t, s);
      if d >= 0.0 { SquareMonotone(d, u); }
    } else {
      NonNegProduct(-t, s);
      if d < 0.0 {
        assert (-t) * s == -u;
        SquareMonotone(-u, -d);
        SqNeg(u);
        SqNeg(d);
      }
    }
  }

  lemma SelfComparison(n: real, t: real)
    requires n > 0.0 && t <= 1.0
    ensures if t > 0.0 then n >= 0.0 && Sq(n) >= Sq(t) * (n * n) else n >= 0.0 || Sq(n) <= Sq(t) * (n * n)
  {
    if t > 0.0 {
      SquareMonotone(1.0, t);
      assert Sq(1.0) == 1.0;
      PosProduct(n, n);
      NonNegProduct(n * n, 1.0 - Sq(t));
      assert (n * n) * (1.0 - Sq(t)) == n * n - Sq(t) * (n * n);
    }
  }

  /** For `s` the product of the two norms (`s^2 == |a|^2 |b|^2`), the squared test
      agrees with `dot / s >= t`. */
  lemma CosineAtLeastMeans(a: seq<real>, b: seq<real>, t: real, s: real)
    requires |a| == |b| && Dot(a, a) != 0.0 && Dot(b, b) != 0.0
    requires s > 0.0 && Sq(s) == Dot(a, a) * Dot(b, b)
    ensures CosineAtLeast(a, b, t) <==> Dot(a, b) / s >= t
  {
    SquaredComparison(Dot(a, b), t, s, Dot(a, a) * Dot(b, b));
  }

  /** The guards: different lengths or a zero vector give similarity 0. */
  lemma CosineGuards(a: seq<real>, b: seq<real>, t: real)
    requires |a| != |b| || Dot(a, a) == 0.0 || Dot(b, b) == 0.0
    ensures CosineAtLeast(a, b, t) <==> 0.0 >= t
  {
  }

  lemma CosineSymmetric(a: seq<real>, b: seq<real>, t: real)
    ensures CosineAtLeast(a, b, t) <==> CosineAtLeast(b, a, t)
  {
    if |a| == |b| {
      DotSymmetric(a, b);
      assert Dot(a, a) * Dot(b, b) == Dot(b, b) * Dot(a, a);
    }
  }

  /** A non-zero vector is at similarity 1 with itself, so it reaches any threshold <= 1. */
  lemma CosineSelf(a: seq<real>, t: real)
    requires Dot(a, a) != 0.0 && t <= 1.0
    ensures CosineAtLeast(a, a, t)
  {
    NormNonNegative(a);
    SelfComparison(Dot(a, a), t);
  }

  /** `cosineSimilarity(a, b) >= t` computed with the source's accumulation loop. */
  method SimilarityReaches(a: Option<seq<real>>, b: Option<seq<real>>, t: real) returns (r: bool)
    ensures r == Similar(a, b, t)
  {
    if a.None? || b.None? || |a.value| != |b.value| {
      return 0.0 >= t;
    }
    var x, y := a.value, b.value;
    var dot, normA, normB := 0.0, 0.0, 0.0;
    var i := 0;
    while i < |x|
      invariant 0 <= i <= |x|
      invariant dot == Dot(x[..i], y[..i])
      invariant normA == Dot(x[..i], x[..i])
      invariant normB == Dot(y[..i], y[..i])
    {
      assert x[..i + 1][..i] == x[..i] && y[..i + 1][..i] == y[..i];
      dot := dot + x[i] * y[i];
      normA := normA + x[i] * x[i];
      normB := normB + y[i] * y[i];
      i := i + 1;
    }
    assert x[..i] == x && y[..i] == y;
    if normA == 0.0 || normB == 0.0 {
      return 0.0 >= t;
    }
    var p := normA * normB;
    if t > 0.0 {
      r := dot >= 0.0 && Sq(dot) >= Sq(t) * p;
    } else {
      r := dot >= 0.0 || Sq(dot) <= Sq(t) * p;
    }
  }

  // ------------------------------------------------------------------
  // Content text and content id
  // ------------------------------------------------------------------

  /** `data.title || data.text || ''`. */
  function TitleOf(it: Item): string
  {
    if it.title != "" then it.title else it.text
  }

  /** `data.snippet || data.description || data.summary || ''`. */
  function SnippetOf(it: Item): string
  {
    if it.snippet != "" then it.snippet else if it.description != "" then it.description else it.summary
  }

  /** The text sent for embedding: trimmed title, a newline, trimmed snippet, cut to
      500 characters. */
  function ContentText(it: Item): (r: string)
    ensures |r| == Min(|Trim(TitleOf(it)) + "\n" + Trim(SnippetOf(it))|, MaxTextLength)
    ensures r == (Trim(TitleOf(it)) + "\n" + Trim(SnippetOf(it)))[..|r|]
  {
    SliceTo(Trim(TitleOf(it)) + "\n" + Trim(SnippetOf(it)), MaxTextLength)
  }

  /** The UTF-16 code units of one character, as `charCodeAt` sees them. */
  function CodeUnits(c: char): (r: seq<int>)
    ensures 1 <= |r| <= 2
    ensures forall k :: 0 <= k < |r| ==> 0 <= r[k] < 0x1_0000
  {
    var v := c as int;
    if v < 0x1_0000 then [v]
    else [0xD800 + (v - 0x1_0000) / 0x400, 0xDC00 + (v - 0x1_0000) % 0x400]
  }

  function Utf16(s: string): seq<int>
  {
    if s == [] then [] else Utf16(s[..|s| - 1]) + CodeUnits(s[|s| - 1])
  }

  /** One step of the hash: `hash = ((hash << 5) - hash) + char; hash = hash & hash`. */
  function HashStep(h: int, c: int): (r: int)
    ensures -0x8000_0000 <= r < 0x8000_0000
    ensures (r - (31 * h + c)) % 0x1_0000_0000 == 0
  {
    var shifted := ToInt32(h * 32);
    ToInt32(shifted - h + c)
  }

  function HashUnits(units: seq<int>): int
  {
    if units == [] then 0 else HashStep(HashUnits(units[..|units| - 1]), units[|units| - 1])
  }

  /** The 32-bit hash of a url, as the content id uses it. */
  function UrlHash(url: string): (r: int)
    ensures -0x8000_0000 <= r < 0x8000_0000
  {
    HashUnits(Utf16(url))
  }

  function Digit36(d: nat): char
    requires d < 36
  {
    if d < 10 then ('0' as int + d) as char else ('a' as int + d - 10) as char
  }

  function DigitValue36(c: char): int
  {
    if '0' <= c <= '9' then c as int - '0' as int else c as int - 'a' as int + 10
  }

  /** `n.toString(36)`. */
  function Base36(n: nat): string
  {
    if n < 36 then [Digit36(n)] else Base36(n / 36) + [Digit36(n % 36)]
  }

  function ParseBase36(s: string): int
  {
    if s == [] then 0 else ParseBase36(s[..|s| - 1]) * 36 + DigitValue36(s[|s| - 1])
  }

  /** The base-36 text reads back as the number, so distinct numbers give distinct text. */
  lemma {:induction false} Base36RoundTrip(n: nat)
    ensures ParseBase36(Base36(n)) == n
  {
    if n >= 36 {
      Base36RoundTrip(n / 36);
      var s := Base36(n);
      assert s[..|s| - 1] == Base36(n / 36);
    }
  }

  lemma {:induction false} Base36Length(n: nat, k: nat)
    requires n < Pow36(k) && k >= 1
    ensures |Base36(n)| <= k
  {
    if n >= 36 {
      assert k >= 2;
      assert Pow36(k) == 36 * Pow36(k - 1);
      Base36Length(n / 36, k - 1);
    }
  }

  function Pow36(k: nat): nat
  {
    if k == 0 then 1 else 36 * Pow36(k - 1)
  }

  /** `emb_` followed by the base-36 text of the absolute hash. */
  function UrlId(url: string): string
  {
    "emb_" + Base36(Abs(UrlHash(url)))
  }

  /** Content ids: the `emb_` prefix, at most six base-36 digits (the absolute value of a
      32-bit hash is at most 2^31), and two urls get the same id exactly when their
      hashes have the same absolute value. */
  lemma UrlIdShape(u: string, v: string)
    ensures |UrlId(u)| <= 10 && UrlId(u)[..4] == "emb_"
    ensures UrlId(u) == UrlId(v) <==> Abs(UrlHash(u)) == Abs(UrlHash(v))
  {
    assert Pow36(6) == 2176782336;
    Base36Length(Abs(UrlHash(u)), 6);
    if UrlId(u) == UrlId(v) {
      assert Base36(Abs(UrlHash(u))) == UrlId(u)[4..] == UrlId(v)[4..] == Base36(Abs(UrlHash(v)));
      Base36RoundTrip(Abs(UrlHash(u)));
      Base36RoundTrip(Abs(UrlHash(v)));
    }
  }

  /** `getContentId`: the hash loop over the url's UTF-16 code units. */
  method ContentId(url: string) returns (id: string)
    ensures id == UrlId(url)
  {
    var units := Utf16(url);
    var hash := 0;
    var i := 0;
    while i < |units|
      invariant 0 <= i <= |units|
      invariant hash == HashUnits(units[..i])
    {
      assert units[..i + 1][..i] == units[..i];
      hash := ToInt32(ToInt32(hash * 32) - hash + units[i]);
      i := i + 1;
    }
    assert units[..i] == units;
    id := "emb_" + Base36(Abs(hash));
  }

  // ------------------------------------------------------------------
  // Merging the static-data store with the file store
  // ------------------------------------------------------------------

  /** `entry.timestamp || 0`. */
  function TsOr0(e: EmbRecord): int
  {
    if e.timestamp.Some? then e.timestamp.value else 0
  }

  /** An incoming entry the merge considers: it has an id and an array embedding. */
  predicate Acceptable(e: EmbRecord)
  {
    e.id != "" && e.embedding.Some?
  }

  /** The Map after the base entries: each entry with an id is set under it. */
  function MergeBase(base: seq<EmbRecord>): seq<(string, EmbRecord)>
  {
    if base == [] then []
    else
      var m := MergeBase(base[..|base| - 1]);
      var e := base[|base| - 1];
      if e.id == "" then m else Put(m, e.id, e)
  }

  /** The Map after the incoming entries: an acceptable entry is set when its id is new or
      it is strictly newer than the entry held. */
  function MergeIncoming(m: seq<(string, EmbRecord)>, incoming: seq<EmbRecord>): seq<(string, EmbRecord)>
  {
    if incoming == [] then m
    else
      var m' := MergeIncoming(m, incoming[..|incoming| - 1]);
      var e := incoming[|incoming| - 1];
      if !Acceptable(e) then m'
      else
        var existing := Lookup(m', e.id);
        if existing.None? || TsOr0(e) > TsOr0(existing.value) then Put(m', e.id, e) else m'
  }

  function Values(m: seq<(string, EmbRecord)>): (r: seq<EmbRecord>)
    ensures |r| == |m|
    ensures forall i :: 0 <= i < |m| ==> r[i] == m[i].1
  {
    if m == [] then [] else [m[0].1] + Values(m[1..])
  }

  function Merge(base: seq<EmbRecord>, incoming: seq<EmbRecord>): seq<EmbRecord>
  {
    Values(MergeIncoming(MergeBase(base), incoming))
  }

  /** `mergeEmbeddings`: two forEach passes over a Map keyed by id. */
  method MergeEmbeddings(base: seq<EmbRecord>, incoming: seq<EmbRecord>) returns (merged: seq<EmbRecord>)
    ensures merged == Merge(base, incoming)
  {
    var byId: seq<(string, EmbRecord)> := [];
    var i := 0;
    while i < |base|
      invariant 0 <= i <= |base|
      invariant byId == MergeBase(base[..i])
    {
      assert base[..i + 1][..i] == base[..i];
      if base[i].id != "" {
        byId := Put(byId, base[i].id, base[i]);
      }
      i := i + 1;
    }
    assert base[..i] == base;
    var j := 0;
    while j < |incoming|
      invariant 0 <= j <= |incoming|
      invariant byId == MergeIncoming(MergeBase(base), incoming[..j])
    {
      assert incoming[..j + 1][..j] == incoming[..j];
      var entry := incoming[j];
      if Acceptable(entry) {
        var existing := Lookup(byId, entry.id);
        if existing.None? || TsOr0(entry) > TsOr0(existing.value) {
          byId := Put(byId, entry.id, entry);
        }
      }
      j := j + 1;
    }
    assert incoming[..j] == incoming;
    merged := Values(byId);
  }

  /** Every key of the Map is the id of the entry stored under it. */
  ghost predicate KeyedById(m: seq<(string, EmbRecord)>)
  {
    forall i :: 0 <= i < |m| ==> m[i].1.id == m[i].0 && m[i].0 != ""
  }

  lemma {:induction false} PutKeyedById(m: seq<(string, EmbRecord)>, e: EmbRecord)
    requires KeyedById(m) && e.id != ""
    ensures KeyedById(Put(m, e.id, e))
  {
    if m != [] && m[0].0 != e.id {
      PutKeyedById(m[1..], e);
    }
  }

  lemma {:induction false} MergeBaseWellFormed(base: seq<EmbRecord>)
    ensures DistinctKeys(MergeBase(base)) && KeyedById(MergeBase(base))
  {
    if base != [] {
      var m := MergeBase(base[..|base| - 1]);
      MergeBaseWellFormed(base[..|base| - 1]);
      var e := base[|base| - 1];
      if e.id != "" {
        PutDistinct(m, e.id, e);
        PutKeyedById(m, e);
      }
    }
  }

  lemma {:induction false} MergeIncomingWellFormed(m: seq<(string, EmbRecord)>, incoming: seq<EmbRecord>)
    requires DistinctKeys(m) && KeyedById(m)
    ensures DistinctKeys(MergeIncoming(m, incoming)) && KeyedById(MergeIncoming(m, incoming))
  {
    if incoming != [] {
      var m' := MergeIncoming(m, incoming[..|incoming| - 1]);
      MergeIncomingWellFormed(m, incoming[..|incoming| - 1]);
      var e := incoming[|incoming| - 1];
      if Acceptable(e) {
        PutDistinct(m', e.id, e);
        PutKeyedById(m', e);
      }
    }
  }

  /** The merged list has pairwise distinct, non-empty ids. */
  lemma MergeIdsUnique(base: seq<EmbRecord>, incoming: seq<EmbRecord>)
    ensures var r := Merge(base, incoming);
            forall i, j :: 0 <= i < j < |r| ==> r[i].id != r[j].id && r[i].id != ""
  {
    MergeBaseWellFormed(base);
    MergeIncomingWellFormed(MergeBase(base), incoming);
  }

  /** After the incoming pass the entry held under an id is at least as new as every
      acceptable incoming entry with that id, and it is either the entry held before or an
      acceptable incoming entry strictly newer than it. */
  lemma {:induction false} MergeRecencyWins(m: seq<(string, EmbRecord)>, incoming: seq<EmbRecord>, k: string)
    ensures var r := MergeIncoming(m, incoming);
            && (forall e :: e in incoming && Acceptable(e) && e.id == k ==>
                  Lookup(r, k).Some? && TsOr0(Lookup(r, k).value) >= TsOr0(e))
            && (Lookup(m, k).Some? ==> Lookup(r, k).Some? && TsOr0(Lookup(r, k).value) >= TsOr0(Lookup(m, k).value))
            && (Lookup(r, k).Some? && Lookup(r, k) != Lookup(m, k) ==>
                  Lookup(r, k).value in incoming && Acceptable(Lookup(r, k).value)
                  && (Lookup(m, k).Some? ==> TsOr0(Lookup(r, k).value) > TsOr0(Lookup(m, k).value)))
  {
    if incoming != [] {
      var init := incoming[..|incoming| - 1];
      var m' := MergeIncoming(m, init);
      MergeRecencyWins(m, init, k);
      var e := incoming[|incoming| - 1];
      if Acceptable(e) {
        PutLookup(m', e.id, e);
      }
      forall x | x in incoming && Acceptable(x) && x.id == k
        ensures Lookup(MergeIncoming(m, incoming), k).Some?
        ensures TsOr0(Lookup(MergeIncoming(m, incoming), k).value) >= TsOr0(x)
      {
        if x != e { assert x in init; }
      }
    }
  }

  // ------------------------------------------------------------------
  // Expiry and eviction of the store
  // ------------------------------------------------------------------

  /** `(now - e.timestamp) < expiryMs`; a missing timestamp makes the difference NaN. */
  predicate Unexpired(e: EmbRecord, now: int, expiryMs: int)
  {
    e.timestamp.Some? && now - e.timestamp.value < expiryMs
  }

  function Expire(store: seq<EmbRecord>, now: int, expiryMs: int): (r: seq<EmbRecord>)
    ensures |r| <= |store|
  {
    if store == [] then []
    else Expire(store[..|store| - 1], now, expiryMs)
         + (if Unexpired(store[|store| - 1], now, expiryMs) then [store[|store| - 1]] else [])
  }

  /** Expiry keeps exactly the entries strictly younger than `expiryMs`, in order. */
  lemma {:induction false} ExpireKeepsIff(store: seq<EmbRecord>, now: int, expiryMs: int)
    ensures forall e :: e in Expire(store, now, expiryMs) <==> e in store && Unexpired(e, now, expiryMs)
  {
    if store != [] {
      ExpireKeepsIff(store[..|store| - 1], now, expiryMs);
      assert store == store[..|store| - 1] + [store[|store| - 1]];
    }
  }

  function TsKey(e: EmbRecord): real
  {
    TsOr0(e) as real
  }

  /** `sort((a, b) => b.timestamp - a.timestamp).slice(0, max)` when over the cap. */
  function EvictOldest(store: seq<EmbRecord>, maxEmbeddings: int): seq<EmbRecord>
  {
    if |store| > maxEmbeddings then SliceTo(SortDesc(store, TsKey), maxEmbeddings) else store
  }

  /** Eviction leaves `min(|store|, maxEmbeddings)` entries (a negative cap cuts from the
      back instead), all taken from the store. */
  lemma EvictSize(store: seq<EmbRecord>, maxEmbeddings: int)
    ensures var r := EvictOldest(store, maxEmbeddings);
            && (maxEmbeddings >= 0 ==> |r| == Min(|store|, maxEmbeddings))
            && (maxEmbeddings < 0 ==> |r| == Max(0, |store| + maxEmbeddings))
            && multiset(r) <= multiset(store)
  {
    if |store| > maxEmbeddings {
      var sorted := SortDesc(store, TsKey);
      var r := SliceTo(sorted, maxEmbeddings);
      assert sorted == r + sorted[|r|..];
      assert multiset(sorted) == multiset(r) + multiset(sorted[|r|..]);
    }
  }

  /** Eviction keeps the newest entries: no entry it drops is newer than one it keeps. */
  lemma EvictKeepsNewest(store: seq<EmbRecord>, maxEmbeddings: int)
    ensures var r := EvictOldest(store, maxEmbeddings);
            forall d, e :: d in multiset(store) - multiset(r) && e in r ==> TsOr0(d) <= TsOr0(e)
  {
    if |store| > maxEmbeddings {
      var sorted := SortDesc(store, TsKey);
      var r := SliceTo(sorted, maxEmbeddings);
      var dropped := sorted[|r|..];
      assert sorted == r + dropped;
      assert multiset(store) - multiset(r) == multiset(dropped);
      SortedSplit(sorted, TsKey, |r|);
      forall d, e | d in multiset(dropped) && e in r ensures TsOr0(d) <= TsOr0(e) {
        assert d in dropped;
        assert TsKey(d) <= TsKey(e);
      }
    }
  }

  // ------------------------------------------------------------------
  // Items with content text, and their embeddings
  // ------------------------------------------------------------------

  /** An element of `itemsWithText`: the item, its content text and its content id. */
  datatype Entry = Entry(item: Item, text: string, id: string)

  function EntryOf(it: Item): Entry
  {
    Entry(it, ContentText(it), UrlId(it.url))
  }

  /** The items whose content text is longer than 10 characters, in input order. */
  function Entries(items: seq<Item>): (r: seq<Entry>)
    ensures |r| <= |items|
  {
    if items == [] then []
    else
      var it := items[|items| - 1];
      Entries(items[..|items| - 1]) + (if |ContentText(it)| > MinTextLength then [EntryOf(it)] else [])
  }

  /** Every entry is made from an input item with more than 10 characters of content text
      (and, next lemma, every such item has its entry). */
  lemma {:induction false} EntriesSound(items: seq<Item>)
    ensures forall e :: e in Entries(items) ==> e == EntryOf(e.item) && e.item in items && |e.text| > MinTextLength
  {
    if items != [] {
      var init := items[..|items| - 1];
      EntriesSound(init);
      assert items == init + [items[|items| - 1]];
    }
  }

  lemma {:induction false} EntriesComplete(items: seq<Item>)
    ensures forall it :: it in items && |ContentText(it)| > MinTextLength ==> EntryOf(it) in Entries(items)
  {
    if items != [] {
      var init := items[..|items| - 1];
      EntriesComplete(init);
      assert items == init + [items[|items| - 1]];
    }
  }

  function ItemsOf(entries: seq<Entry>): (r: seq<Item>)
    ensures |r| == |entries|
    ensures forall i :: 0 <= i < |entries| ==> r[i] == entries[i].item
  {
    if entries == [] then [] else ItemsOf(entries[..|entries| - 1]) + [entries[|entries| - 1].item]
  }

  function TextsOf(entries: seq<Entry>): (r: seq<string>)
    ensures |r| == |entries|
  {
    if entries == [] then [] else TextsOf(entries[..|entries| - 1]) + [entries[|entries| - 1].text]
  }

  /** The embeddings of all batches, concatenated in batch order. `embed` is the
      embeddings service: one vector per text of the request, an empty vector for an
      unusable element, and no vector at all for a failed request. */
  function EmbedAll(batches: seq<seq<string>>, embed: seq<string> -> seq<seq<real>>): seq<seq<real>>
  {
    if batches == [] then []
    else EmbedAll(batches[..|batches| - 1], embed) + embed(batches[|batches| - 1])
  }

  /** When no reply is longer than its request, the embeddings are at most as many as the
      texts, and as many only if every request was answered in full. */
  lemma {:induction false} EmbedAllCount(batches: seq<seq<string>>, embed: seq<string> -> seq<seq<real>>)
    requires forall k :: 0 <= k < |batches| ==> |embed(batches[k])| <= |batches[k]|
    ensures |EmbedAll(batches, embed)| <= |Flatten(batches)|
    ensures |EmbedAll(batches, embed)| == |Flatten(batches)| ==>
              forall k :: 0 <= k < |batches| ==> |embed(batches[k])| == |batches[k]|
  {
    if batches != [] {
      var init := batches[..|batches| - 1];
      var last := batches[|batches| - 1];
      EmbedAllCount(init, embed);
      assert batches == init + [last];
      FlattenSnoc(init, last);
    }
  }

  /** A failed request (an empty reply to a non-empty batch) always shows up as a count
      mismatch, which makes the node pass its input through. */
  lemma FailedRequestMismatch(texts: seq<string>, batchSize: nat, embed: seq<string> -> seq<seq<real>>, k: int)
    requires batchSize >= 1
    requires forall b :: |embed(b)| <= |b|
    requires 0 <= k < |Batches(texts, batchSize)| && embed(Batches(texts, batchSize)[k]) == []
    ensures |EmbedAll(Batches(texts, batchSize), embed)| < |texts|
  {
    var bs := Batches(texts, batchSize);
    EmbedAllCount(bs, embed);
    assert |bs[k]| >= 1;
  }

  /** When every request is answered in full, there is one embedding per text. */
  lemma FullRepliesMatch(texts: seq<string>, batchSize: nat, embed: seq<string> -> seq<seq<real>>)
    requires batchSize >= 1
    requires forall b :: |embed(b)| == |b|
    ensures |EmbedAll(Batches(texts, batchSize), embed)| == |texts|
  {
    FullRepliesCount(Batches(texts, batchSize), embed);
  }

  lemma {:induction false} FullRepliesCount(batches: seq<seq<string>>, embed: seq<string> -> seq<seq<real>>)
    requires forall b :: |embed(b)| == |b|
    ensures |EmbedAll(batches, embed)| == |Flatten(batches)|
  {
    if batches != [] {
      var init := batches[..|batches| - 1];
      FullRepliesCount(init, embed);
      assert batches == init + [batches[|batches| - 1]];
      FlattenSnoc(init, batches[|batches| - 1]);
    }
  }

  /** The batching loop: `for (const batch of chunk(allTexts, BATCH_SIZE))`, appending each
      reply. */
  method FetchEmbeddings(texts: seq<string>, batchSize: nat, embed: seq<string> -> seq<seq<real>>)
    returns (all: seq<seq<real>>)
    requires batchSize >= 1
    ensures all == EmbedAll(Batches(texts, batchSize), embed)
  {
    var batches := Chunk(texts, batchSize);
    all := [];
    var i := 0;
    while i < |batches|
      invariant 0 <= i <= |batches|
      invariant all == EmbedAll(batches[..i], embed)
    {
      assert batches[..i + 1][..i] == batches[..i];
      all := all + embed(batches[i]);
      i := i + 1;
    }
    assert batches[..i] == batches;
  }

  // ------------------------------------------------------------------
  // The comparison loop
  // ------------------------------------------------------------------

  /** Some entry of `list` reaches the threshold against `emb`. */
  predicate AnySimilar(emb: seq<real>, list: seq<EmbRecord>, t: real)
  {
    exists i :: 0 <= i < |list| && Similar(Some(emb), list[i].embedding, t)
  }

  /** One inner loop of the comparison: stops at the first entry that reaches the threshold. */
  method FindSimilar(emb: seq<real>, list: seq<EmbRecord>, t: real) returns (found: bool)
    ensures found == AnySimilar(emb, list, t)
  {
    found := false;
    var i := 0;
    while i < |list|
      invariant 0 <= i <= |list|
      invariant !found
      invariant forall j :: 0 <= j < i ==> !Similar(Some(emb), list[j].embedding, t)
    {
      var hit := SimilarityReaches(Some(emb), list[i].embedding, t);
      if hit {
        found := true;
        break;
      }
      i := i + 1;
    }
  }

  /** The record stored for an accepted entry: its title falls back to the first 80
      characters of the content text. */
  function NewRecord(e: Entry, emb: seq<real>, now: int): EmbRecord
  {
    EmbRecord(e.id, Some(emb), if e.item.title != "" then e.item.title else SliceTo(e.text, 80), Some(now))
  }

  /** The state of the comparison loop: items emitted, duplicates counted, records accepted. */
  datatype ScanState = ScanState(unique: seq<Item>, duplicates: nat, accepted: seq<EmbRecord>)

  /** The comparison loop over the entries, `embs[i]` being the embedding of entry `i`.
      An entry without an embedding is emitted and not stored; one that reaches the
      threshold against a stored record or a record accepted earlier in the run is a
      duplicate; any other is emitted and its record accepted. */
  function Scan(entries: seq<Entry>, embs: seq<seq<real>>, history: seq<EmbRecord>, now: int, t: real): ScanState
    requires |entries| == |embs|
  {
    if entries == [] then ScanState([], 0, [])
    else
      var n := |entries| - 1;
      var s := Scan(entries[..n], embs[..n], history, now, t);
      var e, emb := entries[n], embs[n];
      if emb == [] then s.(unique := s.unique + [e.item])
      else if AnySimilar(emb, history, t) || AnySimilar(emb, s.accepted, t) then s.(duplicates := s.duplicates + 1)
      else ScanState(s.unique + [e.item], s.duplicates, s.accepted + [NewRecord(e, emb, now)])
  }

  /** The loop of the main body, with the two inner searches. */
  method ScanEntries(entries: seq<Entry>, embs: seq<seq<real>>, history: seq<EmbRecord>, now: int, t: real)
    returns (unique: seq<Item>, duplicates: nat, accepted: seq<EmbRecord>)
    requires |entries| == |embs|
    ensures ScanState(unique, duplicates, accepted) == Scan(entries, embs, history, now, t)
  {
    unique, duplicates, accepted := [], 0, [];
    var i := 0;
    while i < |entries|
      invariant 0 <= i <= |entries|
      invariant ScanState(unique, duplicates, accepted) == Scan(entries[..i], embs[..i], history, now, t)
    {
      assert entries[..i + 1][..i] == entries[..i] && embs[..i + 1][..i] == embs[..i];
      var emb := embs[i];
      if emb == [] {
        unique := unique + [entries[i].item];
      } else {
        var isDuplicate := FindSimilar(emb, history, t);
        if !isDuplicate {
          isDuplicate := FindSimilar(emb, accepted, t);
        }
        if isDuplicate {
          duplicates := duplicates + 1;
        } else {
          unique := unique + [entries[i].item];
          accepted := accepted + [NewRecord(entries[i], emb, now)];
        }
      }
      i := i + 1;
    }
    assert entries[..i] == entries && embs[..i] == embs;
  }

  /** The number of entries that received no embedding. */
  function EmptyCount(embs: seq<seq<real>>): nat
  {
    if embs == [] then 0 else EmptyCount(embs[..|embs| - 1]) + (if embs[|embs| - 1] == [] then 1 else 0)
  }

  /** Every entry is emitted or counted as a duplicate; the emitted ones are the accepted
      ones plus those without an embedding. */
  lemma {:induction false} ScanCounts(entries: seq<Entry>, embs: seq<seq<real>>, history: seq<EmbRecord>, now: int, t: real)
    requires |entries| == |embs|
    ensures var s := Scan(entries, embs, history, now, t);
            && |s.unique| + s.duplicates == |entries|
            && |s.unique| == |s.accepted| + EmptyCount(embs)
  {
    if entries != [] {
      var n := |entries| - 1;
      ScanCounts(entries[..n], embs[..n], history, now, t);
    }
  }

  /** Every accepted record carries a non-empty embedding and the timestamp `now`, and was
      made from one of the entries. */
  lemma {:induction false} ScanAcceptedShape(entries: seq<Entry>, embs: seq<seq<real>>, history: seq<EmbRecord>, now: int, t: real)
    requires |entries| == |embs|
    ensures forall r :: r in Scan(entries, embs, history, now, t).accepted ==>
              && r.timestamp == Some(now) && r.embedding.Some? && r.embedding.value != []
              && exists i :: 0 <= i < |entries| && r == NewRecord(entries[i], embs[i], now)
  {
    if entries != [] {
      var n := |entries| - 1;
      ScanAcceptedShape(entries[..n], embs[..n], history, now, t);
      forall r | r in Scan(entries[..n], embs[..n], history, now, t).accepted
        ensures exists i :: 0 <= i < |entries| && r == NewRecord(entries[i], embs[i], now)
      {
        var i :| 0 <= i < n && r == NewRecord(entries[..n][i], embs[..n][i], now);
        assert entries[i] == entries[..n][i] && embs[i] == embs[..n][i];
      }
    }
  }

  /** No accepted embedding reaches the threshold against a stored record. */
  lemma {:induction false} ScanAcceptsNothingStored(entries: seq<Entry>, embs: seq<seq<real>>, history: seq<EmbRecord>, now: int, t: real)
    requires |entries| == |embs|
    ensures forall r :: r in Scan(entries, embs, history, now, t).accepted ==>
              r.embedding.Some? && !AnySimilar(r.embedding.value, history, t)
  {
    if entries != [] {
      var n := |entries| - 1;
      ScanAcceptsNothingStored(entries[..n], embs[..n], history, now, t);
    }
  }

  /** No accepted embedding reaches the threshold against a record accepted before it in
      the same run. */
  lemma {:induction false} ScanAcceptsNoNearPairs(entries: seq<Entry>, embs: seq<seq<real>>, history: seq<EmbRecord>, now: int, t: real)
    requires |entries| == |embs|
    ensures forall i, j :: 0 <= i < j < |Scan(entries, embs, history, now, t).accepted| ==>
              !Similar(Scan(entries, embs, history, now, t).accepted[j].embedding,
                       Scan(entries, embs, history, now, t).accepted[i].embedding, t)
  {
    if entries != [] {
      var n := |entries| - 1;
      ScanAcceptsNoNearPairs(entries[..n], embs[..n], history, now, t);
      var s := Scan(entries[..n], embs[..n], history, now, t);
      var emb := embs[n];
      if emb != [] && !AnySimilar(emb, history, t) && !AnySimilar(emb, s.accepted, t) {
        var acc := s.accepted + [NewRecord(entries[n], emb, now)];
        assert acc == Scan(entries, embs, history, now, t).accepted;
        forall i, j | 0 <= i < j < |acc| ensures !Similar(acc[j].embedding, acc[i].embedding, t) {
          assert acc[i] == s.accepted[i];
          if j == |acc| - 1 {
            assert !Similar(Some(emb), s.accepted[i].embedding, t);
          } else {
            assert acc[j] == s.accepted[j];
          }
        }
      }
    }
  }

  /** The keep decision of each entry: kept when it has no embedding, or when nothing
      stored and nothing accepted before it reaches the threshold. */
  function KeepFlags(entries: seq<Entry>, embs: seq<seq<real>>, history: seq<EmbRecord>, now: int, t: real): (r: seq<bool>)
    requires |entries| == |embs|
    ensures |r| == |entries|
  {
    if entries == [] then []
    else
      var n := |entries| - 1;
      var before := Scan(entries[..n], embs[..n], history, now, t).accepted;
      KeepFlags(entries[..n], embs[..n], history, now, t)
        + [embs[n] == [] || !(AnySimilar(embs[n], history, t) || AnySimilar(embs[n], before, t))]
  }

  /** The output is the entries' items, in order, selected by the keep decision. */
  lemma {:induction false} ScanSelects(entries: seq<Entry>, embs: seq<seq<real>>, history: seq<EmbRecord>, now: int, t: real)
    requires |entries| == |embs|
    ensures Scan(entries, embs, history, now, t).unique
            == Select(ItemsOf(entries), KeepFlags(entries, embs, history, now, t))
  {
    if entries != [] {
      var n := |entries| - 1;
      ScanSelects(entries[..n], embs[..n], history, now, t);
      assert ItemsOf(entries)[..n] == ItemsOf(entries[..n]);
      assert KeepFlags(entries, embs, history, now, t)[..n] == KeepFlags(entries[..n], embs[..n], history, now, t);
    }
  }

  /** An item whose (non-zero) embedding is already stored is dropped, for any threshold
      up to 1. */
  lemma RepeatIsDropped(e: Entry, emb: seq<real>, history: seq<EmbRecord>, k: int, now: int, t: real)
    requires 0 <= k < |history| && history[k].embedding == Some(emb)
    requires emb != [] && Dot(emb, emb) != 0.0 && t <= 1.0
    ensures Scan([e], [emb], history, now, t) == ScanState([], 1, [])
  {
    CosineSelf(emb, t);
    assert Similar(Some(emb), history[k].embedding, t);
    assert [e][..0] == [] && [emb][..0] == [];
  }

  // ------------------------------------------------------------------
  // The node
  // ------------------------------------------------------------------

  /** Settings read from the environment. */
  datatype Config = Config(threshold: real, expiryDays: int, maxEmbeddings: int, batchSize: int)

  const DefaultConfig := Config(DefaultThreshold, DefaultExpiryDays, DefaultMaxEmbeddings, DefaultBatchSize)

  datatype Stats = Stats(
    inputCount: nat, processedCount: nat, uniqueCount: nat, duplicateCount: nat,
    expiredCleaned: int, totalStored: nat, fileStoreSaved: bool)

  /** What one run produces: the output items, the final `staticData.semanticEmbeddings`
      (None when missing), the list saved to the file store (None when nothing is
      saved), and the stats (None on a pass-through path). */
  datatype Outcome = Outcome(output: seq<Item>, staticEmbeddings: Option<seq<EmbRecord>>,
                             fileSave: Option<seq<EmbRecord>>, stats: Option<Stats>)

  /** The store loaded at start: static data (an empty list when missing), merged with
      the file store when that is enabled. */
  function LoadedStore(hasStaticData: bool, staticEmbeddings: Option<seq<EmbRecord>>,
                       fileStore: Option<seq<EmbRecord>>): seq<EmbRecord>
  {
    var base := if hasStaticData && staticEmbeddings.Some? then staticEmbeddings.value else [];
    if fileStore.Some? then Merge(base, fileStore.value) else base
  }

  /** The result of a run that reaches the comparison: the emitted items, the store to
      write back and the stats. */
  datatype Curated = Curated(output: seq<Item>, store: seq<EmbRecord>, stats: Stats)

  /** Everything after the store is loaded: expiry, text selection, embedding, comparison
      and eviction. None is a pass-through (no item with text, or an embedding count that
      does not match the number of texts). */
  function Curate(items: seq<Item>, loaded: seq<EmbRecord>, fileEnabled: bool,
                  embed: seq<string> -> seq<seq<real>>, now: int, cfg: Config): Option<Curated>
    requires cfg.batchSize >= 1
  {
    var live := Expire(loaded, now, ExpiryMs(cfg.expiryDays));
    var entries := Entries(items);
    if entries == [] then None
    else
      var embs := EmbedAll(Batches(TextsOf(entries), cfg.batchSize), embed);
      if |embs| != |entries| then None
      else Some(Compare(items, entries, embs, live, |loaded| - |live|, fileEnabled, now, cfg))
  }

  /** The comparison and the eviction, once every entry has its embedding. */
  function Compare(items: seq<Item>, entries: seq<Entry>, embs: seq<seq<real>>, live: seq<EmbRecord>,
                   expired: int, fileEnabled: bool, now: int, cfg: Config): Curated
    requires |entries| == |embs|
  {
    var s := Scan(entries, embs, live, now, cfg.threshold);
    var store := EvictOldest(live + s.accepted, cfg.maxEmbeddings);
    Curated(s.unique, store, Stats(|items|, |entries|, |s.unique|, s.duplicates, expired, |store|, fileEnabled))
  }

  /** The whole node as a function of its inputs. `hasStaticData` says whether workflow
      static data is available; `fileStore` is None when the file store is disabled and
      otherwise the list read from it. */
  function Node(items: seq<Item>, hasApiKey: bool, hasStaticData: bool,
                staticEmbeddings: Option<seq<EmbRecord>>, fileStore: Option<seq<EmbRecord>>,
                embed: seq<string> -> seq<seq<real>>, now: int, cfg: Config): Outcome
    requires cfg.batchSize >= 1
  {
    if !hasApiKey then Outcome(items, staticEmbeddings, None, None)
    else if items == [] then Outcome([], staticEmbeddings, None, None)
    else
      var initialized := if hasStaticData && staticEmbeddings.None? then Some([]) else staticEmbeddings;
      var c := Curate(items, LoadedStore(hasStaticData, staticEmbeddings, fileStore), fileStore.Some?, embed, now, cfg);
      if c.None? then Outcome(items, initialized, None, None)
      else
        Outcome(c.value.output,
                if hasStaticData then Some(c.value.store) else staticEmbeddings,
                if fileStore.Some? then Some(c.value.store) else None,
                Some(c.value.stats))
  }

  /** The body of the node after loading, as the source writes it. */
  method CurateItems(items: seq<Item>, loaded: seq<EmbRecord>, fileEnabled: bool,
                     embed: seq<string> -> seq<seq<real>>, now: int, cfg: Config)
    returns (r: Option<Curated>)
    requires cfg.batchSize >= 1
    ensures r == Curate(items, loaded, fileEnabled, embed, now, cfg)
  {
    var expiryMs := ExpiryMs(cfg.expiryDays);
    var embeddings := Expire(loaded, now, expiryMs);
    var expiredCount := |loaded| - |embeddings|;
    var entries := Entries(items);
    if entries == [] {
      assert Curate(items, loaded, fileEnabled, embed, now, cfg) == None;
      return None;
    }
    var allEmbeddings := FetchEmbeddings(TextsOf(entries), cfg.batchSize, embed);
    if |allEmbeddings| != |entries| {
      assert Curate(items, loaded, fileEnabled, embed, now, cfg) == None;
      return None;
    }
    var unique, duplicates, accepted := ScanEntries(entries, allEmbeddings, embeddings, now, cfg.threshold);
    var store := EvictOldest(embeddings + accepted, cfg.maxEmbeddings);
    var c := Curated(unique, store, Stats(|items|, |entries|, |unique|, duplicates, expiredCount, |store|, fileEnabled));
    CurateSteps(items, loaded, fileEnabled, embed, now, cfg, embeddings, expiredCount, entries, allEmbeddings);
    r := Some(c);
  }

  /** `Curate` in terms of its intermediate values. */
  lemma CurateSteps(items: seq<Item>, loaded: seq<EmbRecord>, fileEnabled: bool,
                    embed: seq<string> -> seq<seq<real>>, now: int, cfg: Config,
                    live: seq<EmbRecord>, expired: int, entries: seq<Entry>, embs: seq<seq<real>>)
    requires cfg.batchSize >= 1
    requires live == Expire(loaded, now, ExpiryMs(cfg.expiryDays)) && expired == |loaded| - |live| && entries == Entries(items)
    requires entries != [] && embs == EmbedAll(Batches(TextsOf(entries), cfg.batchSize), embed)
    requires |embs| == |entries|
    ensures var s := Scan(entries, embs, live, now, cfg.threshold);
            var store := EvictOldest(live + s.accepted, cfg.maxEmbeddings);
            Curate(items, loaded, fileEnabled, embed, now, cfg)
            == Some(Curated(s.unique, store, Stats(|items|, |entries|, |s.unique|, s.duplicates, expired, |store|, fileEnabled)))
  {
    var c := Curate(items, loaded, fileEnabled, embed, now, cfg).value;
    var s := Scan(entries, embs, live, now, cfg.threshold);
    var store := EvictOldest(live + s.accepted, cfg.maxEmbeddings);
    var stats := Stats(|items|, |entries|, |s.unique|, s.duplicates, expired, |store|, fileEnabled);
    assert c.output == s.unique && c.store == store;
    assert c.stats == stats;
  }

  /** Workflow static data, as far as this node uses it. */
  class StaticData {
    var semanticEmbeddings: Option<seq<EmbRecord>>

    constructor (embeddings: Option<seq<EmbRecord>>)
      ensures semanticEmbeddings == embeddings
    {
      semanticEmbeddings := embeddings;
    }
  }

  /** One run of the node. `sd` is null when static data is unavailable. */
  method Run(items: seq<Item>, hasApiKey: bool, sd: StaticData?, fileStore: Option<seq<EmbRecord>>,
             embed: seq<string> -> seq<seq<real>>, now: int, cfg: Config)
    returns (output: seq<Item>, fileSave: Option<seq<EmbRecord>>, stats: Option<Stats>)
    requires cfg.batchSize >= 1
    modifies sd
    ensures var r := Node(items, hasApiKey, sd != null, if sd != null then old(sd.semanticEmbeddings) else None,
                          fileStore, embed, now, cfg);
            && output == r.output && fileSave == r.fileSave && stats == r.stats
            && (sd != null ==> sd.semanticEmbeddings == r.staticEmbeddings)
  {
    ghost var staticIn := if sd != null then sd.semanticEmbeddings else None;
    output, fileSave, stats := items, None, None;
    if !hasApiKey {
      return;
    }
    if items == [] {
      output := [];
      return;
    }
    var embeddings: seq<EmbRecord> := [];
    if sd != null {
      if sd.semanticEmbeddings.None? {
        sd.semanticEmbeddings := Some([]);
      }
      embeddings := sd.semanticEmbeddings.value;
    }
    if fileStore.Some? {
      embeddings := MergeEmbeddings(embeddings, fileStore.value);
    }
    assert embeddings == LoadedStore(sd != null, staticIn, fileStore);
    var c := CurateItems(items, embeddings, fileStore.Some?, embed, now, cfg);
    if c.None? {
      return;
    }
    if sd != null {
      sd.semanticEmbeddings := Some(c.value.store);
    }
    output := c.value.output;
    if fileStore.Some? {
      fileSave := Some(c.value.store);
    }
    stats := Some(c.value.stats);
  }

  // ------------------------------------------------------------------
  // Properties of the node
  // ------------------------------------------------------------------

  /** The pass-through paths: without an API key the input is returned and nothing is
      written; an empty input gives an empty output; when no item has enough text, or the
      embeddings do not match the texts, the input is returned, no store is written and
      static data is at most initialised to an empty list. */
  lemma PassThroughs(items: seq<Item>, hasApiKey: bool, hasStaticData: bool, staticEmbeddings: Option<seq<EmbRecord>>,
                     fileStore: Option<seq<EmbRecord>>, embed: seq<string> -> seq<seq<real>>, now: int, cfg: Config)
    requires cfg.batchSize >= 1
    ensures var r := Node(items, hasApiKey, hasStaticData, staticEmbeddings, fileStore, embed, now, cfg);
            && (!hasApiKey ==> r == Outcome(items, staticEmbeddings, None, None))
            && (hasApiKey && items == [] ==> r == Outcome([], staticEmbeddings, None, None))
            && (hasApiKey && items != [] && Entries(items) == [] ==>
                  r.output == items && r.fileSave == None && r.stats == None
                  && r.staticEmbeddings == (if hasStaticData && staticEmbeddings.None? then Some([]) else staticEmbeddings))
            && (hasApiKey && items != [] && Entries(items) != []
                && |EmbedAll(Batches(TextsOf(Entries(items)), cfg.batchSize), embed)| != |Entries(items)| ==>
                  r.output == items && r.fileSave == None && r.stats == None
                  && r.staticEmbeddings == (if hasStaticData && staticEmbeddings.None? then Some([]) else staticEmbeddings))
  {
  }

  /** A failed embeddings request anywhere in the run makes the node return its input
      unchanged and write no store, provided the service never answers with more vectors
      than it was sent texts. */
  lemma FailureWritesNothing(items: seq<Item>, hasStaticData: bool, staticEmbeddings: Option<seq<EmbRecord>>,
                             fileStore: Option<seq<EmbRecord>>, embed: seq<string> -> seq<seq<real>>, now: int, cfg: Config, k: int)
    requires cfg.batchSize >= 1 && items != []
    requires forall b :: |embed(b)| <= |b|
    requires 0 <= k < |Batches(TextsOf(Entries(items)), cfg.batchSize)|
    requires embed(Batches(TextsOf(Entries(items)), cfg.batchSize)[k]) == []
    ensures var r := Node(items, true, hasStaticData, staticEmbeddings, fileStore, embed, now, cfg);
            && r.output == items && r.fileSave == None && r.stats == None
            && r.staticEmbeddings == (if hasStaticData && staticEmbeddings.None? then Some([]) else staticEmbeddings)
  {
    FailedRequestMismatch(TextsOf(Entries(items)), cfg.batchSize, embed, k);
  }

  /** On the normal path the output is the items with enough text, in input order, each
      kept exactly when the comparison keeps it. */
  lemma CurateOutput(items: seq<Item>, loaded: seq<EmbRecord>, fileEnabled: bool,
                     embed: seq<string> -> seq<seq<real>>, now: int, cfg: Config)
    requires cfg.batchSize >= 1
    ensures Curate(items, loaded, fileEnabled, embed, now, cfg).Some? ==>
            Curate(items, loaded, fileEnabled, embed, now, cfg).value.output
            == Select(ItemsOf(Entries(items)),
                      KeepFlags(Entries(items), EmbedAll(Batches(TextsOf(Entries(items)), cfg.batchSize), embed),
                                Expire(loaded, now, ExpiryMs(cfg.expiryDays)), now, cfg.threshold))
  {
    if Curate(items, loaded, fileEnabled, embed, now, cfg).Some? {
      ScanSelects(Entries(items), EmbedAll(Batches(TextsOf(Entries(items)), cfg.batchSize), embed),
                  Expire(loaded, now, ExpiryMs(cfg.expiryDays)), now, cfg.threshold);
    }
  }

  /** On the normal path every processed item is either emitted or counted as a
      duplicate. */
  lemma CurateStats(items: seq<Item>, loaded: seq<EmbRecord>, fileEnabled: bool,
                    embed: seq<string> -> seq<seq<real>>, now: int, cfg: Config)
    requires cfg.batchSize >= 1
    ensures Curate(items, loaded, fileEnabled, embed, now, cfg).Some? ==>
            var st := Curate(items, loaded, fileEnabled, embed, now, cfg).value.stats;
            && st.uniqueCount + st.duplicateCount == st.processedCount
            && 1 <= st.processedCount <= st.inputCount
            && 0 <= st.expiredCleaned
  {
    if Curate(items, loaded, fileEnabled, embed, now, cfg).Some? {
      ScanCounts(Entries(items), EmbedAll(Batches(TextsOf(Entries(items)), cfg.batchSize), embed),
                 Expire(loaded, now, ExpiryMs(cfg.expiryDays)), now, cfg.threshold);
    }
  }

  /** On the normal path the stored list holds at most the cap (for a non-negative cap) and
      is drawn from the unexpired store plus the records accepted in this run. */
  lemma CurateStore(items: seq<Item>, loaded: seq<EmbRecord>, fileEnabled: bool,
                    embed: seq<string> -> seq<seq<real>>, now: int, cfg: Config)
    requires cfg.batchSize >= 1
    ensures Curate(items, loaded, fileEnabled, embed, now, cfg).Some? ==>
            var live := Expire(loaded, now, ExpiryMs(cfg.expiryDays));
            var embs := EmbedAll(Batches(TextsOf(Entries(items)), cfg.batchSize), embed);
            var c := Curate(items, loaded, fileEnabled, embed, now, cfg).value;
            && (cfg.maxEmbeddings >= 0 ==> |c.store| <= cfg.maxEmbeddings)
            && multiset(c.store) <= multiset(live + Scan(Entries(items), embs, live, now, cfg.threshold).accepted)
  {
    if Curate(items, loaded, fileEnabled, embed, now, cfg).Some? {
      var live := Expire(loaded, now, ExpiryMs(cfg.expiryDays));
      var embs := EmbedAll(Batches(TextsOf(Entries(items)), cfg.batchSize), embed);
      EvictSize(live + Scan(Entries(items), embs, live, now, cfg.threshold).accepted, cfg.maxEmbeddings);
    }
  }
}
