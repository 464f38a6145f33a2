/** URL-level deduplication across runs: the `seenUrls` store of the cross-day dedupe
    node, an insertion-ordered object from URL to the millisecond timestamp at which the
    URL was first accepted. */
module CrossDayDedupe {
  import opened Common

  /** An input item; only its `url` matters to this node. The empty string stands for a
      missing or empty url (both falsy in JavaScript). */
  datatype Item = Item(url: string, title: string)

  /** `storage.seenUrls` as its entries, in key-insertion order. */
  type SeenUrls = seq<(string, int)>

  datatype Stats = Stats(
    inputCount: nat,
    uniqueCount: nat,
    duplicateCount: nat,
    expiredCleaned: nat,
    totalStoredUrls: nat)

  const DefaultExpiryDays := 7
  const DefaultMaxUrls := 2000
  const MsPerDay := 24 * 60 * 60 * 1000

  /** `storage.seenUrls[url]` is truthy: the key is present and its timestamp is not 0. */
  predicate IsSeen(m: SeenUrls, url: string)
  {
    var v := Lookup(m, url); v.Some? && v.value != 0
  }

  /** An entry the purge keeps: `now - timestamp > expiryMs` does not hold. */
  predicate Fresh(e: (string, int), now: int, expiryMs: int)
  {
    now - e.1 <= expiryMs
  }

  /** The store after the purge: the fresh entries, in their order. */
  function Unexpired(m: SeenUrls, now: int, expiryMs: int): (r: SeenUrls)
    ensures |r| <= |m|
  {
    if m == [] then []
    else Unexpired(m[..|m| - 1], now, expiryMs)
         + (if Fresh(m[|m| - 1], now, expiryMs) then [m[|m| - 1]] else [])
  }

  /** The outcome of the dedupe loop over a batch. */
  datatype Pass = Pass(unique: seq<Item>, duplicateUrls: seq<string>, newUrls: seq<string>, seen: SeenUrls)

  /** The dedupe loop, one item at a time from the left. */
  function DedupePass(items: seq<Item>, m: SeenUrls, now: int): Pass
    decreases |items|
  {
    if items == [] then Pass([], [], [], m)
    else
      var p := DedupePass(items[..|items| - 1], m, now);
      var url := items[|items| - 1].url;
      if url == "" then p
      else if IsSeen(p.seen, url) then p.(duplicateUrls := p.duplicateUrls + [url])
      else Pass(p.unique + [items[|items| - 1]], p.duplicateUrls, p.newUrls + [url], Put(p.seen, url, now))
  }

  /** Entries with the smallest timestamps first; ties keep insertion order. */
  function OldestFirst(m: SeenUrls): SeenUrls
  {
    SortDesc(m, AgeKey)
  }

  /** Sorting by the negated timestamp in descending order puts the oldest first. */
  function AgeKey(e: (string, int)): real
  {
    -(e.1 as real)
  }

  function KeysOf(m: SeenUrls): set<string>
  {
    if m == [] then {} else KeysOf(m[..|m| - 1]) + {m[|m| - 1].0}
  }

  lemma {:induction false} KeysOfIff(m: SeenUrls)
    ensures forall i :: 0 <= i < |m| ==> m[i].0 in KeysOf(m)
    ensures forall k :: k in KeysOf(m) ==> exists i :: 0 <= i < |m| && m[i].0 == k
  {
    if m != [] {
      var init := m[..|m| - 1];
      KeysOfIff(init);
      forall k | k in KeysOf(m) ensures exists i :: 0 <= i < |m| && m[i].0 == k {
        if k in KeysOf(init) {
          var i :| 0 <= i < |init| && init[i].0 == k;
          assert m[i].0 == k;
        } else {
          assert m[|m| - 1].0 == k;
        }
      }
      forall i | 0 <= i < |m| ensures m[i].0 in KeysOf(m) {
        if i < |m| - 1 { assert init[i] == m[i]; }
      }
    }
  }

  /** The entries whose key is not in `gone`, in their order. */
  function WithoutKeys(m: SeenUrls, gone: set<string>): SeenUrls
  {
    if m == [] then []
    else (if m[0].0 in gone then [] else [m[0]]) + WithoutKeys(m[1..], gone)
  }

  /** The entries deleted by the max-URL rule: the `|m| - maxUrls` oldest. */
  function EvictedEntries(m: SeenUrls, maxUrls: int): SeenUrls
  {
    if |m| > maxUrls then SliceTo(OldestFirst(m), |m| - maxUrls) else []
  }

  /** `storage.seenUrls` after the max-URL rule. */
  function Evict(m: SeenUrls, maxUrls: int): SeenUrls
  {
    WithoutKeys(m, KeysOf(EvictedEntries(m, maxUrls)))
  }

  class UrlStore {
    var seenUrls: SeenUrls

    ghost predicate Valid()
      reads this
    {
      DistinctKeys(seenUrls)
    }

    /** The volatile store used when workflow static data is unavailable. */
    constructor ()
      ensures Valid() && seenUrls == []
    {
      seenUrls := [];
    }

    /** Deletes every entry whose age exceeds `expiryMs`; entries exactly at the limit stay. */
    method PurgeExpired(now: int, expiryMs: int) returns (expiredCount: nat)
      requires Valid()
      modifies this
      ensures Valid()
      ensures seenUrls == Unexpired(old(seenUrls), now, expiryMs)
      ensures expiredCount == |old(seenUrls)| - |seenUrls|
    {
      var urlKeys := seenUrls;
      var seen := seenUrls;
      expiredCount := 0;
      var i := 0;
      while i < |urlKeys|
        invariant 0 <= i <= |urlKeys|
        invariant seen == Unexpired(urlKeys[..i], now, expiryMs) + urlKeys[i..]
        invariant expiredCount == i - |Unexpired(urlKeys[..i], now, expiryMs)|
      {
        var url := urlKeys[i].0;
        PurgeStep(urlKeys, i, now, expiryMs, seen);
        if now - urlKeys[i].1 > expiryMs {
          seen := RemoveKey(seen, url);
          expiredCount := expiredCount + 1;
        }
        i := i + 1;
      }
      UnexpiredDistinct(urlKeys, now, expiryMs);
      assert urlKeys[..i] == urlKeys;
      seenUrls := seen;
    }

    /** The dedupe loop: emits each item whose url is non-empty and not yet seen, and
        stamps that url with `now`. */
    method DedupeBatch(items: seq<Item>, now: int) returns (unique: seq<Item>, duplicateUrls: seq<string>, newUrls: seq<string>)
      requires Valid()
      modifies this
      ensures Valid()
      ensures DedupePass(items, old(seenUrls), now) == Pass(unique, duplicateUrls, newUrls, seenUrls)
    {
      var m0 := seenUrls;
      var seen := seenUrls;
      unique, duplicateUrls, newUrls := [], [], [];
      var i := 0;
      while i < |items|
        invariant 0 <= i <= |items|
        invariant DedupePass(items[..i], m0, now) == Pass(unique, duplicateUrls, newUrls, seen)
        invariant DistinctKeys(seen)
      {
        assert items[..i + 1][..i] == items[..i];
        var url := items[i].url;
        if url == "" {
        } else if IsSeen(seen, url) {
          duplicateUrls := duplicateUrls + [url];
        } else {
          PutDistinct(seen, url, now);
          seen := Put(seen, url, now);
          newUrls := newUrls + [url];
          unique := unique + [items[i]];
        }
        i := i + 1;
      }
      assert items[..i] == items;
      seenUrls := seen;
    }

    /** Deletes the oldest entries while more than `maxUrls` remain. */
    method EnforceMaxUrls(maxUrls: int)
      requires Valid()
      modifies this
      ensures Valid()
      ensures seenUrls == Evict(old(seenUrls), maxUrls)
    {
      var allUrls := seenUrls;
      var seen := seenUrls;
      if |allUrls| > maxUrls {
        var sorted := OldestFirst(allUrls);
        var toRemove := SliceTo(sorted, |allUrls| - maxUrls);
        var i := 0;
        EvictStart(allUrls, toRemove);
        while i < |toRemove|
          invariant 0 <= i <= |toRemove|
          invariant seen == WithoutKeys(allUrls, KeysOf(toRemove[..i]))
        {
          EvictStep(allUrls, toRemove, i, seen);
          seen := RemoveKey(seen, toRemove[i].0);
          i := i + 1;
        }
        EvictFinish(allUrls, maxUrls, toRemove, seen);
      } else {
        EvictStart(allUrls, []);
      }
      seenUrls := seen;
    }
  }

  lemma EvictFinish(m: SeenUrls, maxUrls: int, toRemove: SeenUrls, seen: SeenUrls)
    requires DistinctKeys(m) && |m| > maxUrls
    requires toRemove == SliceTo(OldestFirst(m), |m| - maxUrls)
    requires seen == WithoutKeys(m, KeysOf(toRemove[..|toRemove|]))
    ensures seen == Evict(m, maxUrls) && DistinctKeys(seen)
  {
    assert toRemove[..|toRemove|] == toRemove;
    WithoutKeysDistinct(m, KeysOf(toRemove));
  }

  lemma EvictStart(m: SeenUrls, toRemove: SeenUrls)
    ensures WithoutKeys(m, KeysOf(toRemove[..0])) == m
    ensures toRemove == [] ==> WithoutKeys(m, KeysOf(toRemove)) == m
    ensures KeysOf(toRemove[..0]) == {}
  {
    assert KeysOf(toRemove[..0]) == {};
    WithoutNoKeys(m, {});
  }

  lemma EvictStep(m: SeenUrls, toRemove: SeenUrls, i: nat, seen: SeenUrls)
    requires i < |toRemove| && seen == WithoutKeys(m, KeysOf(toRemove[..i]))
    ensures RemoveKey(seen, toRemove[i].0) == WithoutKeys(m, KeysOf(toRemove[..i + 1]))
  {
    RemoveKeyWithout(m, KeysOf(toRemove[..i]), toRemove[i].0);
    assert toRemove[..i + 1][..i] == toRemove[..i];
  }

  lemma {:induction false} WithoutKeysDistinct(m: SeenUrls, gone: set<string>)
    requires DistinctKeys(m)
    ensures DistinctKeys(WithoutKeys(m, gone))
  {
    if m != [] {
      var tail := WithoutKeys(m[1..], gone);
      WithoutKeysDistinct(m[1..], gone);
      WithoutKeysMembers(m[1..], gone);
      forall j | 0 <= j < |tail| ensures m[0].0 != tail[j].0 {
        assert tail[j] in m[1..];
      }
    }
  }

  /** One step of the purge loop over the key snapshot `urlKeys`. */
  lemma {:induction false} PurgeStep(urlKeys: SeenUrls, i: nat, now: int, expiryMs: int, seen: SeenUrls)
    requires DistinctKeys(urlKeys) && i < |urlKeys|
    requires seen == Unexpired(urlKeys[..i], now, expiryMs) + urlKeys[i..]
    ensures var next := Unexpired(urlKeys[..i + 1], now, expiryMs) + urlKeys[i + 1..];
            if now - urlKeys[i].1 > expiryMs
            then RemoveKey(seen, urlKeys[i].0) == next
                 && |Unexpired(urlKeys[..i + 1], now, expiryMs)| == |Unexpired(urlKeys[..i], now, expiryMs)|
            else seen == next
                 && |Unexpired(urlKeys[..i + 1], now, expiryMs)| == |Unexpired(urlKeys[..i], now, expiryMs)| + 1
  {
    UnexpiredSnoc(urlKeys, i, now, expiryMs);
    if now - urlKeys[i].1 > expiryMs {
      PurgeDrop(urlKeys, i, now, expiryMs);
    } else {
      assert urlKeys[i..] == [urlKeys[i]] + urlKeys[i + 1..];
    }
  }

  lemma UnexpiredSnoc(m: SeenUrls, i: nat, now: int, expiryMs: int)
    requires i < |m|
    ensures Unexpired(m[..i + 1], now, expiryMs)
         == Unexpired(m[..i], now, expiryMs) + (if Fresh(m[i], now, expiryMs) then [m[i]] else [])
  {
    assert m[..i + 1][..i] == m[..i];
  }

  lemma {:induction false} PurgeDrop(urlKeys: SeenUrls, i: nat, now: int, expiryMs: int)
    requires DistinctKeys(urlKeys) && i < |urlKeys|
    ensures var kept := Unexpired(urlKeys[..i], now, expiryMs);
            RemoveKey(kept + urlKeys[i..], urlKeys[i].0) == kept + urlKeys[i + 1..]
  {
    var kept := Unexpired(urlKeys[..i], now, expiryMs);
    var url := urlKeys[i].0;
    assert urlKeys[i..][1..] == urlKeys[i + 1..];
    PurgeKeepsIff(urlKeys[..i], now, expiryMs);
    forall j | 0 <= j < |kept| ensures kept[j].0 != url {
      assert kept[j] in urlKeys[..i];
    }
    forall a, b | 0 <= a < b < |urlKeys[i..]| ensures urlKeys[i..][a].0 != urlKeys[i..][b].0 {
      assert urlKeys[i + a].0 != urlKeys[i + b].0;
    }
    RemoveFirstOfRest(kept, urlKeys[i..]);
  }

  /** The purge keeps exactly the entries at most `expiryMs` old. */
  lemma {:induction false} PurgeKeepsIff(m: SeenUrls, now: int, expiryMs: int)
    ensures forall e :: e in Unexpired(m, now, expiryMs) <==> e in m && Fresh(e, now, expiryMs)
  {
    if m != [] {
      PurgeKeepsIff(m[..|m| - 1], now, expiryMs);
      assert m == m[..|m| - 1] + [m[|m| - 1]];
    }
  }

  lemma {:induction false} UnexpiredDistinct(m: SeenUrls, now: int, expiryMs: int)
    requires DistinctKeys(m)
    ensures DistinctKeys(Unexpired(m, now, expiryMs))
  {
    if m != [] {
      var init := m[..|m| - 1];
      var kept := Unexpired(init, now, expiryMs);
      assert DistinctKeys(init);
      UnexpiredDistinct(init, now, expiryMs);
      PurgeKeepsIff(init, now, expiryMs);
      forall j | 0 <= j < |kept| ensures kept[j].0 != m[|m| - 1].0 {
        assert kept[j] in init;
      }
    }
  }

  /** Deleting the first key of `rest` from `kept + rest`, when `kept` lacks that key. */
  lemma {:induction false} RemoveFirstOfRest(kept: SeenUrls, rest: SeenUrls)
    requires rest != [] && DistinctKeys(rest)
    requires forall j :: 0 <= j < |kept| ==> kept[j].0 != rest[0].0
    ensures RemoveKey(kept + rest, rest[0].0) == kept + rest[1..]
  {
    var k := rest[0].0;
    RemoveKeyAppend(kept, rest, k);
    RemoveAbsentKey(kept, k);
    assert k !in KeySet(rest[1..]);
    RemoveAbsentKey(rest[1..], k);
  }

  lemma {:induction false} WithoutNoKeys(m: SeenUrls, gone: set<string>)
    requires forall i :: 0 <= i < |m| ==> m[i].0 !in gone
    ensures WithoutKeys(m, gone) == m
  {
    if m != [] { WithoutNoKeys(m[1..], gone); }
  }

  lemma {:induction false} RemoveKeyWithout(m: SeenUrls, gone: set<string>, k: string)
    ensures RemoveKey(WithoutKeys(m, gone), k) == WithoutKeys(m, gone + {k})
  {
    if m != [] {
      RemoveKeyWithout(m[1..], gone, k);
      var tail := WithoutKeys(m[1..], gone);
      if m[0].0 in gone {
        assert WithoutKeys(m, gone) == tail;
      } else {
        assert WithoutKeys(m, gone) == [m[0]] + tail;
        assert RemoveKey([m[0]] + tail, k) == (if m[0].0 == k then [] else [m[0]]) + RemoveKey(tail, k) by {
          RemoveKeyAppend([m[0]], tail, k);
        }
      }
    }
  }

  /** One run of the node: purge, dedupe, cap. */
  method Run(store: UrlStore, items: seq<Item>, now: int, expiryDays: int, maxUrls: int)
    returns (unique: seq<Item>, stats: Stats)
    requires store.Valid()
    modifies store
    ensures store.Valid()
    ensures var purged := Unexpired(old(store.seenUrls), now, expiryDays * MsPerDay);
            var pass := DedupePass(items, purged, now);
            && unique == pass.unique
            && store.seenUrls == Evict(pass.seen, maxUrls)
            && stats == Stats(|items|, |pass.unique|, |pass.duplicateUrls|,
                              |old(store.seenUrls)| - |purged|, |store.seenUrls|)
  {
    var expiryMs := expiryDays * MsPerDay;
    var expiredCount := store.PurgeExpired(now, expiryMs);
    var duplicateUrls, newUrls;
    unique, duplicateUrls, newUrls := store.DedupeBatch(items, now);
    store.EnforceMaxUrls(maxUrls);
    stats := Stats(|items|, |unique|, |duplicateUrls|, expiredCount, |store.seenUrls|);
  }

  // ------------------------------------------------------------------
  // Properties of the dedupe loop
  // ------------------------------------------------------------------

  function UrlsOf(items: seq<Item>): seq<string>
  {
    if items == [] then [] else UrlsOf(items[..|items| - 1]) + [items[|items| - 1].url]
  }

  lemma UrlsOfShape(items: seq<Item>)
    ensures |UrlsOf(items)| == |items|
    ensures forall i :: 0 <= i < |items| ==> UrlsOf(items)[i] == items[i].url
  {
    if items != [] { UrlsOfShape(items[..|items| - 1]); }
  }

  /** Item `i` is emitted: it has a url, the purged store has not seen it, and no earlier
      item of the batch carries it. */
  predicate EmittedAt(items: seq<Item>, m: SeenUrls, i: int)
    requires 0 <= i < |items|
  {
    && items[i].url != ""
    && !IsSeen(m, items[i].url)
    && forall j :: 0 <= j < i ==> items[j].url != items[i].url
  }

  function EmittedItems(items: seq<Item>, m: SeenUrls): seq<Item>
  {
    if items == [] then []
    else EmittedItems(items[..|items| - 1], m)
         + (if EmittedAt(items, m, |items| - 1) then [items[|items| - 1]] else [])
  }

  /** What the store knows after the loop: a url is seen iff it was seen before or some
      item of the batch carries it. */
  lemma {:induction false} DedupeSeen(items: seq<Item>, m: SeenUrls, now: int, u: string)
    requires now != 0
    ensures IsSeen(DedupePass(items, m, now).seen, u)
        <==> IsSeen(m, u) || (u != "" && exists j :: 0 <= j < |items| && items[j].url == u)
  {
    if items != [] {
      var init := items[..|items| - 1];
      var p := DedupePass(init, m, now);
      DedupeSeen(init, m, now, u);
      var url := items[|items| - 1].url;
      if url != "" && !IsSeen(p.seen, url) {
        PutLookup(p.seen, url, now);
      }
      if u != "" && exists j :: 0 <= j < |items| && items[j].url == u {
        var j :| 0 <= j < |items| && items[j].url == u;
        if j < |items| - 1 { assert init[j].url == u; }
      }
      if exists j :: 0 <= j < |init| && init[j].url == u {
        var j :| 0 <= j < |init| && init[j].url == u;
        assert items[j].url == u;
      }
    }
  }

  /** An item is emitted iff it has a non-empty url that neither the purged store nor an
      earlier item of the same batch holds; url-less items are dropped silently. */
  lemma {:induction false} DedupeEmitsIff(items: seq<Item>, m: SeenUrls, now: int)
    requires now != 0
    ensures DedupePass(items, m, now).unique == EmittedItems(items, m)
  {
    if items != [] {
      var init := items[..|items| - 1];
      var last := items[|items| - 1];
      DedupeEmitsIff(init, m, now);
      assert EmittedItems(init, m) == EmittedItems(items[..|items| - 1], m);
      DedupeSeen(init, m, now, last.url);
      if last.url != "" {
        if exists j :: 0 <= j < |init| && init[j].url == last.url {
          var j :| 0 <= j < |init| && init[j].url == last.url;
          assert items[j].url == last.url;
          assert !EmittedAt(items, m, |items| - 1);
        }
        if !EmittedAt(items, m, |items| - 1) && !IsSeen(m, last.url) {
          var j :| 0 <= j < |items| - 1 && items[j].url == last.url;
          assert init[j].url == last.url;
        }
      }
    }
  }

  /** The emitted items carry pairwise distinct urls, all of them non-empty and unseen. */
  lemma {:induction false} EmittedDistinct(items: seq<Item>, m: SeenUrls)
    ensures forall x :: x in EmittedItems(items, m) ==> x.url != "" && !IsSeen(m, x.url)
    ensures forall a, b :: 0 <= a < b < |EmittedItems(items, m)| ==>
              EmittedItems(items, m)[a].url != EmittedItems(items, m)[b].url
  {
    if items != [] {
      var init := items[..|items| - 1];
      var last := items[|items| - 1];
      EmittedDistinct(init, m);
      EmittedSubset(init, m);
      var e := EmittedItems(items, m);
      if EmittedAt(items, m, |items| - 1) {
        forall a | 0 <= a < |e| - 1 ensures e[a].url != last.url {
          assert e[a] in EmittedItems(init, m);
          var j :| 0 <= j < |init| && init[j] == e[a];
          assert items[j] == e[a];
        }
      }
    }
  }

  lemma {:induction false} EmittedSubset(items: seq<Item>, m: SeenUrls)
    ensures forall x :: x in EmittedItems(items, m) ==> exists j :: 0 <= j < |items| && items[j] == x
  {
    if items != [] {
      var init := items[..|items| - 1];
      EmittedSubset(init, m);
      forall x | x in EmittedItems(items, m)
        ensures exists j :: 0 <= j < |items| && items[j] == x
      {
        if x in EmittedItems(init, m) {
          var j :| 0 <= j < |init| && init[j] == x;
          assert items[j] == x;
        } else {
          assert items[|items| - 1] == x;
        }
      }
    }
  }

  /** The number of items without a url. */
  function UrllessCount(items: seq<Item>): nat
  {
    if items == [] then 0
    else UrllessCount(items[..|items| - 1]) + (if items[|items| - 1].url == "" then 1 else 0)
  }

  /** Stats identity: every input item is emitted, counted as a duplicate, or url-less. */
  lemma {:induction false} DedupeCounts(items: seq<Item>, m: SeenUrls, now: int)
    ensures var p := DedupePass(items, m, now);
            |p.unique| + |p.duplicateUrls| + UrllessCount(items) == |items|
  {
    if items != [] {
      DedupeCounts(items[..|items| - 1], m, now);
    }
  }

  /** The urls stamped in this run are exactly the urls of the emitted items, in order. */
  lemma {:induction false} NewUrlsOfUnique(items: seq<Item>, m: SeenUrls, now: int)
    ensures DedupePass(items, m, now).newUrls == UrlsOf(DedupePass(items, m, now).unique)
  {
    if items != [] {
      NewUrlsOfUnique(items[..|items| - 1], m, now);
    }
  }

  /** A repeat sighting never refreshes an entry: every entry the store had with a
      non-zero timestamp keeps it, and every value that changed is `now`. */
  lemma {:induction false} DedupeNeverRefreshes(items: seq<Item>, m: SeenUrls, now: int, u: string)
    ensures IsSeen(m, u) ==> Lookup(DedupePass(items, m, now).seen, u) == Lookup(m, u)
    ensures Lookup(DedupePass(items, m, now).seen, u) != Lookup(m, u)
            ==> Lookup(DedupePass(items, m, now).seen, u) == Some(now)
  {
    if items != [] {
      var init := items[..|items| - 1];
      var p := DedupePass(init, m, now);
      DedupeNeverRefreshes(init, m, now, u);
      var url := items[|items| - 1].url;
      if url != "" && !IsSeen(p.seen, url) {
        PutLookup(p.seen, url, now);
      }
    }
  }

  // ------------------------------------------------------------------
  // Properties of the max-URL rule
  // ------------------------------------------------------------------

  lemma {:induction false} InsertMembers(x: (string, int), s: SeenUrls, key: ((string, int)) -> real)
    ensures forall y :: y in InsertDesc(x, s, key) ==> y == x || y in s
  {
    if s != [] && key(x) <= key(s[0]) {
      InsertMembers(x, s[1..], key);
    }
  }

  lemma {:induction false} InsertKeepsDistinct(x: (string, int), s: SeenUrls, key: ((string, int)) -> real)
    requires DistinctKeys(s)
    requires forall i :: 0 <= i < |s| ==> s[i].0 != x.0
    ensures DistinctKeys(InsertDesc(x, s, key))
  {
    if s != [] && key(x) <= key(s[0]) {
      var rest := InsertDesc(x, s[1..], key);
      InsertKeepsDistinct(x, s[1..], key);
      InsertMembers(x, s[1..], key);
      forall j | 0 <= j < |rest| ensures s[0].0 != rest[j].0 {
        assert rest[j] in rest;
        if rest[j] != x {
          assert rest[j] in s[1..];
          var k :| 0 <= k < |s[1..]| && s[1..][k] == rest[j];
          assert s[k + 1] == rest[j];
        }
      }
      assert InsertDesc(x, s, key) == [s[0]] + rest;
    }
  }

  lemma {:induction false} SortKeepsDistinct(s: SeenUrls, key: ((string, int)) -> real)
    requires DistinctKeys(s)
    ensures DistinctKeys(SortDesc(s, key))
  {
    if s != [] {
      var init := s[..|s| - 1];
      var x := s[|s| - 1];
      var sorted := SortDesc(init, key);
      SortKeepsDistinct(init, key);
      forall i | 0 <= i < |sorted| ensures sorted[i].0 != x.0 {
        assert sorted[i] in multiset(init);
        var k :| 0 <= k < |init| && init[k] == sorted[i];
      }
      InsertKeepsDistinct(x, sorted, key);
    }
  }

  lemma {:induction false} WithoutKeysMultiset(m: SeenUrls, gone: set<string>, x: (string, int))
    ensures multiset(WithoutKeys(m, gone))[x] == if x.0 in gone then 0 else multiset(m)[x]
  {
    if m != [] {
      WithoutKeysMultiset(m[1..], gone, x);
      assert m == [m[0]] + m[1..];
    }
  }

  lemma {:induction false} WithoutKeysAppend(a: SeenUrls, b: SeenUrls, gone: set<string>)
    ensures WithoutKeys(a + b, gone) == WithoutKeys(a, gone) + WithoutKeys(b, gone)
  {
    if a != [] {
      assert (a + b)[1..] == a[1..] + b;
      WithoutKeysAppend(a[1..], b, gone);
    } else {
      assert a + b == b;
    }
  }

  lemma {:induction false} WithoutAllKeys(m: SeenUrls, gone: set<string>)
    requires forall i :: 0 <= i < |m| ==> m[i].0 in gone
    ensures WithoutKeys(m, gone) == []
  {
    if m != [] { WithoutAllKeys(m[1..], gone); }
  }

  /** Deleting the keys of a prefix of a list with distinct keys leaves the suffix. */
  lemma {:induction false} WithoutPrefixKeys(p: SeenUrls, k: nat)
    requires DistinctKeys(p) && k <= |p|
    ensures WithoutKeys(p, KeysOf(p[..k])) == p[k..]
  {
    var gone := KeysOf(p[..k]);
    assert p == p[..k] + p[k..];
    WithoutKeysAppend(p[..k], p[k..], gone);
    KeysOfIff(p[..k]);
    WithoutAllKeys(p[..k], gone);
    assert forall i :: 0 <= i < |p[k..]| ==> p[k..][i].0 !in gone;
    WithoutNoKeys(p[k..], gone);
  }

  lemma {:induction false} WithoutKeysMembers(m: SeenUrls, gone: set<string>)
    ensures forall e :: e in WithoutKeys(m, gone) ==> e in m && e.0 !in gone
  {
    if m != [] { WithoutKeysMembers(m[1..], gone); }
  }

  /** When the rule fires, the deleted entries are the first `|m| - max(0, maxUrls)` of the
      oldest-first order. */
  lemma EvictedPrefix(m: SeenUrls, maxUrls: int)
    requires |m| > maxUrls
    ensures EvictedEntries(m, maxUrls) == OldestFirst(m)[..|m| - Max(0, maxUrls)]
  {
  }

  /** When the rule fires, the kept entries are, as a multiset, the part of the
      oldest-first order after the deleted prefix. */
  lemma {:induction false} EvictKeepsSuffix(m: SeenUrls, maxUrls: int)
    requires DistinctKeys(m) && |m| > maxUrls
    ensures multiset(Evict(m, maxUrls)) == multiset(OldestFirst(m)[|m| - Max(0, maxUrls)..])
  {
    var p := OldestFirst(m);
    var k := |m| - Max(0, maxUrls);
    var gone := KeysOf(p[..k]);
    EvictedPrefix(m, maxUrls);
    SortKeepsDistinct(m, AgeKey);
    WithoutPrefixKeys(p, k);
    forall x ensures multiset(WithoutKeys(m, gone))[x] == multiset(p[k..])[x] {
      WithoutKeysMultiset(m, gone, x);
      WithoutKeysMultiset(p, gone, x);
    }
  }

  /** The max-URL rule leaves `min(|m|, maxUrls)` entries (none when `maxUrls` is
      negative), all of them entries of `m`, in their order. */
  lemma {:induction false} EvictSize(m: SeenUrls, maxUrls: int)
    requires DistinctKeys(m)
    ensures |Evict(m, maxUrls)| == if |m| > maxUrls then Max(0, maxUrls) else |m|
    ensures forall e :: e in Evict(m, maxUrls) ==> e in m
  {
    WithoutKeysMembers(m, KeysOf(EvictedEntries(m, maxUrls)));
    if |m| > maxUrls {
      EvictKeepsSuffix(m, maxUrls);
      var k := |m| - Max(0, maxUrls);
      assert |Evict(m, maxUrls)| == |multiset(OldestFirst(m)[k..])|;
    } else {
      assert KeysOf([]) == {};
      WithoutNoKeys(m, {});
    }
  }

  /** The max-URL rule deletes the oldest entries: no deleted entry is newer than a kept
      one. */
  lemma {:induction false} EvictOldestFirst(m: SeenUrls, maxUrls: int)
    requires DistinctKeys(m)
    ensures forall d, e :: d in EvictedEntries(m, maxUrls) && e in Evict(m, maxUrls) ==> d.1 <= e.1
  {
    if |m| > maxUrls {
      EvictedPrefix(m, maxUrls);
      EvictKeepsSuffix(m, maxUrls);
      var p := OldestFirst(m);
      var k := |m| - Max(0, maxUrls);
      SortedSplit(p, AgeKey, k);
      forall d, e | d in p[..k] && e in Evict(m, maxUrls) ensures d.1 <= e.1 {
        assert e in multiset(p[k..]);
        assert AgeKey(e) <= AgeKey(d);
      }
    }
  }

  // ------------------------------------------------------------------
  // Re-running a batch
  // ------------------------------------------------------------------

  lemma {:induction false} DedupeKeepsFresh(items: seq<Item>, m: SeenUrls, now: int, expiryMs: int)
    requires expiryMs >= 0
    requires forall e :: e in m ==> Fresh(e, now, expiryMs)
    ensures forall e :: e in DedupePass(items, m, now).seen ==> Fresh(e, now, expiryMs)
  {
    if items != [] {
      var p := DedupePass(items[..|items| - 1], m, now);
      DedupeKeepsFresh(items[..|items| - 1], m, now, expiryMs);
      var url := items[|items| - 1].url;
      if url != "" && !IsSeen(p.seen, url) {
        PutMembers(p.seen, url, now);
      }
    }
  }

  lemma {:induction false} PutMembers(m: SeenUrls, k: string, v: int)
    ensures forall e :: e in Put(m, k, v) ==> e in m || e == (k, v)
  {
    if m != [] && m[0].0 != k { PutMembers(m[1..], k, v); }
  }

  lemma {:induction false} UnexpiredAllFresh(m: SeenUrls, now: int, expiryMs: int)
    requires forall e :: e in m ==> Fresh(e, now, expiryMs)
    ensures Unexpired(m, now, expiryMs) == m
  {
    if m != [] {
      assert m[..|m| - 1] + [m[|m| - 1]] == m;
      UnexpiredAllFresh(m[..|m| - 1], now, expiryMs);
    }
  }

  /** Re-running the same batch at the same instant emits nothing, as long as the first
      run did not have to evict (its store stayed within `maxUrls`). */
  lemma RerunEmitsNothing(m0: SeenUrls, items: seq<Item>, now: int, expiryMs: int, maxUrls: int)
    requires now != 0 && expiryMs >= 0
    requires |DedupePass(items, Unexpired(m0, now, expiryMs), now).seen| <= maxUrls
    ensures var m1 := Evict(DedupePass(items, Unexpired(m0, now, expiryMs), now).seen, maxUrls);
            DedupePass(items, Unexpired(m1, now, expiryMs), now).unique == []
  {
    var purged := Unexpired(m0, now, expiryMs);
    var seen := DedupePass(items, purged, now).seen;
    assert KeysOf([]) == {};
    WithoutNoKeys(seen, {});
    assert Evict(seen, maxUrls) == seen;
    PurgeKeepsIff(m0, now, expiryMs);
    DedupeKeepsFresh(items, purged, now, expiryMs);
    UnexpiredAllFresh(seen, now, expiryMs);
    DedupeEmitsIff(items, seen, now);
    NothingEmittedPrefix(items, purged, seen, now, |items|);
    assert items[..|items|] == items;
  }

  lemma {:induction false} NothingEmittedPrefix(items: seq<Item>, purged: SeenUrls, seen: SeenUrls, now: int, n: nat)
    requires now != 0 && seen == DedupePass(items, purged, now).seen && n <= |items|
    ensures EmittedItems(items[..n], seen) == []
  {
    if n > 0 {
      NothingEmittedPrefix(items, purged, seen, now, n - 1);
      assert items[..n][..n - 1] == items[..n - 1];
      DedupeSeen(items, purged, now, items[n - 1].url);
    }
  }

  /** Eviction can undo idempotence: a url seen before the batch may be the oldest entry
      and be deleted, so the same batch run again emits it. */
  lemma RerunAfterEvictionCanEmit()
    ensures var m0: SeenUrls := [("a", 1), ("b", 2)];
            var items := [Item("a", ""), Item("c", "")];
            var m1 := Evict(DedupePass(items, Unexpired(m0, 3, 10), 3).seen, 2);
            DedupePass(items, Unexpired(m1, 3, 10), 3).unique == [Item("a", "")]
  {
    var m0: SeenUrls := [("a", 1), ("b", 2)];
    var items := [Item("a", ""), Item("c", "")];
    var seen: SeenUrls := [("a", 1), ("b", 2), ("c", 3)];
    var m1: SeenUrls := [("b", 2), ("c", 3)];
    UnexpiredAllFresh(m0, 3, 10);
    FirstRunOfExample(m0, items);
    EvictionOfExample(seen);
    UnexpiredAllFresh(m1, 3, 10);
    SecondRunOfExample(m1, items);
  }

  lemma SecondRunOfExample(m1: SeenUrls, items: seq<Item>)
    requires m1 == [("b", 2), ("c", 3)] && items == [Item("a", ""), Item("c", "")]
    ensures DedupePass(items, m1, 3).unique == [Item("a", "")]
  {
    assert items[..1] == [Item("a", "")];
    assert Lookup(m1, "a") == None;
    assert DedupePass(items[..1], m1, 3).seen == m1 + [("a", 3)];
    assert Lookup(m1 + [("a", 3)], "c") == Some(3);
  }

  lemma FirstRunOfExample(m0: SeenUrls, items: seq<Item>)
    requires m0 == [("a", 1), ("b", 2)] && items == [Item("a", ""), Item("c", "")]
    ensures DedupePass(items, m0, 3).seen == [("a", 1), ("b", 2), ("c", 3)]
  {
    assert items[..1] == [Item("a", "")];
    assert DedupePass(items[..1], m0, 3).seen == m0;
    assert Lookup(m0, "c") == None;
  }

  lemma OldestOfExample(seen: SeenUrls)
    requires seen == [("a", 1), ("b", 2), ("c", 3)]
    ensures OldestFirst(seen)[0] == ("a", 1)
  {
    var p := OldestFirst(seen);
    assert p[0] in multiset(seen);
    assert ("a", 1) in multiset(p);
  }

  lemma EvictionOfExample(seen: SeenUrls)
    requires seen == [("a", 1), ("b", 2), ("c", 3)]
    ensures Evict(seen, 2) == [("b", 2), ("c", 3)]
  {
    OldestOfExample(seen);
    assert EvictedEntries(seen, 2) == [("a", 1)];
    assert KeysOf([("a", 1)]) == {"a"};
    var rest: SeenUrls := [("b", 2), ("c", 3)];
    assert seen[1..] == rest && rest[1..] == [("c", 3)] && rest[1..][1..] == [];
    assert WithoutKeys(rest, {"a"}) == rest;
  }
}
