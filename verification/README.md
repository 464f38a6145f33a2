# x-daily-pack curation core, modelled in Dafny

This project models the deterministic core of the x-daily-pack n8n pipeline. The pipeline collects
news and X posts, removes items already sent on earlier days, and removes items that say the same
thing under another URL. It then clusters related stories, ranks them, learns from editors'
feedback, drafts tweets and handles Slack approval commands. Each core source file is one Dafny
module. Oracle services (embeddings, LLM scores, Slack) and the clock are parameters.

- `Common` — helpers shared by the modules:
  - JavaScript-like strings: trim, lower case, `indexOf`, `slice` with a negative end.
  - Insertion-ordered objects and `Map`s, modelled as association lists with distinct keys.
  - A stable descending sort; `chunk`; 32-bit integer conversion.
- `CrossDayDedupe` — the URL store of `scripts/cross-day-dedupe-node.js`: a `UrlStore` class
  whose `seenUrls` map is purged, extended and capped in place.
- `SemanticDedupe` — `scripts/semantic-dedupe-node.js`:
  - cosine similarity (exact reals, no square root);
  - content text and the 32-bit content-id hash;
  - the recency-wins merge of the embedding store with the file store;
  - strict-age expiry and newest-first eviction;
  - the comparison loop against stored and earlier-accepted embeddings;
  - the node as a whole, writing workflow static data held in a `StaticData` object.
- `EventClustering` — `scripts/event-clustering-node.js`:
  - DBSCAN over the items that carry an embedding, on an `array` of labels updated in place;
  - the neighbourhood scan, the breadth-first cluster expansion with its size cap, and the outer scan;
  - the cluster map, the cluster summaries, the point-to-cluster index and the annotated output.
- `FeedbackStorage` — `scripts/feedback-storage.js`: the feedback records and learned weights
  held in a `StaticData` object; initialisation, recording with expiry and the 500-record cap,
  statistics, and saving and reading the weights.
- `FeedbackLearning` — `scripts/feedback-learning.js`: per-category and per-source approval
  boosts, decay of old weights, the `learn` step that merges them, and the score adjustment.
- `FeedbackRecorder` — `scripts/feedback-recorder-node.js`: the node that turns posted tweets
  into approval records.
- `LlmSelection` — the selection half of `scripts/llm-rank-node.js`: preparing entries, the X
  and RSS orders, the quota split, the per-source X buckets with their caps, and the two picking
  passes.
- `LlmRank` — the ranking half of `scripts/llm-rank-node.js`: batch scoring with tier
  adjustments and learned boosts, the fallback estimate, the all-batches-failed error, the sort,
  the score threshold and the per-source cap.
- `TweetGen` — `scripts/tweet-gen-node.js`: the pipeline statistics loop, the choice of up to ten
  sources with usable non-Twitter links, the URL a draft must end with, the tone guard with its
  template fallback, and the 280-character check.
- `SlackApproval` — `scripts/slack-approval-node.js`: the approval commands (`post 1` …)
  and their parsing, the acknowledgement marker and its extraction, the drafts read back from
  the pack message, the pack roots and the routing of channel-level commands, and the polling
  run that answers each command at most once.
- `QualityGate` — `scripts/ai-quality-gate.js`: the per-item quality check in batches, with
  its fallback assessment, the filter by recommendation threshold, and the statistics loop.
- `AskSplit` — `splitMessage` of `bot/commands/ask.js`: the loop that cuts a long bot answer
  into messages at a late newline or at the length limit.
- `N8nDb` — the reading of execution data in `scripts/_n8n_db.py`: index references in the
  flattened execution container and their depth-limited resolution, the run result, a node
  run's item count and last item, and the per-node summary loop.

In `SemanticDedupe`, similarity `dot / (|a| |b|) >= t` is decided exactly, without square roots:
- when `t > 0`, it holds iff `dot >= 0` and `dot² >= t² |a|² |b|²`;
- otherwise, iff `dot >= 0` or `dot² <= t² |a|² |b|²`.

`CosineAtLeastMeans` proves this equals the division form for any positive square root of
`|a|² |b|²`.

In `EventClustering`, DBSCAN is specified by the predicate `Labelling`, which says what the
labels promise:
- every point is noise (-1) or in one of the clusters 1 .. `clusters`;
- every cluster has a member and at most `max(1, maxSize)` members;
- a noise point has fewer than `minPts - 1` neighbours;
- a clustered point is a core point, or lies within `eps` of another member of its cluster.

The neighbour relation "cosine distance at most `eps`" is a parameter `near`, instantiated by the
node with `NearOf`, the similarity test of `SemanticDedupe`.

Rerunning the same batch emits nothing only while the URL cap evicts nothing
(`RerunEmitsNothing`). With a cap of 2, a store `{a: 1, b: 2}` and a batch `[a, c]`, the first run
evicts `a`, and a rerun emits `a` again (`RerunAfterEvictionCanEmit`).

The 280-character check of `TweetGen` does not always meet its limit. When a text is shortened
around its URLs, the separator after the ellipsis and those between the URLs are not counted, so
the result can reach `280 + max(1, number of URLs)` characters (`Truncated`). A 300-letter text
without a URL becomes 281 characters long (`LongPlainTextExceedsLimit`). The matching of Twitter
links is a substring test, so any URL containing `x.com/`, such as a `dropbox.com/` link, is
treated as one (`XComAnywhere`).

The poller's idempotence rests on its acknowledgement marker. A reply ends with
`x_daily_pack_ack cmd_ts=<ts>`, and the next run reads the first such mention in a bot reply.
`AckRoundTrip` proves the marker is read back whenever the body before it does not mention
`x_daily_pack_ack`; a bare mention of the prefix does no harm. The body quotes the tweet, the
posting service's answer or an error message, and a body holding a full marker for another
timestamp is read as that timestamp (`QuotedMarkerMisread`). The next run then acknowledges a
different command, and the command itself is answered again.

## Model

| member | source | states |
|---|---|---|
| CrossDayDedupe.UrlStore.PurgeExpired | scripts/cross-day-dedupe-node.js:31-39 | the map becomes `Unexpired(old map)` (entries with `now - ts <= expiry` kept in order) and the count is the number removed |
| CrossDayDedupe.PurgeKeepsIff | scripts/cross-day-dedupe-node.js:33-38 | an entry survives the purge iff it was stored and its age is at most the expiry; an entry exactly at the boundary survives |
| CrossDayDedupe.UrlStore.DedupeBatch | scripts/cross-day-dedupe-node.js:46-58 | the loop produces exactly the pass function's unique items, duplicate URLs, new URLs and new map |
| CrossDayDedupe.DedupeEmitsIff | scripts/cross-day-dedupe-node.js:46-58 | the emitted items are exactly the items, in input order, with a non-empty URL that is neither truthily stored nor carried by an earlier item of the batch |
| CrossDayDedupe.EmittedDistinct | scripts/cross-day-dedupe-node.js:46-58 | emitted items have non-empty, unseen and pairwise distinct URLs |
| CrossDayDedupe.EmittedSubset | scripts/cross-day-dedupe-node.js:46-58 | every emitted item is an input item |
| CrossDayDedupe.DedupeNeverRefreshes | scripts/cross-day-dedupe-node.js:50-56 | an already-seen URL keeps its timestamp, and a URL whose entry changes is now mapped to `now` |
| CrossDayDedupe.DedupeSeen | scripts/cross-day-dedupe-node.js:50-56 | for `now ≠ 0`, a URL is seen after the pass iff it was seen before or is a non-empty URL of the batch |
| CrossDayDedupe.NewUrlsOfUnique | scripts/cross-day-dedupe-node.js:55-57 | the new URLs are the URLs of the emitted items, in order |
| CrossDayDedupe.DedupeCounts | scripts/cross-day-dedupe-node.js:46-58 | unique + duplicates + URL-less items = input count |
| CrossDayDedupe.DedupeKeepsFresh | scripts/cross-day-dedupe-node.js:46-58 | if every stored entry is within expiry, every entry after the pass is too |
| CrossDayDedupe.UrlStore.EnforceMaxUrls | scripts/cross-day-dedupe-node.js:60-68 | the map becomes `Evict(old map, cap)`: the entries left after deleting the `|m| - cap` oldest, in map order |
| CrossDayDedupe.EvictSize | scripts/cross-day-dedupe-node.js:61-68 | after eviction the map holds `max(0, cap)` entries when it held more than `cap`, and all entries come from the old map |
| CrossDayDedupe.EvictOldestFirst | scripts/cross-day-dedupe-node.js:62-67 | every evicted entry is at most as new as every kept entry |
| CrossDayDedupe.EvictKeepsSuffix | scripts/cross-day-dedupe-node.js:62-67 | the kept entries are, as a multiset, the newest suffix of the oldest-first order |
| CrossDayDedupe.Run | scripts/cross-day-dedupe-node.js:27-81 | one run is purge, pass and eviction, with the stats the source logs |
| CrossDayDedupe.RerunEmitsNothing | scripts/cross-day-dedupe-node.js:46-68 | when the pass leaves no more than the cap, rerunning the same batch at the same time emits nothing |
| CrossDayDedupe.RerunAfterEvictionCanEmit | scripts/cross-day-dedupe-node.js:60-68 | a concrete store and batch where eviction removes a URL of the batch, so the rerun emits it again |
| SemanticDedupe.SimilarityReaches | scripts/semantic-dedupe-node.js:41-51 | computes, with the source's guards, whether cosine similarity reaches the threshold |
| SemanticDedupe.CosineAtLeastMeans | scripts/semantic-dedupe-node.js:43-50 | for non-zero norms of equal length, the test equals `dot / (normA·normB) >= t` |
| SemanticDedupe.CosineGuards | scripts/semantic-dedupe-node.js:42-49 | on a length mismatch or a zero norm the similarity is 0, so it reaches `t` iff `t <= 0` |
| SemanticDedupe.CosineSymmetric | scripts/semantic-dedupe-node.js:41-51 | the similarity test is symmetric |
| SemanticDedupe.CosineSelf | scripts/semantic-dedupe-node.js:41-51 | a non-zero vector is similar to itself for any threshold up to 1 |
| SemanticDedupe.ContentText | scripts/semantic-dedupe-node.js:54-61 | the text is the first `min(len, 500)` characters of trimmed title, newline, trimmed snippet: the whole text when it fits, exactly 500 characters otherwise |
| SemanticDedupe.HashStep | scripts/semantic-dedupe-node.js:71-72 | one step is `31·h + c` wrapped to a signed 32-bit integer |
| SemanticDedupe.Base36RoundTrip | scripts/semantic-dedupe-node.js:74 | the base-36 rendering parses back to the number |
| SemanticDedupe.UrlIdShape | scripts/semantic-dedupe-node.js:64-75 | the id starts with `emb_`, has at most 10 characters, and two URLs share an id iff their hashes have the same absolute value |
| SemanticDedupe.ContentId | scripts/semantic-dedupe-node.js:64-75 | the loop over UTF-16 code units computes `UrlId` |
| SemanticDedupe.MergeEmbeddings | scripts/semantic-dedupe-node.js:152-166 | the two loops over a `Map` compute `Merge` |
| SemanticDedupe.MergeIdsUnique | scripts/semantic-dedupe-node.js:152-166 | merged entries have non-empty, pairwise distinct ids |
| SemanticDedupe.MergeRecencyWins | scripts/semantic-dedupe-node.js:158-164 | an acceptable incoming entry leaves its id at least as new; a base entry is only replaced by an acceptable, strictly newer incoming entry |
| SemanticDedupe.ExpireKeepsIff | scripts/semantic-dedupe-node.js:196-198 | an entry is kept iff it has a timestamp and its age is strictly below the expiry |
| SemanticDedupe.EvictSize | scripts/semantic-dedupe-node.js:304-307 | after eviction the store holds `min(n, max)` entries for a non-negative `max`, and `max(0, n + max)` for a negative one (`slice(0, max)` then drops from the back); all entries come from the old store |
| SemanticDedupe.EvictKeepsNewest | scripts/semantic-dedupe-node.js:304-307 | every dropped entry is at most as new as every kept entry |
| SemanticDedupe.EntriesSound | scripts/semantic-dedupe-node.js:203-208 | every entry is an input item with its text and id, and its text is longer than 10 characters |
| SemanticDedupe.EntriesComplete | scripts/semantic-dedupe-node.js:203-208 | every item whose text is longer than 10 characters has its entry |
| SemanticDedupe.FetchEmbeddings | scripts/semantic-dedupe-node.js:216-226 | the batching loop yields the concatenated replies of the batches of `chunk(texts, size)` |
| SemanticDedupe.EmbedAllCount | scripts/semantic-dedupe-node.js:219-221 | with replies no longer than their requests, there are at most as many embeddings as texts, and as many only when every request is answered in full |
| SemanticDedupe.FailedRequestMismatch | scripts/semantic-dedupe-node.js:219-232 | a failed request (an empty reply) always produces a count mismatch |
| SemanticDedupe.FullRepliesMatch | scripts/semantic-dedupe-node.js:216-232 | when every request is answered in full the counts match |
| SemanticDedupe.FindSimilar | scripts/semantic-dedupe-node.js:255-265 | the loop with `break` finds whether any entry of the list reaches the threshold |
| SemanticDedupe.ScanEntries | scripts/semantic-dedupe-node.js:244-298 | the main loop computes `Scan`: an entry without embedding is emitted and not stored, one similar to a stored or earlier-accepted record is a duplicate, any other is emitted and its record accepted |
| SemanticDedupe.ScanSelects | scripts/semantic-dedupe-node.js:244-298 | the emitted items are the entries' items in input order, selected by the keep decision |
| SemanticDedupe.ScanCounts | scripts/semantic-dedupe-node.js:244-298 | emitted + duplicates = entries, and emitted = accepted + entries without an embedding |
| SemanticDedupe.ScanAcceptedShape | scripts/semantic-dedupe-node.js:289-296 | every accepted record has a non-empty embedding, timestamp `now`, and is built from one of the entries |
| SemanticDedupe.ScanAcceptsNothingStored | scripts/semantic-dedupe-node.js:255-265 | no accepted embedding reaches the threshold against a stored record |
| SemanticDedupe.ScanAcceptsNoNearPairs | scripts/semantic-dedupe-node.js:268-280 | no accepted embedding reaches the threshold against one accepted earlier in the run |
| SemanticDedupe.RepeatIsDropped | scripts/semantic-dedupe-node.js:255-265 | an item whose non-zero embedding is already stored is a duplicate for any threshold up to 1 |
| SemanticDedupe.CurateItems | scripts/semantic-dedupe-node.js:192-307 | expiry, text selection, batching, comparison and eviction compute `Curate` |
| SemanticDedupe.Run | scripts/semantic-dedupe-node.js:29-328 | one run returns the output, file save and stats of `Node`, and leaves static data as `Node` says |
| SemanticDedupe.PassThroughs | scripts/semantic-dedupe-node.js:29-36 | without an API key the input is returned and nothing written; empty input gives `[]`; no text or a count mismatch returns the input and writes no store |
| SemanticDedupe.FailureWritesNothing | scripts/semantic-dedupe-node.js:219-232 | any failed request returns the input unchanged and writes no store |
| SemanticDedupe.CurateOutput | scripts/semantic-dedupe-node.js:203-298 | the output is the items with text longer than 10 characters, in order, selected by the keep decision |
| SemanticDedupe.CurateStats | scripts/semantic-dedupe-node.js:316-323 | unique + duplicates = processed, 1 ≤ processed ≤ input, expired ≥ 0 |
| SemanticDedupe.CurateStore | scripts/semantic-dedupe-node.js:301-307 | the stored list has at most the cap and comes from the unexpired store plus this run's accepted records |
| EventClustering.NearSymmetric | scripts/event-clustering-node.js:40-53 | "cosine distance at most eps" is symmetric in the two points |
| EventClustering.NeighborsIff | scripts/event-clustering-node.js:61-73 | j is in p's neighbourhood iff j is a point other than p within eps of p |
| EventClustering.NeighborsSound | scripts/event-clustering-node.js:65-71 | every listed neighbour is another point within eps of p |
| EventClustering.RegionQuery | scripts/event-clustering-node.js:61-73 | the scan over all points returns `Neighbors`: the other points within eps, in index order |
| EventClustering.PushUnvisited | scripts/event-clustering-node.js:103-107 | the queue is extended by exactly the new neighbours not yet visited, in order |
| EventClustering.ExpandCluster | scripts/event-clustering-node.js:76-113 | the seed gets the cluster id; only noise or unvisited points are relabelled, and only to this id; the returned size is the cluster's member count and at most `max(1, maxSize)`; every member other than the seed lies within eps of another member; below the cap every neighbour of the seed is clustered |
| EventClustering.ScanPoint | scripts/event-clustering-node.js:121-136 | one step of the outer scan keeps the scan invariant: labelled points are skipped, a non-core point becomes noise, a core point seeds the next cluster |
| EventClustering.Dbscan | scripts/event-clustering-node.js:116-139 | the labels satisfy `Labelling` for the n points |
| EventClustering.SinglePointIsNoise | scripts/event-clustering-node.js:121-131 | with `minPts >= 2` a lone point is noise |
| EventClustering.PartitionCount | scripts/event-clustering-node.js:195-196 | valid and invalid points together number the items |
| EventClustering.ValidComplete | scripts/event-clustering-node.js:195 | every item with an embedding is among the valid points |
| EventClustering.InvalidComplete | scripts/event-clustering-node.js:196 | every item without an embedding is among the invalid points |
| EventClustering.ValidInOrder | scripts/event-clustering-node.js:195 | the valid points are in strictly increasing input order, so none repeats |
| EventClustering.InvalidInOrder | scripts/event-clustering-node.js:196 | the invalid points are in strictly increasing input order, so none repeats |
| EventClustering.MembersComplete | scripts/event-clustering-node.js:216-225 | every point with label c is listed among c's members |
| EventClustering.MembersCount | scripts/event-clustering-node.js:216-225 | a cluster's member list is as long as its label count |
| EventClustering.AddMemberLookup | scripts/event-clustering-node.js:221-224 | adding a member appends it to its cluster's list, creating the list when new, and leaves other clusters alone |
| EventClustering.GroupsLookup | scripts/event-clustering-node.js:216-226 | the cluster map holds, for a positive label with members, exactly its members in index order, and nothing for noise or absent labels |
| EventClustering.GroupsDistinct | scripts/event-clustering-node.js:221-224 | the cluster map has one entry per label |
| EventClustering.GroupEntries | scripts/event-clustering-node.js:213-226 | every entry of the cluster map is a positive label with its non-empty member list |
| EventClustering.GroupsCover | scripts/event-clustering-node.js:220-225 | every clustered point's label has its entry in the cluster map |
| EventClustering.GroupByLabel | scripts/event-clustering-node.js:213-226 | the loop builds `Groups(labels)` and counts the noise points |
| EventClustering.SummarizeMeans | scripts/event-clustering-node.js:235-255 | a summary's articles are the member points (as a multiset), `articleCount` is the member count, `maxScore` is at least every member's score and is the score of the top article, which is a member, and the representative title is that article's |
| EventClustering.AverageAtMostMax | scripts/event-clustering-node.js:253-254 | a cluster's average score is at most its maximum score |
| EventClustering.BuildClusters | scripts/event-clustering-node.js:233-258 | one summary per cluster-map entry, in map order, with its point indices |
| EventClustering.MapPoints | scripts/event-clustering-node.js:271-273 | each point of the entry is mapped to the cluster and every other mapping is kept |
| EventClustering.IndexClusters | scripts/event-clustering-node.js:268-274 | every clustered point, and nothing else, maps to the summary of its own cluster |
| EventClustering.BuildOutput | scripts/event-clustering-node.js:276-323 | the output loops compute `Annotate`: one item per valid point, tagged with its cluster or flagged as noise, then each item without embedding flagged as skipped |
| EventClustering.EventClusteringNode | scripts/event-clustering-node.js:20-323 | disabled: the input; empty: `[]`; fewer than `minPts` items or embeddings: every item noise; otherwise DBSCAN labels satisfying `Labelling` and the output `Annotate(items, labels)` |
| EventClustering.AnnotateItems | scripts/event-clustering-node.js:277-323 | the output has one item per input item: the valid points in input order, then the skipped items in input order, flagged noise and skipped |
| EventClustering.AnnotateNoise | scripts/event-clustering-node.js:283-309 | a valid point is flagged noise, with no cluster, iff DBSCAN left it unclustered |
| EventClustering.AnnotateTag | scripts/event-clustering-node.js:285-299 | a clustered point's tag has its label, its cluster's member count, and is representative iff its url equals the top-scored article's url |
| EventClustering.RepresentativeExists | scripts/event-clustering-node.js:239-295 | every cluster has a member flagged as representative |
| EventClustering.ClusterSizeCapped | scripts/event-clustering-node.js:83-113 | no output cluster has more than `max(1, maxSize)` articles |
| FeedbackStorage.InitStorage | scripts/feedback-storage.js:17-30 | missing history becomes `[]` and missing weights become version 1 with no boosts; present fields are kept, so a second call changes nothing |
| FeedbackStorage.UnexpiredIff | scripts/feedback-storage.js:74-76 | a record survives expiry iff it was in the history and is younger than 30 days (strictly) |
| FeedbackStorage.UnexpiredAppend | scripts/feedback-storage.js:74-76 | expiry filters each part of a concatenation separately, so the kept records stay in order |
| FeedbackStorage.CleanExpiredFeedback | scripts/feedback-storage.js:69-79 | the history becomes its unexpired records and the result is the number removed |
| FeedbackStorage.KeepLast | scripts/feedback-storage.js:59-61 | keeping the newest n records yields `min(len, n)` records, a suffix of the history |
| FeedbackStorage.CategoryFallback | scripts/feedback-storage.js:48 | a stored article's category is never empty: its own, else its score's, else `unknown` |
| FeedbackStorage.RecordFeedback | scripts/feedback-storage.js:35-64 | returns the new record and leaves the history `Recorded(old history, record, now)` |
| FeedbackStorage.RecordedShape | scripts/feedback-storage.js:53-61 | after recording, the new record is last, at most 500 records remain, none expired, and before it come the newest 499 unexpired old records |
| FeedbackStorage.CountRecordArticles | scripts/feedback-storage.js:112-130 | the article loop adds one article's count to its key: approved for an approved record, ignored otherwise |
| FeedbackStorage.GetFeedbackStats | scripts/feedback-storage.js:84-134 | the statistics loop computes `Stats` of the stored history (missing history counts as empty) |
| FeedbackStorage.StatsBounds | scripts/feedback-storage.js:98-109 | `last7Days <= last30Days <= total`, and the exact `approved` and `ignored` counts sum to at most `total` |
| FeedbackStorage.ByKeyCounts | scripts/feedback-storage.js:112-130 | a key has an entry iff some article has it, and the entry counts that key's articles from approved records as approved and those from any other action as ignored |
| FeedbackStorage.SaveLearnedWeights | scripts/feedback-storage.js:139-146 | the stored weights are the given ones with version `previous + 1` (0 when none stored) and `updatedAt = now` |
| FeedbackStorage.GetLearnedWeights | scripts/feedback-storage.js:151-158 | the stored weights, or version 0 with no boosts |
| FeedbackLearning.BoostValue | scripts/feedback-learning.js:40-43 | a boost equals the approval rate minus 0.33, lies in [-0.33, 0.67] (the clamp to [-3, 3] never binds) and is positive iff the rate exceeds 0.33 |
| FeedbackLearning.BoostTable | scripts/feedback-learning.js:36-44 | the entries loop gives a boost to exactly the keys with at least 5 samples |
| FeedbackLearning.CalculateBoosts | scripts/feedback-learning.js:21-47 | the counting loops and the entries loop compute `Boosts(ByKey(history, key))`, for categories and sources alike |
| FeedbackLearning.BoostsFromHistory | scripts/feedback-learning.js:52-75 | a key has a boost iff at least 5 articles carry it, and the boost is the share of them from approved records minus 0.33 |
| FeedbackLearning.ApplyDecay | scripts/feedback-learning.js:80-93 | missing weights come back missing; no elapsed time leaves the weights unchanged; otherwise each weight is scaled by the factor |
| FeedbackLearning.DecayEach | scripts/feedback-learning.js:84-90 | the decay loop keeps exactly the keys whose scaled weight is at least 0.01 in magnitude, with the scaled weight |
| FeedbackLearning.DecayBounded | scripts/feedback-learning.js:80-93 | decay never adds a key and, for a factor in [0, 1], keeps weights in [-3, 3] |
| FeedbackLearning.Learn | scripts/feedback-learning.js:98-139 | under 5 records: `insufficient_samples` and nothing stored; otherwise `Learned(history, old weights, now)` is stored and returned |
| FeedbackLearning.LearnedHeader | scripts/feedback-learning.js:123-132 | the learned weights carry version `old + 1`, the time of learning, and the sample and key counts |
| FeedbackLearning.MergedEntry | scripts/feedback-learning.js:115-120 | a key with at least 5 samples takes its fresh boost; any other key keeps its decayed old weight if that survived |
| FeedbackLearning.MergedWithoutTimestamp | scripts/feedback-learning.js:111-116 | weights without `updated_at` are merged undecayed |
| FeedbackLearning.MergedBounded | scripts/feedback-learning.js:115-120 | merging keeps weights in [-3, 3] when the old ones were and the factor is in [0, 1] |
| FeedbackLearning.LearnedBounded | scripts/feedback-learning.js:98-139 | learning keeps both boost tables within [-3, 3] under the same conditions |
| FeedbackLearning.GetScoreAdjustment | scripts/feedback-learning.js:144-156 | a missing category or source contributes nothing, and bounded weights give an adjustment within [-6, 6] |
| FeedbackLearning.LearnedAdjustment | scripts/feedback-learning.js:98-156 | right after learning, a category and a source with at least 5 samples each adjust a score by the sum of their approval rates' excesses over 0.33 |
| FeedbackRecorder.NewRecordsShape | scripts/feedback-recorder-node.js:58-95 | one record per posted or dry-run item, each stamped `now`, approved, without articles, and every such item's record is present |
| FeedbackRecorder.NodeHistoryShape | scripts/feedback-recorder-node.js:47-100 | at most 500 records remain and none expired; nothing is dropped when everything fits, and otherwise the newest approvals are the tail |
| FeedbackRecorder.FeedbackRecorderNode | scripts/feedback-recorder-node.js:9-104 | the items pass through; disabled or without static data nothing is recorded; otherwise storage is initialised, expired records dropped, approvals appended and the newest 500 kept |
| LlmSelection.MetricScoreMonotone | scripts/llm-rank-node.js:59-66 | the engagement score grows with every metric and is 0 without metrics |
| LlmSelection.ParseTime | scripts/llm-rank-node.js:68-72 | a missing date gives 0 and a date in the representable range gives its own timestamp |
| LlmSelection.SourceTypeOf | scripts/llm-rank-node.js:78 | a given `sourceType` is kept; otherwise the entry is X exactly when its source starts with `X -` |
| LlmSelection.Prep | scripts/llm-rank-node.js:74-86 | one entry per input item, in order, carrying the item and its own position as index |
| LlmSelection.XItems | scripts/llm-rank-node.js:90 | an entry is among the X entries iff it is prepared and of type X |
| LlmSelection.PartitionSizes | scripts/llm-rank-node.js:90-91 | every entry goes to exactly one of the X and RSS lists |
| LlmSelection.RssKeyOrder | scripts/llm-rank-node.js:96-102 | the RSS key ranks a higher tier priority first and, within a tier, the later publication first |
| LlmSelection.XRatio | scripts/llm-rank-node.js:9-10 | the ratio lies in [0, 1], is the setting itself when that is in range, and 0.4 when the setting is not a number |
| LlmSelection.MaxItemsSafe | scripts/llm-rank-node.js:88 | at least 1, and `min(maxItems, n)` when both are positive |
| LlmSelection.XTarget | scripts/llm-rank-node.js:104 | the rounded X target lies in [0, maxItemsSafe] |
| LlmSelection.QuotasSplit | scripts/llm-rank-node.js:104-108 | neither quota exceeds its supply, and together they make `min(maxItemsSafe, nX + nRSS)` |
| LlmSelection.BucketsWellFormed | scripts/llm-rank-node.js:130-135 | bucket keys are distinct and every entry sits in the bucket of its own source (`source || 'X'`) |
| LlmSelection.CappedPiece | scripts/llm-rank-node.js:141-145 | a bucket contributes at most its cap of its own entries; a negative cap drops that many from the end |
| LlmSelection.TakeAllShape | scripts/llm-rank-node.js:145-160 | picking keeps what was picked, adds only candidates, never repeats an index and stops at the quota |
| LlmSelection.TakeAllCovers | scripts/llm-rank-node.js:154-160 | unless the quota is reached, every candidate's index has been picked |
| LlmSelection.XSelectionExact | scripts/llm-rank-node.js:137-161 | with distinct indices and enough entries, the X selection holds exactly `xQuota` distinct-indexed X entries |
| LlmSelection.CandsMembers | scripts/llm-rank-node.js:140-145 | every first-pass candidate comes from one of the buckets |
| LlmSelection.FirstPassCapped | scripts/llm-rank-node.js:140-152 | the first pass takes at most the source's cap (when non-negative) from each source |
| LlmSelection.BucketEntries | scripts/llm-rank-node.js:130-135 | the loop builds exactly the buckets of the X entries, in order of first appearance |
| LlmSelection.PickFromBuckets | scripts/llm-rank-node.js:140-152 | the bucket loop picks exactly the first pass, and `pickedIndexes` is the set of its indices |
| LlmSelection.PickFromBucket | scripts/llm-rank-node.js:145-160 | the inner loop over one list picks what the specification picks, stopping at the quota and skipping picked indices |
| LlmSelection.SelectX | scripts/llm-rank-node.js:137-161 | the selection loops together produce exactly the specified X selection |
| LlmSelection.XSortedDistinct | scripts/llm-rank-node.js:74-93 | the sorted X entries carry pairwise distinct indices |
| LlmSelection.XPartShape | scripts/llm-rank-node.js:93-161 | any X quota within the X supply is met exactly, by distinct-indexed X entries of the input |
| LlmSelection.QuotaPairShape | scripts/llm-rank-node.js:88-108 | the quotas are within supply and add up to `min(maxItemsSafe, n)` |
| LlmSelection.SelectionShape | scripts/llm-rank-node.js:74-163 | `selected` holds `min(maxItemsSafe, n)` entries, and its X part exactly `xQuota` distinct X entries |
| LlmSelection.SelectionSize | scripts/llm-rank-node.js:163 | `selected` holds `min(maxItemsSafe, n)` entries |
| LlmRank.LoadedWeights | scripts/llm-rank-node.js:20-36 | the stored learned weights when learning is enabled and they exist, otherwise empty boosts |
| LlmRank.TierBoost | scripts/llm-rank-node.js:345-353 | tiers A, C and D get their adjustments and every other tier B's (0, 0) |
| LlmRank.ScoreEntryShape | scripts/llm-rank-node.js:336-378 | impact in [0, 9], actionability in [0, 7], total in [0, 30], each the plain sum when in range; the learned boost is 0 without weights for the category and source |
| LlmRank.EstimateEntry | scripts/llm-rank-node.js:379-394 | an entry without a model score gets an estimated total of at most 30 |
| LlmRank.ScoreMapLatest | scripts/llm-rank-node.js:330-334 | an id is in the score map iff some score carries it, and it maps to the last one |
| LlmRank.BuildScoreMap | scripts/llm-rank-node.js:330-334 | the loop builds exactly the score map |
| LlmRank.PushGroup | scripts/llm-rank-node.js:336-396 | one ranked item per batch entry is appended, in batch order |
| LlmRank.FailedCountAll | scripts/llm-rank-node.js:326-328 | the failure count equals the batch count iff every request failed |
| LlmRank.RankAllAligned | scripts/llm-rank-node.js:204-397 | `rankedItems` has one item per selected entry, in order, carrying that entry's data |
| LlmRank.RankBatches | scripts/llm-rank-node.js:204-397 | the batch loop produces exactly the specified ranked items and failure count |
| LlmRank.BatchCount | scripts/llm-rank-node.js:399 | `Math.ceil(selected.length / size)` is the number of batches |
| LlmRank.ThresholdPrefix | scripts/llm-rank-node.js:403-409 | on a list sorted by total, the score filter keeps a prefix, and every dropped item scores below the threshold |
| LlmRank.CapSourcesPerSource | scripts/llm-rank-node.js:411-419 | the cap keeps exactly the first `max(cap, 0)` items of every source |
| LlmRank.CapSourcesSorted | scripts/llm-rank-node.js:411-419 | the cap keeps only input items, and a sorted list stays sorted |
| LlmRank.CapPerSource | scripts/llm-rank-node.js:411-419 | the loop with its count map keeps exactly what the cap specifies |
| LlmRank.FinishShape | scripts/llm-rank-node.js:403-419 | the output is sorted by total, at least the threshold, taken from the ranked items, with the best `max(cap, 0)` of each source |
| LlmRank.RankSelectedFails | scripts/llm-rank-node.js:399-401 | the node throws exactly when every batch failed, and always for an empty selection |
| LlmRank.RankSelectedOutput | scripts/llm-rank-node.js:403-432 | sorted, above the threshold, capped per source; `after_llm_ranking` equals the number selected and the filter counts are differences |
| LlmRank.RankFails | scripts/llm-rank-node.js:49-51 | the node throws on a missing API key, and otherwise returns items iff some batch got a reply |
| LlmRank.RankNoItems | scripts/llm-rank-node.js:399-401 | with no input items the node never returns items |
| LlmRank.RankCounts | scripts/llm-rank-node.js:422-432 | when items are returned, the input count is `n` and `min(maxItemsSafe, n)` entries were ranked |
| LlmRank.FilterRanked | scripts/llm-rank-node.js:403-419 | the sort, the score filter and the per-source cap give exactly the specified lists |
| LlmRank.RankSelectedNode | scripts/llm-rank-node.js:204-432 | the node from the batch loop on produces exactly the specified outcome |
| LlmRank.LlmRankNode | scripts/llm-rank-node.js:1-435 | the node produces exactly the specified outcome for its input, settings, stored weights and model replies |
| TweetGen.TallyCounts | scripts/tweet-gen-node.js:51-60 | each `by_*` table maps a key to the number of candidates carrying it, and holds exactly the keys some candidate carries |
| TweetGen.SumOverRemove | scripts/tweet-gen-node.js:58-60 | the sum of a table's counts does not depend on the order its keys are taken in |
| TweetGen.MapSumBump | scripts/tweet-gen-node.js:58-60 | counting one more candidate under a key raises the table's total by one |
| TweetGen.TallySum | scripts/tweet-gen-node.js:51-60 | the counts of each `by_*` table add up to the number of candidates |
| TweetGen.BandsSum | scripts/tweet-gen-node.js:62-64 | every candidate lands in exactly one score band, so the bands add up to the candidate count |
| TweetGen.StatsShape | scripts/tweet-gen-node.js:41-68 | the statistics count every candidate once in the bands and under its source type, tier and category, and each table's counts add up to `total_candidates` |
| TweetGen.StatsStep | scripts/tweet-gen-node.js:51-67 | one more candidate raises its key's count by one, joins its band and adds its score to the sum |
| TweetGen.CollectStats | scripts/tweet-gen-node.js:50-68 | the loop over the candidates computes exactly the specified statistics |
| TweetGen.XComAnywhere | scripts/tweet-gen-node.js:70-73 | any URL containing `x.com/` counts as a Twitter URL, whatever host precedes it |
| TweetGen.Top10Shape | scripts/tweet-gen-node.js:75-95 | at most ten sources, each from the input with a usable link; none exactly when no candidate has a usable link |
| TweetGen.Top10Order | scripts/tweet-gen-node.js:75-95 | the first eligible candidates (never X sources) when any is eligible, else the first linkable ones, ten at most |
| TweetGen.UrlAtStart | scripts/tweet-gen-node.js:177-180 | a URL match starts with `h`, so it is never white space |
| TweetGen.UrlAtShift | scripts/tweet-gen-node.js:177-180 | a URL match in a suffix is a match in the whole text |
| TweetGen.EnsureUrlShape | scripts/tweet-gen-node.js:183-195 | a text with a URL is kept; otherwise the source's `url` is appended after a space when there is one, and the result then has a URL whenever that `url` is one |
| TweetGen.ToneGuardShape | scripts/tweet-gen-node.js:220-250 | a draft passes unchanged iff it has text and none of its text, rationale and risk holds a blocklisted word; otherwise the tone-guarded template replaces it; the text is never empty |
| TweetGen.FirstUrlFrom | scripts/tweet-gen-node.js:267-268 | the first URL match at or after a position, or none when no position matches |
| TweetGen.RunEnd | scripts/tweet-gen-node.js:267-268 | a match runs over non-space characters up to the next white space or the end |
| TweetGen.Join | scripts/tweet-gen-node.js:292 | the joined URLs are as long as the URLs plus one space between each two |
| TweetGen.RemoveUrls | scripts/tweet-gen-node.js:286-289 | removing the URLs never lengthens the text |
| TweetGen.ShortenAroundUrls | scripts/tweet-gen-node.js:285-292 | the shortened text ends with "... " and all the URLs, and is at most `280 + max(1, number of URLs)` long |
| TweetGen.Truncated | scripts/tweet-gen-node.js:266-292 | with under 50 characters of room the text is cut to exactly 280 characters ending in an ellipsis, otherwise it ends with its URLs within `280 + max(1, number of URLs)` |
| TweetGen.ValidateShape | scripts/tweet-gen-node.js:256-301 | a text of at most 280 characters is kept and flagged as not truncated; a longer one is truncated and flagged with its original length; the recorded length is the new text's, and the text stays non-empty |
| TweetGen.LongPlainTextExceedsLimit | scripts/tweet-gen-node.js:285-292 | a 300-letter text without a URL comes out 281 characters long |
| TweetGen.FinalTweetShape | scripts/tweet-gen-node.js:303-308 | each of the three tweets has non-empty text and records its own length |
| TweetGen.TweetGenerateShape | scripts/tweet-gen-node.js:95-323 | the node throws iff no candidate has a usable link or the model's reply fails; otherwise its sources are the chosen ones, its statistics cover every candidate and every tweet is finished |
| TweetGen.TweetGenNode | scripts/tweet-gen-node.js:1-323 | the node produces exactly the specified outcome for its candidates, settings and the model's reply |
| SlackApproval.DigitRun | scripts/slack-approval-node.js:26-29 | the end of the run of digits from a position: every character in the run is a digit and the one after it is not |
| SlackApproval.ParseTsDecimal | scripts/slack-approval-node.js:26-29 | `toNumberTs` reads a Slack timestamp `seconds.fraction` as the seconds plus the fraction over its power of ten, and plain digits as their value |
| SlackApproval.FreshMonotone | scripts/slack-approval-node.js:249-253 | without a positive age limit every command is fresh, and a command fresh under a positive limit stays fresh under a larger one |
| SlackApproval.FutureNotFresh | scripts/slack-approval-node.js:249-253 | under a positive age limit a command stamped after `now` is never fresh |
| SlackApproval.SpaceRun | scripts/slack-approval-node.js:164 | the end of the white-space run from a position |
| SlackApproval.NormalizePrefix | scripts/slack-approval-node.js:163 | trimming and lower-casing a text that starts with a non-space character lower-cases it up to any later non-space character and the one after |
| SlackApproval.NormalizeKeeps | scripts/slack-approval-node.js:163 | a text without outer white space and without capitals is already normalised |
| SlackApproval.MatchCommandWord | scripts/slack-approval-node.js:164 | a command word, spaces, an option digit and then no word character is matched as that option, whichever of the four words it is |
| SlackApproval.CommandWordLower | scripts/slack-approval-node.js:164 | the four command words have no capital letter |
| SlackApproval.CommandLayout | scripts/slack-approval-node.js:164 | where the word, the spaces, the digit and the rest of a command lie in its text |
| SlackApproval.NormalizedCommand | scripts/slack-approval-node.js:163-164 | normalising a command keeps its word, spaces and digit and still leaves no word character after the digit |
| SlackApproval.CommandRoundTrip | scripts/slack-approval-node.js:162-167 | `parseCommand` reads any command word followed by any number of spaces, a digit 1 to 3 and a non-word character (or nothing) as that option |
| SlackApproval.SpaceRunAll | scripts/slack-approval-node.js:164 | a white-space run ending at a non-space character is the run `\s*` consumes |
| SlackApproval.OptionFourNotCommand | scripts/slack-approval-node.js:162-167 | "post 4" is not a command |
| SlackApproval.OptionTwelveNotCommand | scripts/slack-approval-node.js:162-167 | "post 12" is not a command: the `\b` after the digit fails |
| SlackApproval.TsRun | scripts/slack-approval-node.js:170 | the end of the run of digits and points from a position |
| SlackApproval.AckAt | scripts/slack-approval-node.js:169-172 | a match at a position captures a non-empty run of digits and points |
| SlackApproval.AckFromSkip | scripts/slack-approval-node.js:169-172 | the leftmost-match search passes over positions where nothing matches |
| SlackApproval.ToLowerKeeps | scripts/slack-approval-node.js:170 | lower-casing a text without capitals keeps it |
| SlackApproval.AckAtIs | scripts/slack-approval-node.js:170 | the prefix in any case, white space, `cmd_ts=` in any case and a timestamp ending the run are matched, capturing that timestamp |
| SlackApproval.AckWordsLower | scripts/slack-approval-node.js:170 | the marker words are already lower case |
| SlackApproval.MarkerLayout | scripts/slack-approval-node.js:334 | where the prefix, the space, `cmd_ts=` and the timestamp lie in a reply ending with the marker |
| SlackApproval.AckAtMarker | scripts/slack-approval-node.js:169-172 | the marker in a reply is matched at its prefix and captures the command timestamp |
| SlackApproval.TsRunAll | scripts/slack-approval-node.js:170 | a run of digits and points that ends the capture is what the capture group takes |
| SlackApproval.PrefixLacks | scripts/slack-approval-node.js:23 | the prefix contains neither a newline nor an opening parenthesis |
| SlackApproval.MarkerOpens | scripts/slack-approval-node.js:334 | the marker opens with a blank line and `_(` |
| SlackApproval.NoAckBeforeMarker | scripts/slack-approval-node.js:169-172 | in a reply whose body does not mention the prefix, no match starts before the marker's prefix |
| SlackApproval.AckRoundTrip | scripts/slack-approval-node.js:169-172 | `extractAckTs` reads back the timestamp of the marker appended to any body that does not mention the prefix, for a timestamp of digits and points |
| SlackApproval.QuotedMarkerMisread | scripts/slack-approval-node.js:169-172 | the first match wins: a body holding the full marker for timestamp 1 before the marker for timestamp 2 is read back as 1 |
| SlackApproval.IndexOfIs | scripts/slack-approval-node.js:187-190 | `indexOf` is the first position where the pattern occurs |
| SlackApproval.MarkerNotStraddling | scripts/slack-approval-node.js:189-190 | the count marker cannot start inside the tweet and run on into the marker that follows it |
| SlackApproval.MarkerAfterDraft | scripts/slack-approval-node.js:189-191 | in a section the count marker is first found right after a tweet that does not contain it |
| SlackApproval.NewlineAfterHeader | scripts/slack-approval-node.js:187-188 | the first newline of a section is the one after its one-line header |
| SlackApproval.SectionRoundTrip | scripts/slack-output-node.js:174 | the draft read from an Option section written by the output node is the trimmed tweet, provided the tweet does not contain the count marker |
| SlackApproval.ApplyBlockDraft | scripts/slack-approval-node.js:195-202 | a block sets exactly the drafts of the options its section text mentions, from that text, and leaves the others |
| SlackApproval.DraftsFromLastMention | scripts/slack-approval-node.js:182-205 | an option's draft comes from the last section mentioning it, and is empty when none does |
| SlackApproval.ExtractDraftsLoop | scripts/slack-approval-node.js:195-202 | the `forEach` over the blocks computes the specified drafts |
| SlackApproval.PackRootsShape | scripts/slack-approval-node.js:255-258 | the limit `max(1, min(maxThreads, 50))` lies in [1, 50], and the roots kept are exactly the first `min(limit, #qualifying)` pack roots (daily-pack messages not replying in a thread) of the history, in history order |
| SlackApproval.RepliesLimit | scripts/slack-approval-node.js:296 | the replies limit lies in [20, 200] and is the setting when the setting does |
| SlackApproval.AscRoots | scripts/slack-approval-node.js:263 | the roots sorted by ascending timestamp, a permutation of them |
| SlackApproval.RouteGreatest | scripts/slack-approval-node.js:271-279 | over ascending roots, the chosen root has the greatest timestamp not after the command, and none is chosen exactly when every root is later |
| SlackApproval.FindTarget | scripts/slack-approval-node.js:272-277 | the loop over the ascending roots finds the specified target |
| SlackApproval.ChannelCommandsShape | scripts/slack-approval-node.js:266-279 | every channel-level command kept is a fresh top-level user message that parses as a command, routed to its nearest preceding root; and every such message with a root is kept |
| SlackApproval.CollectChannelCommands | scripts/slack-approval-node.js:266-279 | the filters and the routing compute the specified channel-level commands |
| SlackApproval.AckedIff | scripts/slack-approval-node.js:301-306 | a timestamp is acknowledged iff some bot reply in the thread carries a marker for it |
| SlackApproval.PickShape | scripts/slack-approval-node.js:323-331 | at most once: the answered commands have distinct timestamps, none acknowledged, each taken from an entry; every unacknowledged entry with a command is answered |
| SlackApproval.PickFirst | scripts/slack-approval-node.js:323-331 | the first entry for a timestamp decides the option answered |
| SlackApproval.CollectAcked | scripts/slack-approval-node.js:301-306 | the loop gathers exactly the acknowledged timestamps |
| SlackApproval.CollectEntries | scripts/slack-approval-node.js:309-321 | the loops gather the thread's fresh user replies, then the channel-level commands routed to the thread |
| SlackApproval.HandleShape | scripts/slack-approval-node.js:333-372 | each reply goes to the thread and ends with the command's marker; the status is missing_draft, dry_run, posted or failed exactly as the draft, the write switch and the posting service decide |
| SlackApproval.ReplyAcknowledges | scripts/slack-approval-node.js:334-372 | a reply is read back on the next run as the acknowledgement of its command, when the command timestamp is digits and points and the reply body does not mention the prefix |
| SlackApproval.HandleAllSnoc | scripts/slack-approval-node.js:325-373 | answering one more command appends its answer |
| SlackApproval.ProcessEntries | scripts/slack-approval-node.js:323-373 | the seen-set loop answers exactly the picked commands, in order |
| SlackApproval.HandleAllShape | scripts/slack-approval-node.js:325-373 | answers to commands with distinct timestamps are marked, in the thread, in command order and never twice |
| SlackApproval.RootRunShape | scripts/slack-approval-node.js:286-373 | within one thread, every reply is marked, no command is answered twice and none the thread already acknowledges |
| SlackApproval.RepliedCommandNotRepeated | scripts/slack-approval-node.js:301-331 | a command whose acknowledgement a bot reply already carries, as a previous run leaves it, is not answered again |
| SlackApproval.AppendThread | scripts/slack-approval-node.js:286-374 | adding the answers of a new thread keeps all answers marked and once per thread |
| SlackApproval.ThreadsShape | scripts/slack-approval-node.js:286-374 | the runs of roots with distinct timestamps, each confined to its thread, are marked, in the roots' threads and once per thread |
| SlackApproval.RunRootsShape | scripts/slack-approval-node.js:286-374 | across roots with distinct timestamps every reply is marked and no command is answered twice in a thread |
| SlackApproval.RunRoot | scripts/slack-approval-node.js:287-373 | the run of one root computes its specified answers |
| SlackApproval.RunRootsSnoc | scripts/slack-approval-node.js:286-374 | running one more root appends its answers |
| SlackApproval.RunAllRoots | scripts/slack-approval-node.js:286-374 | the loop over the pack roots computes the specified answers |
| SlackApproval.SlackApprovalNode | scripts/slack-approval-node.js:7-379 | the poller computes exactly the specified outcome, and stops with an error exactly when the Slack token, the channel, or (when writing is on) the Rube token is missing |
| SlackApproval.AnswersShape | scripts/slack-approval-node.js:241-376 | with unique Slack timestamps, the node answers nothing without a pack root, and otherwise every reply is marked, goes to a pack root's thread from the history, and no command is answered twice in a thread |
| QualityGate.CheckQualityShape | scripts/ai-quality-gate.js:45-125 | without an API key the check fails; otherwise there is one result per item, in input order, with the item's fields and a quality check: the model's assessment, or the fallback (factuality 5, bias risk medium, spam score 5, recommendation review) carrying the error's message |
| QualityGate.CheckQualityBatches | scripts/ai-quality-gate.js:64-124 | the loop over batches of `batchSize` items, each batch's results appended in order, computes `CheckQuality` |
| QualityGate.Allowed | scripts/ai-quality-gate.js:131-137 | every threshold lets `pass` through and nothing beyond the three recommendations; `review` passes unless the threshold is `pass`, and `reject` only when it is `reject` (an unknown threshold acts as `review`) |
| QualityGate.FilterIsSelect | scripts/ai-quality-gate.js:139-142 | filtering keeps exactly the elements whose flag is set, in input order |
| QualityGate.FilterByQualityShape | scripts/ai-quality-gate.js:130-143 | the filter keeps, in input order, exactly the items whose recommendation the threshold allows, an item without one counting as `review` |
| QualityGate.FilterMonotone | scripts/ai-quality-gate.js:131-135 | what the `pass` threshold keeps `review` keeps, and what `review` keeps `reject` keeps |
| QualityGate.FallbackKeptUnlessPass | scripts/ai-quality-gate.js:99-111 | an item whose check failed survives every threshold except `pass` |
| QualityGate.InitialCountsAt | scripts/ai-quality-gate.js:149-156 | the counters start with `total` at the number of items and the three recommendations at 0 |
| QualityGate.GetQualityStats | scripts/ai-quality-gate.js:148-176 | the loop computes the counters and the averages of `QualityStats`, the averages dividing by the number of all items |
| QualityGate.TallyCounts | scripts/ai-quality-gate.js:161-168 | each counter is its starting value plus the number of checked items whose recommendation is its key |
| QualityGate.TallyKeys | scripts/ai-quality-gate.js:161-168 | a counter exists exactly for the four starting keys and the recommendations of checked items |
| QualityGate.TallyNoAverageKeys | scripts/ai-quality-gate.js:165-173 | no counter remains under the two average keys |
| QualityGate.StatsCounts | scripts/ai-quality-gate.js:148-176 | `total` is the number of items plus the number recommending `total`; `pass`, `review` and `reject` count the checked items recommending them |
| QualityGate.StatsCountsClosed | scripts/ai-quality-gate.js:148-176 | when every check recommends pass, review or reject, the only counters are the four, `total` is the number of items, and the three counts add up to the number of checked items |
| QualityGate.CountThree | scripts/ai-quality-gate.js:161-168 | under the same condition, the three per-recommendation counts split the checked items |
| QualityGate.TotalRecommendationRaisesTotal | scripts/ai-quality-gate.js:150-165 | a single item recommending `total` makes `total` 2 |
| AskSplit.LastIndexOfFrom | bot/commands/ask.js:106 | `lastIndexOf` from a position inside the string: the last index at most that position holding the character, or -1 when none does |
| AskSplit.SplitIndex | bot/commands/ask.js:106-109 | the cut lies between 1 and `maxLength` |
| AskSplit.SplitIndexSpec | bot/commands/ask.js:106-109 | the cut is the greatest newline position in `[maxLength / 2, maxLength]` when there is one, and `maxLength` otherwise |
| AskSplit.SplitMessageLoop | bot/commands/ask.js:94-116 | the loop computes `SplitMessage`: the parts cut one after another, the rest losing its leading white space each time |
| AskSplit.PiecesStep | bot/commands/ask.js:106-112 | one turn of the loop cuts the part before the split index and goes on with the trimmed rest |
| AskSplit.PiecesBounded | bot/commands/ask.js:100-113 | every part the loop cuts is non-empty and at most `maxLength` long |
| AskSplit.SplitMessageShape | bot/commands/ask.js:94-116 | a text that fits is one message, as it is; a longer text becomes parts that are non-empty and at most `maxLength` long, the first being the text up to the cut |
| AskSplit.NonSpaceTrimStart | bot/commands/ask.js:112 | removing leading white space keeps every other character |
| AskSplit.PiecesKeepText | bot/commands/ask.js:100-113 | the parts together hold every non-white-space character of the remainder, in order |
| AskSplit.SplitMessageKeepsText | bot/commands/ask.js:94-116 | joining the messages keeps every non-white-space character of the text, in order |
| AskSplit.PiecesJoinBack | bot/commands/ask.js:100-113 | a text without white space is split without loss: the parts join back to the text |
| N8nDb.Deref | scripts/_n8n_db.py:60-65 | a digit string naming an index inside the container becomes that entry; every other value, including a digit string out of range, is returned unchanged |
| N8nDb.ResolveRefsShape | scripts/_n8n_db.py:68-76 | beyond depth 12 a value is returned untouched; otherwise it is dereferenced once, and a dict keeps its keys in order and a list its length, their values resolved one level deeper; any other dereferenced value is returned as it is |
| N8nDb.RefToRefResolvedOnce | scripts/_n8n_db.py:70-76 | a reference to an entry that is itself a reference resolves to that entry and is not dereferenced again at the same level |
| N8nDb.ResolveWithoutRefs | scripts/_n8n_db.py:68-76 | a value whose values hold no digit string resolves to itself at every depth; dict keys are never dereferenced |
| N8nDb.ResolveInEmptyContainer | scripts/_n8n_db.py:60-76 | with an empty container every value resolves to itself |
| N8nDb.ExecutionResultShape | scripts/_n8n_db.py:79-87 | an empty container or a `resultData` that does not resolve to a dict gives (None, {}, None); a first entry that is not a dict raises; otherwise the result is the resolved `resultData` with its `error`, and the run data is the resolved `runData` when that is a dict, else {} |
| N8nDb.ExecutionResultWithoutRefs | scripts/_n8n_db.py:79-87 | a container without references gives back the stored `resultData` dict as the result |
| N8nDb.LookupIn | scripts/_n8n_db.py:83 | a value found under a key is one of the dict's values, and holds no reference when the dict holds none |
| N8nDb.NodeItemCountShape | scripts/_n8n_db.py:90-94 | the count is `len(main[0])` when `main` is a non-empty list whose first element is a list, else 0; the call raises exactly when the run or its `data` is not a dict |
| N8nDb.NodeLastJsonShape | scripts/_n8n_db.py:97-105 | no runs, or a last run without a first output item, give {}; a first item that is a dict with a `json` entry gives that entry |
| N8nDb.NodeLastJsonOnlyLast | scripts/_n8n_db.py:97-105 | runs before the last one do not change the result |
| N8nDb.SummarizeNodesLoop | scripts/_n8n_db.py:108-121 | the loop computes `SummarizeNodes`, raising at the first key node whose runs have an unexpected shape |
| N8nDb.SummarizeSnoc | scripts/_n8n_db.py:112-120 | one more key node adds its line, if it has one, after the earlier lines |
| N8nDb.SummarizeRaisedStays | scripts/_n8n_db.py:112-120 | once the nodes so far raise, the whole call raises |
| N8nDb.SummarizeNodeOk | scripts/_n8n_db.py:113-120 | a node gets a line exactly when its runs are truthy, and the line reports its last run |
| N8nDb.SummarizeNodesLines | scripts/_n8n_db.py:108-121 | there is one line per key node with runs; each reports ERROR exactly when its last run's error is truthy, that run's item count and the error's message |
| N8nDb.SummarizeNodesOrder | scripts/_n8n_db.py:108-121 | the lines' nodes are the key nodes that have runs, in key-node order |

## Left out

- Floating point: similarities, norms and the threshold are exact reals, and `Math.sqrt` is avoided by squaring.
- String lengths count Unicode scalar values; JavaScript counts UTF-16 code units. Only the URL hash works on UTF-16 code units explicitly.
- The file store's read, write-then-rename and their failures are not modelled: the file store is an optional list, and a save is assumed to succeed (`file_store_saved` is true whenever the store is enabled).
- Static-data values of the wrong type (a non-array `semanticEmbeddings`) are not modelled.
- The duplicates' `similarity`/`similarTo` diagnostics, the 100 ms rate-limit delay and the console logs are left out.
- Environment variables are parsed outside the model: settings are finite integers or reals, never NaN or infinite. The one exception is the X ratio, whose `Number.isFinite` test is modelled: `None` stands for every non-finite value (NaN, `Infinity`, `-Infinity`) and gives 0.4.
- The embeddings service is a function from a batch to a list of vectors. An empty list stands for a failed request.
- Event cluster labels are left out: `generateClusterLabel` calls an LLM, and its fallback title slice only feeds the label.
- The random `evt_…` cluster id is left out: a summary carries its DBSCAN label as its id.
- Item fields other than title, url, score and embedding are left out; defaults (`|| ''`, `|| 0`) are taken as applied, and the output item stands for the spread original item.
- An embedding is either an array of numbers or absent; non-numeric array elements are not modelled.
- `expandCluster` tests `=== -1` and then `=== 0`; the model uses else-if, which is equivalent because the first branch sets a positive label.
- The debug logs, the `toFixed` rendering and the result counts are left out; the noise count is computed but only logged.
- Feedback records carry no `feedbackId`: it is random.
- `recordFeedback` reads the clock three times; the model reads it once (`now`).
- FeedbackStorage.CleanExpiredFeedback and FeedbackStorage.RecordFeedback require an initialised history: they follow the module's init-first protocol, and the TypeError the source throws when `initStorage` has not run is not modelled.
- FeedbackLearning.ApplyDecay: does not compute `Math.pow(DECAY_RATE, days)`; the decay factor is a parameter (of `Learn` too), and the bounds lemmas assume it lies in [0, 1].
- Learned-weight lookups by keys such as `constructor` that JavaScript objects inherit are not modelled.
- A missing `updated_at` is written as 0 (falsy), and so is a missing version.
- The model's prompt, the HTTP request and `parseJson` are left out: a batch's reply is the parameter `llm`, giving either a failure or the parsed score entries (none when the reply cannot be parsed).
- `Math.round(Math.log1p(metric) * 6)` is the parameter `estimate`: `log1p` is floating point.
- `normalizeText` only shapes the prompt payload and is left out with it.
- Score ids are integers or absent; string ids that `Number` converts, and `null` score entries, are not modelled. Score fields are numbers, with 0 standing for a missing or falsy value.
- The statistics are only logged by the node; the model returns them beside the output.
- `Array.prototype.sort` is modelled as a stable insertion sort (ECMAScript requires stability).
- Dates are already parsed: an item's date is an optional timestamp (`Date.parse` is not modelled).
- LlmSelection.FirstPassCapped: states the per-source bound only for a non-negative cap; with a negative cap `slice(0, cap)` drops entries from the end instead (stated by `CappedPiece`).
- The tone blocklist is a parameter, already split at commas, trimmed, lower-cased and without empty words.
- The tweet model's prompt, the HTTP request and `JSON.parse` are left out: the reply is the parameter `llm`, giving the three drafts or nothing (a failed request or an unparsable reply); a missing draft text or vibe is "" and a missing `source_idx` is 0.
- The `generated_at` timestamp comes from the clock and is left out; the statistics are returned beside the tweets rather than also logged.
- The Slack and Rube requests are assumed to succeed. Only the tweet post can fail: `post` maps a draft to the service's JSON answer or to an error message. The MCP handshake (`initializeMcp`), the transport, the SSE parsing, `JSON.stringify` of the answer and the wrapping "Slack approval poller failed" error are left out.
- Slack's answers are parameters: `history` for `conversations.history` (cut to its 50-message limit) and `replies` for `conversations.replies` (cut to the replies limit).
- `parseFloat` is modelled for digits, an optional point and more digits; signs, exponents and leading white space are not. `parseInt` of the settings is taken as done, so a NaN setting is not modelled.
- JavaScript's `\s` and `trim` use its white-space and line-terminator characters (`Common.IsSpace`); `\b` is modelled for ASCII word characters, and `toLowerCase` for ASCII letters.
- SlackApproval.ReplyAcknowledges: requires a reply body that does not mention the marker prefix. A bare mention is harmless, but a body holding a full marker for another timestamp is read back as that timestamp (`QuotedMarkerMisread`).
- SlackApproval.AnswersShape: assumes the timestamps in the channel history are unique, as Slack guarantees.
- The results' `option` field carries the option number; the unused `optionMap` is left out.
- The quality model's prompt, the request, the JSON extraction and `JSON.parse` are left out: `llm` maps an item to the parsed assessment or to the message of the error raised; numbers missing from the assessment are 0.
- The `checkedAt` timestamp, the 1-second pause between batches and the console logs are left out; `Promise.all` runs a batch's checks concurrently, and the model checks them in order, which gives the same results.
- SemanticDedupe.FetchEmbeddings, SemanticDedupe.Curate, SemanticDedupe.CurateItems and SemanticDedupe.Run (and the lemmas about them): require a batch size of at least 1, because with 0 or less the source's `chunk` loop never ends when there are texts.
- QualityGate.CheckQualityBatches: requires a batch size of at least 1, because with 0 or less the source loop never ends.
- The averages are exact reals; their `toFixed(2)` rendering as strings is left out.
- Recommendations that are not strings (numbers, objects) are not modelled; a missing one counts under the key `undefined`. Counter keys inherited by JavaScript objects, such as `constructor`, are not modelled.
- AskSplit.SplitMessageLoop: requires a limit of at least 1, because with 0 or less the source loop can run forever. The limit is an integer, and its default of 4000 is left to the caller.
- The rest of the bot (the API and Codex calls, the Telegram replies) is outside this model.
- The database access (`connect`, the execution queries, `load_execution_data` with `json.loads`) and the polling helpers (`wait_*`) are left out: the container is a parameter.
- JSON numbers are exact reals; Python's distinction between integers and floats is not modelled.
- `str.isdigit` is modelled for ASCII digits. Python also accepts other Unicode digits, such as superscripts, for which `int` then raises.
- JSON objects are association lists with the first entry winning a lookup; `json.loads` keeps the last of duplicate keys.
- `str(err)` for a truthy error that is not a dict is kept as the error value itself (`Rendered`); Python's rendering of it is left out.
- Python exceptions are one outcome, `Raised`, without their types or messages.
