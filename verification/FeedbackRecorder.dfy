/** The n8n node that records approval feedback into workflow static data
    (`scripts/feedback-recorder-node.js`). */
module FeedbackRecorder {
  import opened Common
  import opened FeedbackStorage

  /** The fields of an approval result this node reads; a missing string is "". */
  datatype ApprovalResult = ApprovalResult(status: string, userId: string, option: string,
                                           threadTs: string, commandTs: string)

  /** Only a posted (or dry-run) tweet counts as approval; every other status, including
      the empty, "noop", "debug" and the skipped ones, records nothing. */
  predicate IsApproval(item: ApprovalResult)
  {
    item.status == "posted" || item.status == "dry_run"
  }

  function OrNone(s: string): Option<string> { if s != "" then Some(s) else None }

  /** The record written for an approval at time `now`. */
  function ApprovalRecord(item: ApprovalResult, now: int): Record
  {
    Record(now, if item.userId != "" then item.userId else "unknown", "approved", OrNone(item.option),
           [], None, OrNone(item.threadTs), OrNone(item.commandTs))
  }

  /** The records written for a batch of items, in item order. */
  function NewRecords(items: seq<ApprovalResult>, now: int): seq<Record>
  {
    if items == [] then []
    else NewRecords(items[..|items| - 1], now) +
         (if IsApproval(items[|items| - 1]) then [ApprovalRecord(items[|items| - 1], now)] else [])
  }

  /** One record per approval, each stamped `now`, marked approved and without articles. */
  lemma {:induction false} NewRecordsShape(items: seq<ApprovalResult>, now: int)
    ensures |NewRecords(items, now)| == Count(items, IsApproval)
    ensures forall r :: r in NewRecords(items, now) ==>
              r.timestamp == now && r.action == "approved" && r.sourceArticles == [] && r.tweetText.None?
    ensures forall i :: 0 <= i < |items| && IsApproval(items[i]) ==> ApprovalRecord(items[i], now) in NewRecords(items, now)
  {
    if items != [] {
      var init := items[..|items| - 1];
      NewRecordsShape(init, now);
      CountAppend(init, [items[|items| - 1]], IsApproval);
      assert init + [items[|items| - 1]] == items;
      assert forall i :: 0 <= i < |init| ==> items[i] == init[i];
    }
  }

  /** The history the node leaves: the unexpired records, then the new ones, capped at the
      newest 500. */
  function NodeHistory(h: seq<Record>, items: seq<ApprovalResult>, now: int): seq<Record>
  {
    KeepLast(Unexpired(h, now) + NewRecords(items, now), MaxFeedbackHistory)
  }

  /** At most 500 records remain, none of them expired; the newest ones are kept, so when
      everything fits nothing is dropped, and otherwise the newest approvals all survive. */
  lemma NodeHistoryShape(h: seq<Record>, items: seq<ApprovalResult>, now: int)
    ensures var r := NodeHistory(h, items, now);
            var all := Unexpired(h, now) + NewRecords(items, now);
            |r| <= MaxFeedbackHistory &&
            (forall x :: x in r ==> now - x.timestamp < ExpiryMs) &&
            (|all| <= MaxFeedbackHistory ==> r == all) &&
            (|NewRecords(items, now)| <= MaxFeedbackHistory ==>
               r[|r| - |NewRecords(items, now)|..] == NewRecords(items, now))
  {
    NewRecordsShape(items, now);
    var all := Unexpired(h, now) + NewRecords(items, now);
    var r := NodeHistory(h, items, now);
    assert forall x :: x in r ==> x in all;
    var n := |NewRecords(items, now)|;
    if n <= MaxFeedbackHistory && |all| > MaxFeedbackHistory {
      assert r == all[|all| - MaxFeedbackHistory..];
      assert r[|r| - n..] == all[|all| - n..];
    }
  }

  /** Passes the items through unchanged; when enabled and static data is available, fills in
      missing storage, drops expired records, appends one record per approval and keeps the
      newest 500. */
  method FeedbackRecorderNode(items: seq<ApprovalResult>, enabled: bool, sd: StaticData?, now: int)
    returns (output: seq<ApprovalResult>, recorded: nat)
    modifies sd
    ensures output == items
    ensures !enabled || sd == null ==> recorded == 0
    ensures !enabled && sd != null ==> sd.feedbackHistory == old(sd.feedbackHistory) &&
                                       sd.learnedWeights == old(sd.learnedWeights)
    ensures enabled && sd != null ==>
              recorded == |NewRecords(items, now)| &&
              sd.feedbackHistory == Some(NodeHistory(OrDefault(old(sd.feedbackHistory), []), items, now)) &&
              sd.learnedWeights == Some(OrDefault(old(sd.learnedWeights), InitialWeights))
  {
    output := items;
    recorded := 0;
    if !enabled || sd == null {
      return;
    }
    InitStorage(sd);
    var history := Unexpired(sd.feedbackHistory.value, now);
    ghost var kept := history;
    for i := 0 to |items|
      invariant history == kept + NewRecords(items[..i], now)
      invariant recorded == |NewRecords(items[..i], now)|
    {
      assert items[..i + 1][..i] == items[..i];
      var item := items[i];
      if item.status == "" || item.status == "noop" || item.status == "debug" {
        continue;
      }
      var action: Option<string> := None;
      if item.status == "posted" || item.status == "dry_run" {
        action := Some("approved");
      } else if item.status == "skipped_ack" || item.status == "skipped_seen" {
        continue;
      }
      if action.None? {
        continue;
      }
      history := history + [ApprovalRecord(item, now)];
      recorded := recorded + 1;
    }
    assert items[..|items|] == items;
    if |history| > MaxFeedbackHistory {
      history := history[|history| - MaxFeedbackHistory..];
    }
    sd.feedbackHistory := Some(history);
  }
}
