/** The reading of n8n execution data in `scripts/_n8n_db.py`: the resolution of index
    references in the flattened execution container, the run result, the per-node item counts
    and last items, and the per-node summary. */
module N8nDb {
  import opened Common

  // ------------------------------------------------------------------
  // JSON values as Python holds them
  // ------------------------------------------------------------------

  /** A value decoded by `json.loads`; `JNull` is Python's `None`. An object keeps its keys in
      insertion order. */
  datatype Json =
    | JNull
    | JBool(b: bool)
    | JNum(n: real)
    | JStr(s: string)
    | JArr(items: seq<Json>)
    | JObj(fields: seq<(string, Json)>)

  /** Python truthiness: `None`, `False`, zero and empty strings, lists and dicts are false. */
  predicate Truthy(v: Json)
  {
    match v
    case JNull => false
    case JBool(b) => b
    case JNum(n) => n != 0.0
    case JStr(s) => s != ""
    case JArr(a) => a != []
    case JObj(f) => f != []
  }

  /** `d.get(key)`: the value under `key`, or `None`. */
  function Get(fields: seq<(string, Json)>, key: string): Json
  {
    match Lookup(fields, key)
    case Some(v) => v
    case None => JNull
  }

  /** `d.get(key, default)`. */
  function GetOr(fields: seq<(string, Json)>, key: string, default: Json): Json
  {
    match Lookup(fields, key)
    case Some(v) => v
    case None => default
  }

  /** The outcome of a call that may raise (an `AttributeError`, `KeyError` or `TypeError` on a
      value of an unexpected shape). */
  datatype Outcome<T> = Done(value: T) | Raised

  // ------------------------------------------------------------------
  // References
  // ------------------------------------------------------------------

  /** `str.isdigit` for ASCII digits: a non-empty string of digits. */
  predicate IsDigits(s: string)
  {
    s != [] && forall i :: 0 <= i < |s| ==> IsDigit(s[i])
  }

  /** `int(s)` for a string of digits. */
  function DigitsValue(s: string): nat
    requires forall i :: 0 <= i < |s| ==> IsDigit(s[i])
  {
    if s == [] then 0
    else
      assert IsDigit(s[|s| - 1]);
      10 * DigitsValue(s[..|s| - 1]) + ((s[|s| - 1] as int) - ('0' as int))
  }

  /** Whether `value` is a reference: a digit string. */
  predicate IsRef(value: Json)
  {
    value.JStr? && IsDigits(value.s)
  }

  /** `_deref`: a digit string naming an index of the container becomes the container's entry;
      every other value is returned unchanged. */
  function Deref(container: seq<Json>, value: Json): (r: Json)
    ensures IsRef(value) && DigitsValue(value.s) < |container| ==> r == container[DigitsValue(value.s)]
    ensures !(IsRef(value) && DigitsValue(value.s) < |container|) ==> r == value
  {
    if value.JStr? && IsDigits(value.s) then
      var idx := DigitsValue(value.s);
      if 0 <= idx < |container| then container[idx] else value
    else value
  }

  /** The deepest level at which `resolve_refs` still dereferences. */
  const MaxDepth := 12

  /** `resolve_refs`: beyond the depth limit the value is returned as it is; otherwise it is
      dereferenced once, and an object's values or a list's elements are resolved one level
      deeper. Keys are never dereferenced. */
  function ResolveRefs(container: seq<Json>, value: Json, depth: int): Json
    decreases MaxDepth + 1 - depth
  {
    if depth > MaxDepth then value
    else
      var v := Deref(container, value);
      match v
      case JObj(fields) =>
        JObj(seq(|fields|, i requires 0 <= i < |fields| => (fields[i].0, ResolveRefs(container, fields[i].1, depth + 1))))
      case JArr(items) =>
        JArr(seq(|items|, i requires 0 <= i < |items| => ResolveRefs(container, items[i], depth + 1)))
      case _ => v
  }

  /** Beyond the depth limit a value is left as it is. Otherwise the value is dereferenced
      once: an object keeps its keys in order and a list its length, their values resolved one
      level deeper; any other value is the dereferenced value itself, which is not dereferenced
      again even when it is a reference. */
  lemma ResolveRefsShape(container: seq<Json>, value: Json, depth: int)
    ensures depth > MaxDepth ==> ResolveRefs(container, value, depth) == value
    ensures depth <= MaxDepth ==>
              ResolvedOnce(container, Deref(container, value), ResolveRefs(container, value, depth), depth)
  {
  }

  /** `r` is `v` with its values (an object's) or elements (a list's) resolved at `depth + 1`:
      the same keys in the same order, or the same length; any other `v` is `r` itself. */
  predicate ResolvedOnce(container: seq<Json>, v: Json, r: Json, depth: int)
  {
    match v
    case JObj(fields) =>
      r.JObj? && |r.fields| == |fields| &&
      forall i :: 0 <= i < |fields| ==>
        r.fields[i] == (fields[i].0, ResolveRefs(container, fields[i].1, depth + 1))
    case JArr(items) =>
      r.JArr? && |r.items| == |items| &&
      forall i :: 0 <= i < |items| ==> r.items[i] == ResolveRefs(container, items[i], depth + 1)
    case _ => r == v
  }

  /** A reference to an entry that is itself a reference resolves to that entry, not further. */
  lemma RefToRefResolvedOnce(container: seq<Json>, value: Json, depth: int)
    requires depth <= MaxDepth && IsRef(value) && DigitsValue(value.s) < |container|
    requires IsRef(container[DigitsValue(value.s)])
    ensures ResolveRefs(container, value, depth) == container[DigitsValue(value.s)]
  {
  }

  /** Whether a value holds no reference among its values (keys do not count). */
  predicate NoRefs(value: Json)
  {
    match value
    case JStr(s) => !IsDigits(s)
    case JArr(items) => forall i :: 0 <= i < |items| ==> NoRefs(items[i])
    case JObj(fields) => forall i :: 0 <= i < |fields| ==> NoRefs(fields[i].1)
    case _ => true
  }

  /** A value without references is resolved to itself, at every depth. */
  lemma {:induction false} ResolveWithoutRefs(container: seq<Json>, value: Json, depth: int)
    requires NoRefs(value)
    ensures ResolveRefs(container, value, depth) == value
    decreases value
  {
    if depth <= MaxDepth {
      match value
      case JObj(fields) =>
        var r := ResolveRefs(container, value, depth);
        forall i | 0 <= i < |fields|
          ensures r.fields[i] == fields[i]
        {
          assert fields[i] in fields;
          ResolveWithoutRefs(container, fields[i].1, depth + 1);
        }
        assert r.fields == fields;
      case JArr(items) =>
        var r := ResolveRefs(container, value, depth);
        forall i | 0 <= i < |items|
          ensures r.items[i] == items[i]
        {
          assert items[i] in items;
          ResolveWithoutRefs(container, items[i], depth + 1);
        }
        assert r.items == items;
      case _ =>
    }
  }

  /** With an empty container nothing is dereferenced, so every value resolves to itself. */
  lemma {:induction false} ResolveInEmptyContainer(value: Json, depth: int)
    ensures ResolveRefs([], value, depth) == value
    decreases value
  {
    if depth <= MaxDepth {
      match value
      case JObj(fields) =>
        var r := ResolveRefs([], value, depth);
        forall i | 0 <= i < |fields|
          ensures r.fields[i] == fields[i]
        {
          assert fields[i] in fields;
          ResolveInEmptyContainer(fields[i].1, depth + 1);
        }
        assert r.fields == fields;
      case JArr(items) =>
        var r := ResolveRefs([], value, depth);
        forall i | 0 <= i < |items|
          ensures r.items[i] == items[i]
        {
          assert items[i] in items;
          ResolveInEmptyContainer(items[i], depth + 1);
        }
        assert r.items == items;
      case _ =>
    }
  }

  // ------------------------------------------------------------------
  // The run result
  // ------------------------------------------------------------------

  /** What `execution_result` returns: the result object, its run data (an object) and its
      error. */
  datatype ExecResult = ExecResult(result: Option<seq<(string, Json)>>, runData: seq<(string, Json)>, error: Json)

  /** `execution_result`: nothing for an empty container or a result that does not resolve to
      an object; otherwise the resolved result, its resolved run data (empty unless an object)
      and its error. The first entry of a non-empty container must be an object. */
  function ExecutionResult(container: seq<Json>): Outcome<ExecResult>
  {
    if container == [] then Done(ExecResult(None, [], JNull))
    else
      match container[0]
      case JObj(meta) =>
        var result := ResolveRefs(container, Get(meta, "resultData"), 0);
        if !result.JObj? then Done(ExecResult(None, [], JNull))
        else
          var runData := ResolveRefs(container, GetOr(result.fields, "runData", JObj([])), 0);
          Done(ExecResult(Some(result.fields), if runData.JObj? then runData.fields else [], Get(result.fields, "error")))
      case _ => Raised
  }

  /** An empty container, or a result that does not resolve to an object, gives no result, no
      run data and no error; a first entry that is not an object raises; otherwise the result
      is the resolved `resultData` and the error is its `error` entry. */
  lemma ExecutionResultShape(container: seq<Json>)
    ensures container == [] ==> ExecutionResult(container) == Done(ExecResult(None, [], JNull))
    ensures container != [] ==> (ExecutionResult(container).Raised? <==> !container[0].JObj?)
    ensures container != [] && container[0].JObj? ==>
              var result := ResolveRefs(container, Get(container[0].fields, "resultData"), 0);
              var out := ExecutionResult(container).value;
              (!result.JObj? ==> out == ExecResult(None, [], JNull)) &&
              (result.JObj? ==>
                 var runData := ResolveRefs(container, GetOr(result.fields, "runData", JObj([])), 0);
                 out.result == Some(result.fields) && out.error == Get(result.fields, "error") &&
                 out.runData == (if runData.JObj? then runData.fields else []))
  {
  }

  /** A container without references gives back its `resultData` and run data as stored. */
  lemma ExecutionResultWithoutRefs(container: seq<Json>)
    requires container != [] && container[0].JObj?
    requires NoRefs(container[0])
    ensures var stored := Get(container[0].fields, "resultData");
            ExecutionResult(container).Done? &&
            (stored.JObj? ==> ExecutionResult(container).value.result == Some(stored.fields))
  {
    var meta := container[0].fields;
    var stored := Get(meta, "resultData");
    if Lookup(meta, "resultData").Some? {
      LookupIn(meta, "resultData");
    }
    ResolveWithoutRefs(container, stored, 0);
  }

  /** A value found under a key is one of the object's values. */
  lemma {:induction false} LookupIn(fields: seq<(string, Json)>, key: string)
    requires Lookup(fields, key).Some?
    ensures exists i :: 0 <= i < |fields| && fields[i].1 == Lookup(fields, key).value
    ensures NoRefs(JObj(fields)) ==> NoRefs(Lookup(fields, key).value)
  {
    if fields[0].0 != key {
      LookupIn(fields[1..], key);
      var i :| 0 <= i < |fields[1..]| && fields[1..][i].1 == Lookup(fields, key).value;
      assert fields[i + 1].1 == Lookup(fields, key).value;
    }
  }

  // ------------------------------------------------------------------
  // Node runs
  // ------------------------------------------------------------------

  /** `node_run.get("data", {}).get("main")`; raises unless the run and its data are objects. */
  function MainOf(nodeRun: Json): Outcome<Json>
  {
    match nodeRun
    case JObj(f) =>
      (match GetOr(f, "data", JObj([]))
       case JObj(d) => Done(Get(d, "main"))
       case _ => Raised)
    case _ => Raised
  }

  /** Whether `main` is a non-empty list whose first output is a list. */
  predicate HasFirstOutput(main: Json)
  {
    main.JArr? && main.items != [] && main.items[0].JArr?
  }

  /** `node_item_count`: the number of items of the run's first output, 0 when there is none. */
  function NodeItemCount(nodeRun: Json): Outcome<nat>
  {
    match MainOf(nodeRun)
    case Raised => Raised
    case Done(main) => Done(if HasFirstOutput(main) then |main.items[0].items| else 0)
  }

  /** The count is the length of `main[0]` exactly when `main` has a first output that is a
      list, and 0 otherwise; the call raises exactly when the run or its data is not an object. */
  lemma NodeItemCountShape(nodeRun: Json)
    ensures NodeItemCount(nodeRun).Raised? <==>
              !nodeRun.JObj? || !GetOr(nodeRun.fields, "data", JObj([])).JObj?
    ensures NodeItemCount(nodeRun).Done? ==>
              var main := MainOf(nodeRun).value;
              (HasFirstOutput(main) ==> NodeItemCount(nodeRun).value == |main.items[0].items|) &&
              (!HasFirstOutput(main) ==> NodeItemCount(nodeRun).value == 0)
  {
  }

  /** `node_last_json`: the `json` entry of the first item of the last run's first output, or
      an empty object when there are no runs, no such item, or the item is not an object. */
  function NodeLastJson(nodeRuns: seq<Json>): Outcome<Json>
  {
    if nodeRuns == [] then Done(JObj([]))
    else
      match MainOf(nodeRuns[|nodeRuns| - 1])
      case Raised => Raised
      case Done(main) =>
        if !(HasFirstOutput(main) && main.items[0].items != []) then Done(JObj([]))
        else
          var item := main.items[0].items[0];
          Done(if item.JObj? then GetOr(item.fields, "json", JObj([])) else JObj([]))
  }

  /** The last json is an empty object unless the last run's first output has an item; when it
      does, and that item is an object with a `json` entry, it is that entry. */
  lemma NodeLastJsonShape(nodeRuns: seq<Json>)
    ensures nodeRuns == [] ==> NodeLastJson(nodeRuns) == Done(JObj([]))
    ensures nodeRuns != [] && MainOf(nodeRuns[|nodeRuns| - 1]).Done? ==>
              var main := MainOf(nodeRuns[|nodeRuns| - 1]).value;
              (!(HasFirstOutput(main) && main.items[0].items != []) ==> NodeLastJson(nodeRuns) == Done(JObj([]))) &&
              (HasFirstOutput(main) && main.items[0].items != [] && main.items[0].items[0].JObj? &&
               Lookup(main.items[0].items[0].fields, "json").Some? ==>
                 NodeLastJson(nodeRuns) == Done(Lookup(main.items[0].items[0].fields, "json").value))
  {
  }

  /** Only the last run counts: runs before it do not change the last json. */
  lemma NodeLastJsonOnlyLast(earlier: seq<Json>, last: Json)
    ensures NodeLastJson(earlier + [last]) == NodeLastJson([last])
  {
  }

  // ------------------------------------------------------------------
  // The node summary
  // ------------------------------------------------------------------

  /** The message reported for a node: none (`None`), the `message` entry of an error object,
      or `str(err)` of any other truthy error (its rendering is left out). */
  datatype NodeMessage = NoMessage | MessageValue(value: Json) | Rendered(err: Json)

  /** One line of the summary: node, status, item count, message. */
  datatype NodeSummary = NodeSummary(node: string, status: string, itemCount: nat, message: NodeMessage)

  /** The message for an error value. */
  function MessageOf(err: Json): NodeMessage
  {
    if err.JObj? then
      var m := Get(err.fields, "message");
      if m.JNull? then NoMessage else MessageValue(m)
    else if Truthy(err) then Rendered(err)
    else NoMessage
  }

  /** The summary of one node: nothing when it has no runs; otherwise its last run's status,
      item count and message. The runs must be a list ending in an object (`runs[-1].get`). */
  function SummarizeNode(runData: seq<(string, Json)>, node: string): Outcome<Option<NodeSummary>>
  {
    var runs := Get(runData, node);
    if !Truthy(runs) then Done(None)
    else if !runs.JArr? || !runs.items[|runs.items| - 1].JObj? then Raised
    else
      var last := runs.items[|runs.items| - 1];
      var err := Get(last.fields, "error");
      match NodeItemCount(last)
      case Raised => Raised
      case Done(count) => Done(Some(NodeSummary(node, if Truthy(err) then "ERROR" else "OK", count, MessageOf(err))))
  }

  /** `summarize_nodes`: the summaries of the key nodes with runs, in key-node order; the first
      node whose runs have an unexpected shape raises. */
  function SummarizeNodes(runData: seq<(string, Json)>, keyNodes: seq<string>): Outcome<seq<NodeSummary>>
  {
    if keyNodes == [] then Done([])
    else
      match SummarizeNodes(runData, keyNodes[..|keyNodes| - 1])
      case Raised => Raised
      case Done(summary) =>
        match SummarizeNode(runData, keyNodes[|keyNodes| - 1])
        case Raised => Raised
        case Done(None) => Done(summary)
        case Done(Some(line)) => Done(summary + [line])
  }

  /** The loop of `summarize_nodes`. */
  method SummarizeNodesLoop(runData: seq<(string, Json)>, keyNodes: seq<string>) returns (out: Outcome<seq<NodeSummary>>)
    ensures out == SummarizeNodes(runData, keyNodes)
  {
    var summary: seq<NodeSummary> := [];
    for i := 0 to |keyNodes|
      invariant SummarizeNodes(runData, keyNodes[..i]) == Done(summary)
    {
      assert keyNodes[..i + 1][..i] == keyNodes[..i];
      var node := keyNodes[i];
      var runs := Get(runData, node);
      if !Truthy(runs) {
        SummarizeSnoc(runData, keyNodes[..i], node);
        continue;
      }
      if !runs.JArr? || !runs.items[|runs.items| - 1].JObj? {
        SummarizeSnoc(runData, keyNodes[..i], node);
        SummarizeRaisedStays(runData, keyNodes, i + 1);
        return Raised;
      }
      var last := runs.items[|runs.items| - 1];
      var err := Get(last.fields, "error");
      var status := if Truthy(err) then "ERROR" else "OK";
      var message := MessageOf(err);
      var count := NodeItemCount(last);
      if count.Raised? {
        SummarizeSnoc(runData, keyNodes[..i], node);
        SummarizeRaisedStays(runData, keyNodes, i + 1);
        return Raised;
      }
      var line := NodeSummary(node, status, count.value, message);
      assert SummarizeNode(runData, node) == Done(Some(line));
      SummarizeSnoc(runData, keyNodes[..i], node);
      summary := summary + [line];
    }
    assert keyNodes[..|keyNodes|] == keyNodes;
    out := Done(summary);
  }

  /** One more key node: its summary line, if any, follows those of the earlier nodes. */
  lemma SummarizeSnoc(runData: seq<(string, Json)>, keyNodes: seq<string>, node: string)
    ensures SummarizeNodes(runData, keyNodes + [node]) ==
            match SummarizeNodes(runData, keyNodes)
            case Raised => Raised
            case Done(summary) =>
              match SummarizeNode(runData, node)
              case Raised => Raised
              case Done(None) => Done(summary)
              case Done(Some(line)) => Done(summary + [line])
  {
    assert (keyNodes + [node])[..|keyNodes|] == keyNodes;
  }

  /** Once a prefix of the key nodes raises, the whole call raises. */
  lemma {:induction false} SummarizeRaisedStays(runData: seq<(string, Json)>, keyNodes: seq<string>, n: nat)
    requires n <= |keyNodes|
    requires SummarizeNodes(runData, keyNodes[..n]) == Raised
    ensures SummarizeNodes(runData, keyNodes) == Raised
    decreases |keyNodes| - n
  {
    if n < |keyNodes| {
      assert keyNodes[..n + 1][..n] == keyNodes[..n];
      SummarizeRaisedStays(runData, keyNodes, n + 1);
    } else {
      assert keyNodes[..n] == keyNodes;
    }
  }

  /** Whether a node has runs in the run data. */
  function HasRuns(runData: seq<(string, Json)>): string -> bool
  {
    node => Truthy(Get(runData, node))
  }

  /** A summary has one line per key node with runs, and each line is what its node's last
      run says: status ERROR exactly when that run's error is truthy, the run's item count, and
      the error's message. */
  lemma {:induction false} SummarizeNodesLines(runData: seq<(string, Json)>, keyNodes: seq<string>)
    requires SummarizeNodes(runData, keyNodes).Done?
    ensures |SummarizeNodes(runData, keyNodes).value| == Count(keyNodes, HasRuns(runData))
    ensures forall line :: line in SummarizeNodes(runData, keyNodes).value ==> SummaryLineOk(runData, line)
  {
    if keyNodes != [] {
      var init := keyNodes[..|keyNodes| - 1];
      var node := keyNodes[|keyNodes| - 1];
      SplitLast(keyNodes);
      SummarizeSnoc(runData, init, node);
      SummarizeNodesLines(runData, init);
      CountAppend(init, [node], HasRuns(runData));
      assert Count([node], HasRuns(runData)) == (if HasRuns(runData)(node) then 1 else 0) + Count([], HasRuns(runData));
      SummarizeNodeOk(runData, node);
    }
  }

  /** The line of one node, if it has one, is what its last run says. */
  lemma SummarizeNodeOk(runData: seq<(string, Json)>, node: string)
    ensures SummarizeNode(runData, node).Done? ==>
              (SummarizeNode(runData, node).value.None? <==> !HasRuns(runData)(node))
    ensures SummarizeNode(runData, node).Done? && SummarizeNode(runData, node).value.Some? ==>
              SummaryLineOk(runData, SummarizeNode(runData, node).value.value)
  {
  }

  /** The summary follows the key nodes in order, leaving out those without runs: its nodes are
      the key nodes filtered by having runs. */
  lemma {:induction false} SummarizeNodesOrder(runData: seq<(string, Json)>, keyNodes: seq<string>)
    requires SummarizeNodes(runData, keyNodes).Done?
    ensures Map(SummarizeNodes(runData, keyNodes).value, NodeOf) == Filter(keyNodes, HasRuns(runData))
  {
    if keyNodes != [] {
      var init := keyNodes[..|keyNodes| - 1];
      var node := keyNodes[|keyNodes| - 1];
      SplitLast(keyNodes);
      SummarizeSnoc(runData, init, node);
      SummarizeNodesOrder(runData, init);
      FilterAppend(init, [node], HasRuns(runData));
      assert Filter([node], HasRuns(runData)) == (if HasRuns(runData)(node) then [node] else []) + Filter([], HasRuns(runData));
      var s := SummarizeNodes(runData, init).value;
      match SummarizeNode(runData, node)
      case Done(None) =>
      case Done(Some(line)) =>
        MapSnoc(s, line, NodeOf);
    }
  }

  function NodeOf(line: NodeSummary): string { line.node }

  /** What a summary line promises about its node's last run. */
  predicate SummaryLineOk(runData: seq<(string, Json)>, line: NodeSummary)
  {
    var runs := Get(runData, line.node);
    runs.JArr? && runs.items != [] &&
    var last := runs.items[|runs.items| - 1];
    last.JObj? &&
    (line.status == "ERROR" <==> Truthy(Get(last.fields, "error"))) &&
    (line.status == "OK" <==> !Truthy(Get(last.fields, "error"))) &&
    NodeItemCount(last) == Done(line.itemCount) &&
    line.message == MessageOf(Get(last.fields, "error"))
  }
}
