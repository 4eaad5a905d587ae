/** The cache of available updates (server/src/remote_updates.rs). Every node's answer is written to the
    cache as it arrives; when all have arrived, a final pass records the whole response. Each of these runs
    under the exclusive lock of the cache, so the cache sees them one after the other. */
module RemoteUpdates {
  import opened Machine
  import opened Remotes
  import opened Wrappers

  datatype Status = Success | Error | Unknown

  datatype Repositories = Good | NoProduct | NoSubscription | NonProduction | Broken

  /** What was fetched from a node; `updates` is the length of the list of updates. */
  datatype NodeInfo = NodeInfo(updates: nat, lastRefresh: int, versions: seq<string>, repositories: Repositories)

  datatype NodeSummary = NodeSummary(updates: nat, lastRefresh: int, ok: bool, message: Option<string>,
                                     versions: seq<string>, repositories: Repositories)

  datatype RemoteSummary = RemoteSummary(nodes: map<string, NodeSummary>, remoteType: RemoteType, status: Status,
                                         message: Option<string>)

  type Content = map<string, RemoteSummary>

  datatype NodeResponse = NodeResponse(node: string, data: Result<NodeInfo, string>)

  datatype RemoteResponse = RemoteResponse(remote: string, remoteType: RemoteType,
                                           nodes: Result<seq<NodeResponse>, string>)

  /** The number of updates is cut to 32 bits. */
  function Summarize(data: Result<NodeInfo, string>): NodeSummary {
    match data
    case Ok(info) =>
      NodeSummary(info.updates % U32, info.lastRefresh, true, None, info.versions, info.repositories)
    case Err(e) => NodeSummary(0, 0, false, Some(e), [], Broken)
  }

  /** A node that was fetched is summarized as a success with its own values, the number of updates cut to 32 bits; one
      that was not has the error as its message, no updates and no versions. */
  lemma SummarizeMeans(data: Result<NodeInfo, string>)
    ensures var s := Summarize(data);
      && (s.ok <==> data.Ok?) && (s.message == None <==> data.Ok?) && s.updates < 0x1_0000_0000
      && (data.Ok? ==>
            && (exists k: nat :: data.value.updates == k * 0x1_0000_0000 + s.updates)
            && s.lastRefresh == data.value.lastRefresh
            && s.versions == data.value.versions && s.repositories == data.value.repositories)
      && (data.Err? ==> s == NodeSummary(0, 0, false, Some(data.error), [], Broken))
  {
    if data.Ok? {
      var n := data.value.updates;
      assert n == (n / U32) * U32 + n % U32;
    }
  }

  function NodeNames(nodes: seq<NodeResponse>): seq<string> {
    seq(|nodes|, i requires 0 <= i < |nodes| => nodes[i].node)
  }

  function RemoteNames(responses: seq<RemoteResponse>): seq<string> {
    seq(|responses|, i requires 0 <= i < |responses| => responses[i].remote)
  }

  function Elements(names: seq<string>): set<string> {
    set n | n in names
  }

  ghost predicate IsFirst(names: seq<string>, i: nat) {
    i < |names| && names[i] !in names[..i]
  }

  ghost predicate IsLast(names: seq<string>, i: nat) {
    i < |names| && forall k :: i < k < |names| ==> names[k] != names[i]
  }

  /** `nodes` holds exactly the nodes of a response, each with the last result given for it. */
  ghost predicate HoldsNodes(nodes: map<string, NodeSummary>, response: seq<NodeResponse>) {
    var names := NodeNames(response);
    nodes.Keys == Elements(names)
    && forall i: nat :: IsLast(names, i) ==> nodes[names[i]] == Summarize(response[i].data)
  }

  /** A cached summary records an answer of its remote; its type is left open. */
  ghost predicate Records(summary: RemoteSummary, response: RemoteResponse) {
    match response.nodes
    case Ok(nodes) => summary.status == Success && summary.message == None && HoldsNodes(summary.nodes, nodes)
    case Err(e) => summary.status == Error && summary.message == Some(e) && summary.nodes == map[]
  }

  /** The cache holds exactly the remotes of the response, each with its last answer. */
  ghost predicate HoldsResponse(after: Content, responses: seq<RemoteResponse>) {
    var names := RemoteNames(responses);
    after.Keys == Elements(names)
    && forall i: nat :: IsLast(names, i) ==> Records(after[names[i]], responses[i])
  }

  /** A cached entry keeps its type; only a new one takes it from the response. */
  ghost predicate KeepsTypes(before: Content, after: Content, responses: seq<RemoteResponse>) {
    var names := RemoteNames(responses);
    (forall r :: r in before && r in after ==> after[r].remoteType == before[r].remoteType)
    && forall i: nat :: IsFirst(names, i) && names[i] in after && names[i] !in before ==>
      after[names[i]].remoteType == responses[i].remoteType
  }

  lemma LastOfPrefix(names: seq<string>, i: nat, k: nat)
    requires i < |names| && IsLast(names[..i + 1], k)
    ensures k != i ==> names[k] != names[i] && IsLast(names[..i], k)
  {
    if k != i {
      assert names[..i + 1][i] == names[i];
      forall m | k < m < i ensures names[..i][m] != names[k] {
        assert names[..i + 1][m] == names[..i][m];
      }
    }
  }

  /** Drops the nodes that are gone and writes every result of the response. */
  method RecordNodes(cached: map<string, NodeSummary>, response: seq<NodeResponse>)
    returns (nodes: map<string, NodeSummary>)
    ensures HoldsNodes(nodes, response)
  {
    var names := NodeNames(response);
    nodes := map n | n in cached && n in names :: cached[n];
    for i := 0 to |response|
      invariant nodes.Keys == cached.Keys * Elements(names) + Elements(names[..i])
      invariant forall k: nat :: IsLast(names[..i], k) ==> nodes[names[k]] == Summarize(response[k].data)
    {
      nodes := nodes[response[i].node := Summarize(response[i].data)];
      assert names[..i + 1] == names[..i] + [names[i]];
      forall k: nat | IsLast(names[..i + 1], k) ensures nodes[names[k]] == Summarize(response[k].data) {
        LastOfPrefix(names, i, k);
      }
    }
    assert names[..|response|] == names;
  }

  /** Records one answer in an entry of the cache. */
  method Record(entry: RemoteSummary, response: RemoteResponse) returns (summary: RemoteSummary)
    ensures Records(summary, response) && summary.remoteType == entry.remoteType
  {
    match response.nodes
    case Ok(answers) =>
      var nodes := RecordNodes(entry.nodes, answers);
      summary := entry.(nodes := nodes, status := Success, message := None);
    case Err(e) =>
      summary := entry.(nodes := map[], status := Error, message := Some(e));
  }

  /** The entry the final pass finds or makes for an answer. */
  function EntryFor(content: Content, response: RemoteResponse): RemoteSummary {
    if response.remote in content then content[response.remote]
    else RemoteSummary(map[], response.remoteType, Success, None)
  }

  /** What holds of the cache after the first `i` answers. */
  ghost predicate RecordedUpTo(before: Content, after: Content, responses: seq<RemoteResponse>, i: nat)
    requires i <= |responses|
  {
    var names := RemoteNames(responses);
    && after.Keys == before.Keys * Elements(names) + Elements(names[..i])
    && forall k: nat :: IsLast(names[..i], k) ==> Records(after[names[k]], responses[k])
  }

  lemma RecordedOneMore(before: Content, after: Content, responses: seq<RemoteResponse>, i: nat, summary: RemoteSummary)
    requires i < |responses| && RecordedUpTo(before, after, responses, i) && Records(summary, responses[i])
    ensures RecordedUpTo(before, after[responses[i].remote := summary], responses, i + 1)
  {
    var names := RemoteNames(responses);
    var next := after[responses[i].remote := summary];
    assert names[..i + 1] == names[..i] + [names[i]];
    forall k: nat | IsLast(names[..i + 1], k) ensures Records(next[names[k]], responses[k]) {
      LastOfPrefix(names, i, k);
    }
  }

  lemma TypesStayKept(before: Content, after: Content, responses: seq<RemoteResponse>, i: nat, summary: RemoteSummary)
    requires i < |responses| && KeepsTypes(before, after, responses)
    requires after.Keys == before.Keys * Elements(RemoteNames(responses)) + Elements(RemoteNames(responses)[..i])
    requires summary.remoteType == EntryFor(after, responses[i]).remoteType
    ensures KeepsTypes(before, after[responses[i].remote := summary], responses)
  {
    var names := RemoteNames(responses);
    var name := responses[i].remote;
    assert names[i] == name;
    if name !in after {
      forall k: nat | IsFirst(names, k) && names[k] == name ensures k == i {
      }
    }
  }

  /** The final pass: drops the remotes that are gone and records every answer. */
  method RecordAll(before: Content, responses: seq<RemoteResponse>) returns (after: Content)
    ensures HoldsResponse(after, responses) && KeepsTypes(before, after, responses)
  {
    var names := RemoteNames(responses);
    after := map r | r in before && r in names :: before[r];
    for i := 0 to |responses|
      invariant RecordedUpTo(before, after, responses, i)
      invariant KeepsTypes(before, after, responses)
    {
      var summary := Record(EntryFor(after, responses[i]), responses[i]);
      RecordedOneMore(before, after, responses, i, summary);
      TypesStayKept(before, after, responses, i, summary);
      after := after[responses[i].remote := summary];
    }
    assert names[..|responses|] == names;
  }

  lemma {:induction false} LastExists(names: seq<string>, name: string) returns (i: nat)
    requires name in names
    ensures IsLast(names, i) && names[i] == name
  {
    i := |names| - 1;
    if names[i] != name {
      var k := LastExists(names[..i], name);
      assert forall m :: k < m < i ==> names[m] == names[..i][m];
      i := k;
    }
  }

  lemma {:induction false} FirstExists(names: seq<string>, name: string) returns (i: nat)
    requires name in names
    ensures IsFirst(names, i) && names[i] == name
  {
    i := |names| - 1;
    if name in names[..i] {
      var k := FirstExists(names[..i], name);
      assert names[..i][..k] == names[..k];
      i := k;
    }
  }

  lemma NodesUnique(a: map<string, NodeSummary>, b: map<string, NodeSummary>, response: seq<NodeResponse>)
    requires HoldsNodes(a, response) && HoldsNodes(b, response)
    ensures a == b
  {
    forall n | n in a.Keys ensures n in b && a[n] == b[n] {
      var i := LastExists(NodeNames(response), n);
    }
  }

  /** What the cache holds after a final pass is a function of the response, but for the types. */
  lemma RefreshForgets(a: Content, b: Content, responses: seq<RemoteResponse>)
    requires HoldsResponse(a, responses) && HoldsResponse(b, responses)
    ensures a.Keys == b.Keys
    ensures forall r :: r in a ==> a[r] == b[r].(remoteType := a[r].remoteType)
  {
    forall r | r in a ensures a[r] == b[r].(remoteType := a[r].remoteType) {
      var i := LastExists(RemoteNames(responses), r);
      if responses[i].nodes.Ok? {
        NodesUnique(a[r].nodes, b[r].nodes, responses[i].nodes.value);
      }
    }
  }

  /** The write of one node's result, as it arrives. */
  datatype Write = Write(remote: string, remoteType: RemoteType, node: string, data: NodeSummary)

  function WriteNode(content: Content, w: Write): Content {
    var entry := if w.remote in content then content[w.remote] else RemoteSummary(map[], w.remoteType, Success, None);
    content[w.remote := entry.(nodes := entry.nodes[w.node := w.data])]
  }

  function AfterWrites(content: Content, writes: seq<Write>): Content {
    if writes == [] then content
    else WriteNode(AfterWrites(content, writes[..|writes| - 1]), writes[|writes| - 1])
  }

  /** A refresh: the writes of its own nodes and of anyone else, in any order, then the final pass. */
  ghost predicate IsRefresh(initial: Content, writes: seq<Write>, responses: seq<RemoteResponse>, after: Content) {
    HoldsResponse(after, responses) && KeepsTypes(AfterWrites(initial, writes), after, responses)
  }

  ghost predicate IsFirstWrite(writes: seq<Write>, r: string, i: nat) {
    i < |writes| && writes[i].remote == r && forall k :: 0 <= k < i ==> writes[k].remote != r
  }

  /** The type the first write for a remote brings, if there is one. */
  function FirstWritten(writes: seq<Write>, r: string): (t: Option<RemoteType>)
    ensures t.Some? <==> exists i :: 0 <= i < |writes| && writes[i].remote == r
    ensures forall i: nat :: IsFirstWrite(writes, r, i) ==> t == Some(writes[i].remoteType)
    decreases |writes|
  {
    if writes == [] then None
    else if writes[0].remote == r then Some(writes[0].remoteType)
    else
      assert forall i :: 0 < i < |writes| ==> writes[i] == writes[1..][i - 1];
      assert forall i: nat :: IsFirstWrite(writes, r, i) ==> i > 0 && IsFirstWrite(writes[1..], r, i - 1);
      FirstWritten(writes[1..], r)
  }

  /** The type a remote is cached with when the final pass begins: the one it had, else the first written. */
  function TypeSeen(initial: Content, writes: seq<Write>, r: string): Option<RemoteType> {
    if r in initial then Some(initial[r].remoteType) else FirstWritten(writes, r)
  }

  lemma {:induction false} FirstWrittenGrows(writes: seq<Write>, w: Write, r: string)
    ensures FirstWritten(writes + [w], r)
            == if FirstWritten(writes, r).Some? then FirstWritten(writes, r)
               else if w.remote == r then Some(w.remoteType) else None
  {
    if writes != [] {
      assert (writes + [w])[1..] == writes[1..] + [w];
      FirstWrittenGrows(writes[1..], w, r);
    }
  }

  /** Writes never change the type of a cached remote. */
  lemma {:induction false} WritesKeepTypes(initial: Content, writes: seq<Write>, r: string)
    ensures TypeSeen(initial, writes, r)
            == if r in AfterWrites(initial, writes) then Some(AfterWrites(initial, writes)[r].remoteType) else None
  {
    if writes != [] {
      var before, w := writes[..|writes| - 1], writes[|writes| - 1];
      WritesKeepTypes(initial, before, r);
      assert writes == before + [w];
      FirstWrittenGrows(before, w, r);
    }
  }

  /** After a refresh a remote has the type it was cached with, else that of the first write for it, and only
      without one that of the response. */
  lemma TypeAfterRefresh(initial: Content, writes: seq<Write>, responses: seq<RemoteResponse>, after: Content, i: nat)
    requires IsRefresh(initial, writes, responses, after) && IsFirst(RemoteNames(responses), i)
    ensures var r := responses[i].remote;
      && r in after
      && after[r].remoteType == match TypeSeen(initial, writes, r)
                                case Some(t) => t
                                case None => responses[i].remoteType
  {
    var r := responses[i].remote;
    assert RemoteNames(responses)[i] == r;
    WritesKeepTypes(initial, writes, r);
  }

  /** Whatever the cache held and whoever wrote to it in between, a refresh leaves what it would have left
      of an empty cache, exactly if no remote of the response is cached, from the start or by the first write
      for it, with another type than the response first gives it. */
  lemma RefreshDependsOnResponse(initial: Content, writes: seq<Write>, responses: seq<RemoteResponse>, after: Content,
                                 anew: Content)
    requires IsRefresh(initial, writes, responses, after) && IsRefresh(map[], [], responses, anew)
    ensures after == anew <==>
            forall i: nat :: IsFirst(RemoteNames(responses), i) ==>
              TypeSeen(initial, writes, responses[i].remote) in {None, Some(responses[i].remoteType)}
  {
    RefreshForgets(after, anew, responses);
    forall i: nat | IsFirst(RemoteNames(responses), i)
      ensures var r := responses[i].remote;
        && r in after && anew[r].remoteType == responses[i].remoteType
        && (after[r].remoteType == anew[r].remoteType
            <==> TypeSeen(initial, writes, r) in {None, Some(responses[i].remoteType)})
    {
      TypeAfterRefresh(initial, writes, responses, after, i);
      TypeAfterRefresh(map[], [], responses, anew, i);
    }
    if forall i: nat :: IsFirst(RemoteNames(responses), i) ==>
      after[responses[i].remote].remoteType == anew[responses[i].remote].remoteType {
      forall r | r in after ensures after[r] == anew[r] {
        var i := FirstExists(RemoteNames(responses), r);
      }
    }
  }

  /** A remote that was replaced by one of another type under the same name keeps the old type. */
  lemma StaleTypeSurvives(r: string, e: string)
    ensures
      var initial := map[r := RemoteSummary(map[], Pbs, Success, None)];
      var responses := [RemoteResponse(r, Pve, Err(e))];
      && IsRefresh(initial, [], responses, map[r := RemoteSummary(map[], Pbs, Error, Some(e))])
      && IsRefresh(map[], [], responses, map[r := RemoteSummary(map[], Pve, Error, Some(e))])
  {
    assert RemoteNames([RemoteResponse(r, Pve, Err(e))]) == [r];
  }

  /** And so does one that was not cached at all, if a writer still has the remote with the old type. */
  lemma LateWriterDecides(r: string, n: string, d: NodeSummary, e: string)
    ensures
      var writes, responses := [Write(r, Pbs, n, d)], [RemoteResponse(r, Pve, Err(e))];
      && IsRefresh(map[], writes, responses, map[r := RemoteSummary(map[], Pbs, Error, Some(e))])
      && IsRefresh(map[], [], responses, map[r := RemoteSummary(map[], Pve, Error, Some(e))])
  {
    var writes := [Write(r, Pbs, n, d)];
    assert writes[..0] == [] && AfterWrites(map[], writes[..0]) == map[];
    assert RemoteNames([RemoteResponse(r, Pve, Err(e))]) == [r];
  }

  /** A cache that cannot be read, or holds nothing yet, counts as empty. */
  function SummaryOrDefault(stored: Result<Option<Content>, string>): Content {
    if stored.Ok? && stored.value.Some? then stored.value.value else map[]
  }

  lemma ReadsBack(content: Content, e: string)
    ensures SummaryOrDefault(Ok(Some(content))) == content
    ensures SummaryOrDefault(Ok(None)) == map[] && SummaryOrDefault(Err(e)) == map[]
  {}

  /** The cached summary; `stored` is what reading it gives. */
  class UpdateCache {
    var stored: Result<Option<Content>, string>

    constructor ()
      ensures stored == Ok(None)
    {
      stored := Ok(None);
    }

    /** Writes one node's result and nothing else; other nodes, statuses and types stay. */
    method UpdateNode(w: Write)
      modifies this
      ensures stored == Ok(Some(WriteNode(old(SummaryOrDefault(stored)), w)))
      ensures
        var before, after := old(SummaryOrDefault(stored)), SummaryOrDefault(stored);
        && after.Keys == before.Keys + {w.remote}
        && (w.remote !in before ==>
              after[w.remote] == RemoteSummary(map[w.node := w.data], w.remoteType, Success, None))
        && after[w.remote].nodes == (if w.remote in before then before[w.remote].nodes else map[])[w.node := w.data]
        && forall r :: r in before ==>
          after[r] == if r == w.remote then before[r].(nodes := after[r].nodes) else before[r]
    {
      var content := SummaryOrDefault(stored);
      if w.remote !in content {
        content := content[w.remote := RemoteSummary(map[], w.remoteType, Success, None)];
      }
      var entry := content[w.remote];
      content := content[w.remote := entry.(nodes := entry.nodes[w.node := w.data])];
      assert content == WriteNode(SummaryOrDefault(stored), w);
      stored := Ok(Some(content));
    }

    /** The final pass over the stored summary. */
    method RecordResponse(responses: seq<RemoteResponse>)
      modifies this
      ensures stored.Ok? && stored.value.Some?
      ensures IsRefresh(old(SummaryOrDefault(stored)), [], responses, SummaryOrDefault(stored))
    {
      var after := RecordAll(SummaryOrDefault(stored), responses);
      stored := Ok(Some(after));
    }
  }
}
