/** Collecting, sorting and looking up what the fetcher's tasks return. */
module FetcherResponse {
  import opened Fetcher
  import opened Ordering
  import opened Remotes
  import opened Sequences
  import opened Wrappers

  datatype RemoteResponse = RemoteResponse(remote: string, ty: RemoteType, response: Result<seq<Node>, string>)

  predicate ByRemote(a: RemoteResponse, b: RemoteResponse) { StringLe(a.remote, b.remote) }

  function Key(r: RemoteResponse): string { r.remote }

  function Ids(rs: seq<RemoteResponse>): seq<string> { Map(Key, rs) }

  function RemoteIds(remotes: seq<Remote>): seq<string> { Map((r: Remote) => r.id, remotes) }

  /** A response belongs to one of the remotes and fits it. */
  ghost predicate Fits(remotes: seq<Remote>, r: RemoteResponse) {
    exists i :: 0 <= i < |remotes| && remotes[i].id == r.remote && remotes[i].ty == r.ty
                && Answers(remotes[i].job, r.response)
  }

  /** What a complete run returns: the responses in the order of completion, sorted by remote. */
  ghost function Collected(c: Config, steps: seq<(nat, Action)>): seq<RemoteResponse>
    requires Run(c, steps).Some? && Complete(Run(c, steps).value)
  {
    ReachableInv(c, steps);
    Sort(ByRemote, Joined(c, Run(c, steps).value))
  }

  ghost function Joined(c: Config, s: State): (joined: seq<RemoteResponse>)
    requires Inv(c, s)
    ensures |joined| == |s.answered| && JoinedAre(c, s, joined)
  {
    assert forall k :: 0 <= k < |s.answered| ==> s.answered[k] in s.answered;
    seq(|s.answered|, k requires 0 <= k < |s.answered| => Response(c, s, s.answered[k]))
  }

  /** Whatever the order in which the tasks completed, the result has one response per remote, the sequence of
      remote ids is the sorted sequence of all ids, and every response fits its remote. */
  lemma CollectedFits(c: Config, steps: seq<(nat, Action)>)
    requires Run(c, steps).Some? && Complete(Run(c, steps).value)
    ensures Ids(Collected(c, steps)) == Sort(StringLe, RemoteIds(c.remotes))
    ensures forall k :: 0 <= k < |Collected(c, steps)| ==> Fits(c.remotes, Collected(c, steps)[k])
  {
    ReachableInv(c, steps);
    var s := Run(c, steps).value;
    JoinedIds(c, s, Joined(c, s));
    SortedIds(Joined(c, s), RemoteIds(c.remotes));
    SortedFit(c, s, Joined(c, s));
  }

  /** Join all tasks and sort their responses. */
  method Collect(c: Config, ghost steps: seq<(nat, Action)>, s: State) returns (responses: seq<RemoteResponse>)
    requires Run(c, steps) == Some(s) && Complete(s)
    ensures responses == Collected(c, steps)
    ensures Ids(responses) == Sort(StringLe, RemoteIds(c.remotes))
    ensures forall k :: 0 <= k < |responses| ==> Fits(c.remotes, responses[k])
  {
    ReachableInv(c, steps);
    CollectedFits(c, steps);
    var joined := JoinAll(c, s);
    responses := Sort(ByRemote, joined);
  }

  /** Take the responses in the order in which the tasks completed. */
  method JoinAll(c: Config, s: State) returns (joined: seq<RemoteResponse>)
    requires Inv(c, s)
    ensures joined == Joined(c, s)
  {
    joined := [];
    for k := 0 to |s.answered|
      invariant |joined| == k && JoinedAre(c, s, joined)
    {
      assert s.answered[k] in s.answered;
      joined := joined + [Response(c, s, s.answered[k])];
    }
  }

  lemma SortedFit(c: Config, s: State, joined: seq<RemoteResponse>)
    requires Inv(c, s) && JoinedAre(c, s, joined)
    ensures forall k :: 0 <= k < |Sort(ByRemote, joined)| ==> Fits(c.remotes, Sort(ByRemote, joined)[k])
  {
    var responses := Sort(ByRemote, joined);
    ResponseOrder();
    SortSorts(ByRemote, joined);
    forall k | 0 <= k < |responses| ensures Fits(c.remotes, responses[k]) {
      assert responses[k] in multiset(joined);
      JoinedFit(c, s, joined, responses[k]);
    }
  }

  /** The responses joined so far, in the order of completion. */
  ghost predicate JoinedAre(c: Config, s: State, joined: seq<RemoteResponse>)
    requires Inv(c, s)
  {
    |joined| <= |s.answered|
    && forall m :: 0 <= m < |joined| ==> s.answered[m] in s.answered && joined[m] == Response(c, s, s.answered[m])
  }

  lemma JoinedFit(c: Config, s: State, joined: seq<RemoteResponse>, r: RemoteResponse)
    requires Inv(c, s) && JoinedAre(c, s, joined) && r in joined
    ensures Fits(c.remotes, r)
  {
    var m :| 0 <= m < |joined| && joined[m] == r;
    var i := s.answered[m];
    assert i in s.answered && TaskInv(c.maxPerRemote, c.remotes[i].job, s.tasks[i]);
  }

  function Response(c: Config, s: State, i: nat): RemoteResponse
    requires i < |s.tasks| == |c.remotes| && s.tasks[i].phase.Answered?
  {
    RemoteResponse(c.remotes[i].id, c.remotes[i].ty, s.tasks[i].phase.response)
  }

  lemma ResponseOrder()
    ensures TotalPreorder(ByRemote)
  {
    StringOrder();
  }

  lemma JoinedIds(c: Config, s: State, joined: seq<RemoteResponse>)
    requires Inv(c, s) && Complete(s) && |joined| == |s.answered| && JoinedAre(c, s, joined)
    ensures multiset(Ids(joined)) == multiset(RemoteIds(c.remotes))
  {
    var ids := RemoteIds(c.remotes);
    assert forall i :: i in s.answered <==> 0 <= i < |ids|;
    PickAll(ids, s.answered);
    forall m | 0 <= m < |joined| ensures 0 <= s.answered[m] < |ids| && joined[m].remote == ids[s.answered[m]] {
      assert s.answered[m] in s.answered;
    }
    IdsPicked(ids, s.answered, joined);
  }

  lemma IdsPicked(ids: seq<string>, order: seq<int>, joined: seq<RemoteResponse>)
    requires |joined| == |order|
    requires forall m :: 0 <= m < |joined| ==> 0 <= order[m] < |ids| && joined[m].remote == ids[order[m]]
    ensures Ids(joined) == Map(Pick(ids), order)
  {}

  function Pick(ids: seq<string>): int -> string {
    i => if 0 <= i < |ids| then ids[i] else ""
  }

  lemma PickAll(ids: seq<string>, order: seq<int>)
    requires Distinct(order) && forall i :: i in order <==> 0 <= i < |ids|
    ensures multiset(Map(Pick(ids), order)) == multiset(ids)
  {
    AllIndices(order, |ids|);
    MapRearranged(Pick(ids), order, Indices(|ids|));
    assert Map(Pick(ids), Indices(|ids|)) == ids;
  }

  lemma SortedIds(joined: seq<RemoteResponse>, ids: seq<string>)
    requires multiset(Ids(joined)) == multiset(ids)
    ensures Ids(Sort(ByRemote, joined)) == Sort(StringLe, ids)
  {
    var sorted := Sort(ByRemote, joined);
    ResponseOrder();
    SortSorts(ByRemote, joined);
    MapRearranged(Key, joined, sorted);
    StringOrder();
    SortSorts(StringLe, ids);
    SortedUnique(StringLe, Ids(sorted), Sort(StringLe, ids));
  }

  /** The first response for a remote, if any. */
  function Find(responses: seq<RemoteResponse>, remote: string): Option<RemoteResponse> {
    if responses == [] then None
    else if responses[0].remote == remote then Some(responses[0])
    else Find(responses[1..], remote)
  }

  lemma {:induction false} FindFinds(responses: seq<RemoteResponse>, remote: string)
    ensures Find(responses, remote).Some? <==> remote in Ids(responses)
    ensures Find(responses, remote).Some? ==> Find(responses, remote).value in responses
                                              && Find(responses, remote).value.remote == remote
  {
    if responses != [] {
      FindFinds(responses[1..], remote);
      assert Ids(responses) == [responses[0].remote] + Ids(responses[1..]);
    }
  }

  /** Binary search over the sorted responses finds what a linear search finds. */
  method GetRemoteResponse(responses: seq<RemoteResponse>, remote: string) returns (r: Option<RemoteResponse>)
    requires SortedBy(ByRemote, responses) && Distinct(Ids(responses))
    ensures r == Find(responses, remote)
  {
    var low, high := 0, |responses|;
    FindFinds(responses, remote);
    StringOrder();
    while low < high
      invariant 0 <= low <= high <= |responses|
      invariant forall i :: 0 <= i < low ==> responses[i].remote != remote
      invariant forall i :: high <= i < |responses| ==> responses[i].remote != remote
    {
      var mid := low + (high - low) / 2;
      if responses[mid].remote == remote {
        OnlyOne(responses, remote, mid);
        return Some(responses[mid]);
      } else if StringLe(responses[mid].remote, remote) {
        LeftOf(responses, remote, mid);
        low := mid + 1;
      } else {
        RightOf(responses, remote, mid);
        high := mid;
      }
    }
    r := None;
  }

  lemma OnlyOne(responses: seq<RemoteResponse>, remote: string, k: nat)
    requires Distinct(Ids(responses)) && k < |responses| && responses[k].remote == remote
    ensures Find(responses, remote) == Some(responses[k])
  {
    FindFinds(responses, remote);
    assert Ids(responses)[k] == remote;
    var m :| 0 <= m < |responses| && responses[m] == Find(responses, remote).value;
    assert Ids(responses)[m] == remote;
  }

  lemma LeftOf(responses: seq<RemoteResponse>, remote: string, mid: nat)
    requires SortedBy(ByRemote, responses) && mid < |responses|
    requires StringLe(responses[mid].remote, remote) && responses[mid].remote != remote
    ensures forall i :: 0 <= i <= mid ==> responses[i].remote != remote
  {
    forall i | 0 <= i < mid ensures responses[i].remote != remote {
      assert ByRemote(responses[i], responses[mid]);
      if responses[i].remote == remote { StringLeAntisymmetric(remote, responses[mid].remote); }
    }
  }

  lemma RightOf(responses: seq<RemoteResponse>, remote: string, mid: nat)
    requires SortedBy(ByRemote, responses) && mid < |responses|
    requires !StringLe(responses[mid].remote, remote)
    ensures forall i :: mid <= i < |responses| ==> responses[i].remote != remote
  {
    forall i | mid <= i < |responses| ensures responses[i].remote != remote {
      if i > mid { assert ByRemote(responses[mid], responses[i]); }
      StringLeTotal(remote, remote);
    }
  }

  /** Any two complete runs over remotes with distinct ids report the same remotes in the same order, and the
      same answers up to the order of the node responses. */
  lemma RunsAgree(c: Config, steps: seq<(nat, Action)>, other: seq<(nat, Action)>)
    requires Distinct(RemoteIds(c.remotes))
    requires Run(c, steps).Some? && Complete(Run(c, steps).value)
    requires Run(c, other).Some? && Complete(Run(c, other).value)
    ensures var a, b := Collected(c, steps), Collected(c, other);
      |a| == |b| == |c.remotes| && forall k :: 0 <= k < |a| ==> SameResponse(a[k], b[k])
  {
    var a, b := Collected(c, steps), Collected(c, other);
    CollectedFits(c, steps);
    CollectedFits(c, other);
    StringOrder();
    SortSorts(StringLe, RemoteIds(c.remotes));
    assert |Ids(a)| == |a| && |Ids(b)| == |b|;
    forall k | 0 <= k < |a| ensures SameResponse(a[k], b[k]) {
      assert Ids(a)[k] == Ids(b)[k];
      SameAnswer(c.remotes, a[k], b[k]);
    }
  }

  /** Two responses are the same up to the order of the nodes. */
  ghost predicate SameResponse(a: RemoteResponse, b: RemoteResponse) {
    && a.remote == b.remote && a.ty == b.ty
    && (a.response == b.response
        || (a.response.Ok? && b.response.Ok? && multiset(a.response.value) == multiset(b.response.value)))
  }

  /** Two responses of one remote agree up to the order of the nodes. */
  lemma SameAnswer(remotes: seq<Remote>, a: RemoteResponse, b: RemoteResponse)
    requires Distinct(RemoteIds(remotes)) && Fits(remotes, a) && Fits(remotes, b) && a.remote == b.remote
    ensures SameResponse(a, b)
  {
    var i :| 0 <= i < |remotes| && remotes[i].id == a.remote && remotes[i].ty == a.ty
             && Answers(remotes[i].job, a.response);
    var j :| 0 <= j < |remotes| && remotes[j].id == b.remote && remotes[j].ty == b.ty
             && Answers(remotes[j].job, b.response);
    assert RemoteIds(remotes)[i] == RemoteIds(remotes)[j];
  }
}
