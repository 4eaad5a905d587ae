/** The failover client's shared rotation counter and the per-request client generator that walks
    it (server/src/connection.rs).

    `current` is a `usize` that is only reduced modulo the number of hosts when it is used as an
    index, so its arithmetic wraps at `USIZE`. Reachability comes from a cache that is not modelled:
    each query is given the set of host names the cache reports unreachable at that moment. */
module MultiClient {
  import opened Machine
  import opened Wrappers

  /** The entries of a remote. Indexing reduces modulo their number, so there has to be one, and a
      vector of them is far shorter than the address space. */
  type Hosts = hosts: seq<string> | 0 < |hosts| <= USIZE / 4 witness [""]

  function HostAt(hosts: Hosts, at: nat): string {
    hosts[at % |hosts|]
  }

  function WrappingNext(at: nat): (r: nat)
    requires at < USIZE
    ensures r < USIZE
  {
    if at + 1 == USIZE then 0 else at + 1
  }

  /** `at.wrapping_sub(from)`. */
  function Since(from: nat, at: nat): nat
    requires from < USIZE && at < USIZE
  {
    if from <= at then at - from else at + USIZE - from
  }

  /** The position `k` hops after `at`. */
  function Plus(at: nat, k: nat): (r: nat)
    requires at < USIZE && k < USIZE
    ensures r < USIZE && Since(at, r) == k
  {
    if at + k < USIZE then at + k else at + k - USIZE
  }

  /** `skip_unreachable`, allowed `fuel` more hops. */
  function Skip(hosts: Hosts, at: nat, down: set<string>, fuel: nat): (r: nat)
    requires at < USIZE
    ensures r < USIZE
    decreases fuel
  {
    if fuel == 0 || HostAt(hosts, at) !in down then at
    else Skip(hosts, WrappingNext(at), down, fuel - 1)
  }

  /** The positions from `at` up to, but not including, `end`. */
  function Between(at: nat, end: nat): (r: seq<nat>)
    requires at < USIZE && end < USIZE
    decreases Since(at, end)
  {
    if at == end then [] else [at] + Between(WrappingNext(at), end)
  }

  /** What the closure of `try_clients` captures; `fused` is the state kept by `fuse()`. */
  datatype Walk = Walk(
    startCurrent: Option<(nat, nat)>,
    unreachableClients: seq<nat>,
    tryUnreachable: Option<seq<nat>>,
    fused: bool)
  {
    ghost predicate InRange() {
      && (startCurrent.Some? ==> startCurrent.value.0 < USIZE && startCurrent.value.1 < USIZE)
      && (forall i :: 0 <= i < |unreachableClients| ==> unreachableClients[i] < USIZE)
      && (tryUnreachable.Some? ==>
            forall i :: 0 <= i < |tryUnreachable.value| ==> tryUnreachable.value[i] < USIZE)
    }
  }

  const FRESH_WALK := Walk(None, [], None, false)

  /** A candidate is a position of the counter together with the label the retry loop gets. */
  datatype Candidate = Candidate(at: nat, reachable: bool)

  datatype Asked = Asked(current: nat, walk: Walk, candidate: Option<Candidate>)

  /** Take the next remembered position, ending the walk when there is none. */
  function AskLeftover(current: nat, walk: Walk, rest: seq<nat>): Asked {
    if rest == [] then Asked(current, walk.(tryUnreachable := Some([]), fused := true), None)
    else Asked(current, walk.(tryUnreachable := Some(rest[1..])), Some(Candidate(rest[0], false)))
  }

  /** One call of the generator. `down` is what `skip_unreachable` sees and `labels` what the
      separate lookup of `try_client_for_entry` sees. */
  function Ask(hosts: Hosts, current: nat, walk: Walk, down: set<string>, labels: set<string>): (r: Asked)
    requires current < USIZE && walk.InRange()
  {
    if walk.fused then Asked(current, walk, None)
    else if walk.tryUnreachable.Some? then AskLeftover(current, walk, walk.tryUnreachable.value)
    else if walk.startCurrent.None? then
      Asked(current, walk.(startCurrent := Some((current, current))),
            Some(Candidate(current, HostAt(hosts, current) !in labels)))
    else
      var (start, last) := walk.startCurrent.value;
      var now := if current == last then Skip(hosts, WrappingNext(current), down, |hosts|) else current;
      if Since(start, now) >= |hosts| then
        AskLeftover(now, walk.(unreachableClients := []), walk.unreachableClients)
      else
        Asked(now,
              walk.(startCurrent := Some((start, now)),
                    unreachableClients := walk.unreachableClients + Between(WrappingNext(last), now)),
              Some(Candidate(now, HostAt(hosts, now) !in labels)))
  }

  lemma BetweenInRange(at: nat, end: nat)
    requires at < USIZE && end < USIZE
    ensures forall i :: 0 <= i < |Between(at, end)| ==> Between(at, end)[i] < USIZE
    decreases Since(at, end)
  {
    if at != end { BetweenInRange(WrappingNext(at), end); }
  }

  /** Every value of the generator stays inside the machine's range. */
  lemma AskInRange(hosts: Hosts, current: nat, walk: Walk, down: set<string>, labels: set<string>)
    requires current < USIZE && walk.InRange()
    ensures var r := Ask(hosts, current, walk, down, labels);
      r.current < USIZE && r.walk.InRange() && (r.candidate.Some? ==> r.candidate.value.at < USIZE)
  {
    if !walk.fused && walk.tryUnreachable.None? && walk.startCurrent.Some? {
      var (start, last) := walk.startCurrent.value;
      var now := if current == last then Skip(hosts, WrappingNext(current), down, |hosts|) else current;
      BetweenInRange(WrappingNext(last), now);
    }
  }

  /** `skip_unreachable` lands on the first reachable host at or after the old position; with all
      hosts unreachable it comes back to the host it started from. */
  lemma SkipLands(hosts: Hosts, at: nat, down: set<string>, fuel: nat) returns (hops: nat)
    requires at < USIZE && fuel < USIZE
    ensures hops <= fuel
    ensures Skip(hosts, at, down, fuel) == Plus(at, hops)
    ensures forall k :: 0 <= k < hops ==> HostAt(hosts, Plus(at, k)) in down
    ensures hops < fuel ==> HostAt(hosts, Plus(at, hops)) !in down
    decreases fuel
  {
    if fuel == 0 || HostAt(hosts, at) !in down {
      hops := 0;
    } else {
      var more := SkipLands(hosts, WrappingNext(at), down, fuel - 1);
      hops := more + 1;
      assert forall k :: 0 < k <= hops ==> Plus(at, k) == Plus(WrappingNext(at), k - 1);
    }
  }

  /** Going from `from` to `to` passes only hosts reported unreachable, and stops at the first that is not, or
      after one round. */
  ghost predicate Skipped(hosts: Hosts, from: nat, down: set<string>, to: nat)
    requires from < USIZE
  {
    exists hops: nat ::
      && hops <= |hosts| && to == Plus(from, hops)
      && (forall k :: 0 <= k < hops ==> hosts[Plus(from, k) % |hosts|] in down)
      && (hops < |hosts| ==> hosts[to % |hosts|] !in down)
  }

  lemma SkipIsSkipped(hosts: Hosts, from: nat, down: set<string>)
    requires from < USIZE
    ensures Skipped(hosts, from, down, Skip(hosts, from, down, |hosts|))
  {
    var hops := SkipLands(hosts, from, down, |hosts|);
    assert forall k :: 0 <= k < hops ==> HostAt(hosts, Plus(from, k)) in down;
  }

  /** The next of the positions `rest` is handed out, as unreachable; without one the generator ends. */
  predicate HandsRemembered(walk: Walk, rest: seq<nat>, r: Asked) {
    && r.walk.startCurrent == walk.startCurrent
    && (rest == [] ==> r.candidate == None && r.walk.fused && r.walk.tryUnreachable == Some([]))
    && (rest != [] ==>
          && r.candidate == Some(Candidate(rest[0], false))
          && !r.walk.fused && r.walk.tryUnreachable == Some(rest[1..]))
  }

  /** The walk stands on `now`, which is handed out with its label, and remembers in order everything strictly
      between `last` and `now` after what it remembered before. */
  ghost predicate HandsCurrent(hosts: Hosts, walk: Walk, start: nat, last: nat, now: nat, labels: set<string>, r: Asked)
    requires last < USIZE && now < USIZE
  {
    var kept, skipped := |walk.unreachableClients|, Since(WrappingNext(last), now);
    && r.candidate == Some(Candidate(now, hosts[now % |hosts|] !in labels))
    && r.walk.startCurrent == Some((start, now)) && r.walk.tryUnreachable == None && !r.walk.fused
    && |r.walk.unreachableClients| == kept + skipped && walk.unreachableClients <= r.walk.unreachableClients
    && forall k :: 0 <= k < skipped ==> r.walk.unreachableClients[kept + k] == Plus(WrappingNext(last), k)
  }

  /** What one turn of a generator has to do. A request that stands on the counter moves it to the next host
      not reported unreachable; a counter that others have moved stays. A request n or more positions from
      its start takes up what it remembers. */
  ghost predicate TurnMeans(hosts: Hosts, current: nat, walk: Walk, down: set<string>, labels: set<string>, r: Asked)
    requires current < USIZE && walk.InRange()
  {
    if walk.fused then r == Asked(current, walk, None)
    else if walk.tryUnreachable.Some? then
      r.current == current && HandsRemembered(walk, walk.tryUnreachable.value, r)
    else if walk.startCurrent.None? then
      r == Asked(current, walk.(startCurrent := Some((current, current))),
                 Some(Candidate(current, hosts[current % |hosts|] !in labels)))
    else
      var (start, last) := walk.startCurrent.value;
      && r.current < USIZE
      && (if current == last then Skipped(hosts, WrappingNext(current), down, r.current) else r.current == current)
      && (if Since(start, r.current) >= |hosts| then HandsRemembered(walk, walk.unreachableClients, r)
          else HandsCurrent(hosts, walk, start, last, r.current, labels, r))
  }

  lemma {:induction false} BetweenAre(at: nat, end: nat)
    requires at < USIZE && end < USIZE
    ensures |Between(at, end)| == Since(at, end)
    ensures forall k :: 0 <= k < Since(at, end) ==> Between(at, end)[k] == Plus(at, k)
    decreases Since(at, end)
  {
    if at != end {
      BetweenAre(WrappingNext(at), end);
      assert forall k :: 0 < k < Since(at, end) ==> Plus(at, k) == Plus(WrappingNext(at), k - 1);
    }
  }

  lemma AskMeans(hosts: Hosts, current: nat, walk: Walk, down: set<string>, labels: set<string>)
    requires current < USIZE && walk.InRange()
    ensures TurnMeans(hosts, current, walk, down, labels, Ask(hosts, current, walk, down, labels))
  {
    AskInRange(hosts, current, walk, down, labels);
    if !walk.fused && walk.tryUnreachable.None? && walk.startCurrent.Some? {
      var r := Ask(hosts, current, walk, down, labels);
      SkipIsSkipped(hosts, WrappingNext(current), down);
      BetweenAre(WrappingNext(walk.startCurrent.value.1), r.current);
    }
  }

  /** A request that stands on the counter is handed a host that is not reported unreachable, unless it is past
      its n positions or the n positions after the counter are all unreachable. */
  lemma AvoidsUnreachable(hosts: Hosts, current: nat, walk: Walk, down: set<string>, labels: set<string>)
    requires current < USIZE && walk.InRange() && !walk.fused && walk.tryUnreachable.None?
    requires walk.startCurrent.Some? && walk.startCurrent.value.1 == current
    ensures var r := Ask(hosts, current, walk, down, labels);
      || r.walk.tryUnreachable.Some?
      || (r.candidate.Some? && hosts[r.candidate.value.at % |hosts|] !in down)
      || forall k :: 1 <= k <= |hosts| ==> hosts[Plus(current, k) % |hosts|] in down
  {
    AskMeans(hosts, current, walk, down, labels);
    AskInRange(hosts, current, walk, down, labels);
    var next, now := WrappingNext(current), Ask(hosts, current, walk, down, labels).current;
    var hops: nat :| && hops <= |hosts| && now == Plus(next, hops)
                     && (forall k :: 0 <= k < hops ==> hosts[Plus(next, k) % |hosts|] in down)
                     && (hops < |hosts| ==> hosts[now % |hosts|] !in down);
    assert forall k :: 1 <= k <= |hosts| ==> Plus(current, k) == Plus(next, k - 1);
  }

  /** The state behind the mutex that all requests to one remote share. */
  class MultiClientState {
    var current: nat
    const hosts: Hosts

    ghost predicate Valid() reads this { current < USIZE }

    constructor (hosts: Hosts, down: set<string>)
      ensures Valid() && this.hosts == hosts && Skipped(hosts, 0, down, current)
    {
      this.hosts := hosts;
      current := 0;
      new;
      SkipUnreachable(down);
    }

    method Next()
      requires Valid()
      modifies this
      ensures Valid() && current == WrappingNext(old(current))
    {
      current := if current + 1 == USIZE then 0 else current + 1;
    }

    method SkipUnreachable(down: set<string>)
      requires Valid()
      modifies this
      ensures Valid() && current == Skip(hosts, old(current), down, |hosts|)
      ensures Skipped(hosts, old(current), down, current)
    {
      SkipIsSkipped(hosts, current, down);
      for i := 0 to |hosts|
        invariant Valid()
        invariant Skip(hosts, current, down, |hosts| - i) == Skip(hosts, old(current), down, |hosts|)
      {
        if HostAt(hosts, current) in down {
          Next();
        } else {
          return;
        }
      }
    }
  }

  /** One request's generator of clients to try. */
  class TryClients {
    const state: MultiClientState
    var startCurrent: Option<(nat, nat)>
    var unreachableClients: seq<nat>
    var tryUnreachable: Option<seq<nat>>
    var fused: bool

    function View(): Walk reads this {
      Walk(startCurrent, unreachableClients, tryUnreachable, fused)
    }

    ghost predicate Valid() reads this, state {
      state.Valid() && View().InRange()
    }

    constructor (state: MultiClientState)
      requires state.Valid()
      ensures Valid() && this.state == state && View() == FRESH_WALK
    {
      this.state := state;
      startCurrent := None;
      unreachableClients := [];
      tryUnreachable := None;
      fused := false;
    }

    /** One turn of the generator does to the shared counter and to the walk what `Ask` says,
        for whatever the other requests did to the counter since the previous turn. */
    method NextClient(down: set<string>, labels: set<string>) returns (candidate: Option<Candidate>)
      requires Valid()
      modifies this, state
      ensures Valid()
      ensures Asked(state.current, View(), candidate)
              == Ask(state.hosts, old(state.current), old(View()), down, labels)
      ensures TurnMeans(state.hosts, old(state.current), old(View()), down, labels,
                        Asked(state.current, View(), candidate))
    {
      AskMeans(state.hosts, state.current, View(), down, labels);
      AskInRange(state.hosts, state.current, View(), down, labels);
      if fused {
        candidate := None;
      } else if tryUnreachable.Some? {
        candidate := NextLeftover(tryUnreachable.value);
      } else if startCurrent.None? {
        startCurrent := Some((state.current, state.current));
        candidate := Some(Candidate(state.current, HostAt(state.hosts, state.current) !in labels));
      } else {
        if state.current == startCurrent.value.1 {
          state.Next();
          state.SkipUnreachable(down);
        }
        if Since(startCurrent.value.0, state.current) >= |state.hosts| {
          var rest := unreachableClients;
          unreachableClients := [];
          candidate := NextLeftover(rest);
        } else {
          RememberSkipped();
          candidate := Some(Candidate(state.current, HostAt(state.hosts, state.current) !in labels));
        }
      }
    }

    /** Move the walk to the counter, remembering every position in between. */
    method RememberSkipped()
      requires Valid() && startCurrent.Some?
      modifies this
      ensures startCurrent == Some((old(startCurrent).value.0, state.current))
      ensures unreachableClients == old(unreachableClients)
                + Between(WrappingNext(old(startCurrent).value.1), state.current)
      ensures tryUnreachable == old(tryUnreachable) && fused == old(fused)
    {
      var (start, last) := startCurrent.value;
      startCurrent := Some((start, state.current));
      var at: nat := WrappingNext(last);
      while at != state.current
        invariant at < USIZE && startCurrent == Some((start, state.current))
        invariant tryUnreachable == old(tryUnreachable) && fused == old(fused)
        invariant unreachableClients + Between(at, state.current)
                  == old(unreachableClients) + Between(WrappingNext(last), state.current)
        decreases Since(at, state.current)
      {
        unreachableClients := unreachableClients + [at];
        at := WrappingNext(at);
      }
    }

    method NextLeftover(rest: seq<nat>) returns (candidate: Option<Candidate>)
      modifies this
      ensures Asked(state.current, View(), candidate) == AskLeftover(state.current, old(View()), rest)
    {
      if rest == [] {
        tryUnreachable := Some([]);
        fused := true;
        candidate := None;
      } else {
        tryUnreachable := Some(rest[1..]);
        candidate := Some(Candidate(rest[0], false));
      }
    }
  }
}
