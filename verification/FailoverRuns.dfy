/** Any number of requests rotating one shared counter, in any interleaving. */
module FailoverRuns {
  import opened Machine
  import opened MultiClient
  import opened Sequences
  import opened WalkRuns

  /** The shared counter and the generators of the requests that have asked for a client. */
  datatype Shared = Shared(current: nat, walks: map<nat, Walk>) {
    ghost predicate Valid() {
      current < USIZE && forall r :: r in walks ==> walks[r].InRange()
    }

    function WalkOf(request: nat): (w: Walk)
      requires Valid()
      ensures w.InRange()
    {
      if request in walks then walks[request] else FRESH_WALK
    }
  }

  /** A request asks its generator for a client; what the cache answers can differ each time. */
  datatype Event = Event(request: nat, down: set<string>, labels: set<string>)

  function Answer(hosts: Hosts, s: Shared, e: Event): Asked
    requires s.Valid()
  {
    Ask(hosts, s.current, s.WalkOf(e.request), e.down, e.labels)
  }

  function Step(hosts: Hosts, s: Shared, e: Event): (r: Shared)
    requires s.Valid()
    ensures r.Valid()
  {
    AskInRange(hosts, s.current, s.WalkOf(e.request), e.down, e.labels);
    var a := Answer(hosts, s, e);
    Shared(a.current, s.walks[e.request := a.walk])
  }

  /** The state after the given events of a client created at position `first`. */
  function Run(hosts: Hosts, first: nat, events: seq<Event>): (s: Shared)
    requires first < USIZE
    ensures s.Valid()
  {
    if events == [] then Shared(first, map[])
    else Step(hosts, Run(hosts, first, events[..|events| - 1]), events[|events| - 1])
  }

  /** Event `u` moves the counter past position `p`. */
  ghost predicate PassedAt(hosts: Hosts, first: nat, events: seq<Event>, u: nat, p: nat)
    requires first < USIZE && p < USIZE && u < |events|
  {
    var before, after := Run(hosts, first, events[..u]).current, Run(hosts, first, events[..u + 1]).current;
    Since(before, p) < Since(before, after)
  }

  /** Event `v` hands position `p` to request `r`. */
  ghost predicate HandedAt(hosts: Hosts, first: nat, events: seq<Event>, v: nat, r: nat, p: nat)
    requires first < USIZE && v < |events|
  {
    var candidate := Answer(hosts, Run(hosts, first, events[..v]), events[v]).candidate;
    events[v].request == r && candidate.Some? && candidate.value.at == p
  }

  /** `p` is the latest candidate request `r` got before event `u`, at event `v`. */
  ghost predicate LatestAt(hosts: Hosts, first: nat, events: seq<Event>, u: nat, v: nat, r: nat, p: nat)
    requires first < USIZE && v < u <= |events|
  {
    HandedAt(hosts, first, events, v, r, p) && forall w :: v < w < u ==> events[w].request != r
  }

  /** Position `p` may be passed at event `u`: its host is reported unreachable right then, or it is
      the latest candidate of the asking request, which now asks for another. */
  ghost predicate Justified(hosts: Hosts, first: nat, events: seq<Event>, u: nat, p: nat)
    requires first < USIZE && u < |events|
  {
    HostAt(hosts, p) in events[u].down
    || exists v :: 0 <= v < u && LatestAt(hosts, first, events, u, v, events[u].request, p)
  }

  lemma SkipPassesDown(hosts: Hosts, at: nat, down: set<string>, fuel: nat, p: nat)
    requires at < USIZE && p < USIZE && fuel <= |hosts|
    requires Since(at, p) < Since(at, Skip(hosts, at, down, fuel))
    ensures HostAt(hosts, p) in down
    decreases fuel
  {
    if p != at {
      SkipAdvances(hosts, WrappingNext(at), down, fuel - 1);
      SkipPassesDown(hosts, WrappingNext(at), down, fuel - 1, p);
    }
  }

  predicate InFirstPhase(walk: Walk) {
    walk.startCurrent.Some? && walk.tryUnreachable.None? && !walk.fused
  }

  /** One step passes only the position the asking request got last, and unreachable ones. */
  lemma StepPasses(hosts: Hosts, s: Shared, e: Event, p: nat)
    requires s.Valid() && p < USIZE
    requires Since(s.current, p) < Since(s.current, Step(hosts, s, e).current)
    ensures HostAt(hosts, p) in e.down
            || (InFirstPhase(s.WalkOf(e.request)) && s.WalkOf(e.request).startCurrent.value.1 == p)
    ensures Since(s.current, Step(hosts, s, e).current) <= |hosts| + 1
  {
    var next := WrappingNext(s.current);
    SkipAdvances(hosts, next, e.down, |hosts|);
    if p != s.current { SkipPassesDown(hosts, next, e.down, |hosts|, p); }
  }

  lemma StepMoves(hosts: Hosts, s: Shared, e: Event)
    requires s.Valid()
    ensures Since(s.current, Step(hosts, s, e).current) <= |hosts| + 1
  {
    SkipAdvances(hosts, WrappingNext(s.current), e.down, |hosts|);
  }

  lemma FirstPhaseHands(hosts: Hosts, s: Shared, e: Event)
    requires s.Valid() && InFirstPhase(Answer(hosts, s, e).walk)
    ensures var a := Answer(hosts, s, e);
      a.candidate.Some? && a.candidate.value.at == a.walk.startCurrent.value.1
  {}

  /** The position a first-phase generator stands on is the latest its request was handed. */
  lemma {:induction false} LastWasHanded(hosts: Hosts, first: nat, events: seq<Event>, r: nat) returns (v: nat)
    requires first < USIZE && InFirstPhase(Run(hosts, first, events).WalkOf(r))
    ensures v < |events|
    ensures LatestAt(hosts, first, events, |events|, v, r,
                     Run(hosts, first, events).WalkOf(r).startCurrent.value.1)
  {
    var t := |events| - 1;
    if events[t].request == r {
      v := t;
      FirstPhaseHands(hosts, Run(hosts, first, events[..t]), events[t]);
    } else {
      v := LastWasHanded(hosts, first, events[..t], r);
      assert events[..t][..v] == events[..v];
    }
  }

  /** In every interleaving, the counter moves past a position only if that host is reported
      unreachable at that step or the request that got it asked for another client. */
  lemma EveryMoveJustified(hosts: Hosts, first: nat, events: seq<Event>, u: nat, p: nat)
    requires first < USIZE && p < USIZE && u < |events|
    requires PassedAt(hosts, first, events, u, p)
    ensures Justified(hosts, first, events, u, p)
  {
    var s := Run(hosts, first, events[..u]);
    assert events[..u + 1][..u] == events[..u];
    StepPasses(hosts, s, events[u], p);
    if HostAt(hosts, p) !in events[u].down {
      var v := LastWasHanded(hosts, first, events[..u], events[u].request);
      LatestStays(hosts, first, events, u, v, events[u].request, p);
    }
  }

  lemma LatestStays(hosts: Hosts, first: nat, events: seq<Event>, u: nat, v: nat, r: nat, p: nat)
    requires first < USIZE && v < u <= |events| && LatestAt(hosts, first, events[..u], u, v, r, p)
    ensures LatestAt(hosts, first, events, u, v, r, p)
  {
    assert events[..u][..v] == events[..v];
  }

  ghost predicate Covered(hosts: Hosts, first: nat, events: seq<Event>, from: nat, p: nat)
    requires first < USIZE && p < USIZE
  {
    exists u :: from <= u < |events| && PassedAt(hosts, first, events, u, p)
  }

  lemma CoveredStays(hosts: Hosts, first: nat, events: seq<Event>, from: nat, p: nat)
    requires first < USIZE && p < USIZE && events != []
    requires Covered(hosts, first, events[..|events| - 1], from, p)
    ensures Covered(hosts, first, events, from, p)
  {
    var before := events[..|events| - 1];
    var u :| from <= u < |before| && PassedAt(hosts, first, before, u, p);
    PassedStays(hosts, first, events, u, p);
  }

  lemma PassedStays(hosts: Hosts, first: nat, events: seq<Event>, u: nat, p: nat)
    requires first < USIZE && p < USIZE && u < |events| - 1
    requires PassedAt(hosts, first, events[..|events| - 1], u, p)
    ensures PassedAt(hosts, first, events, u, p)
  {
    var before := events[..|events| - 1];
    assert before[..u] == events[..u] && before[..u + 1] == events[..u + 1];
  }

  /** The `n` positions from `start` on have been passed since event `from`. */
  ghost predicate CoveredUpTo(hosts: Hosts, first: nat, events: seq<Event>, from: nat, start: nat, n: nat)
    requires first < USIZE && start < USIZE && n <= |hosts|
  {
    forall j :: 0 <= j < n ==> Covered(hosts, first, events, from, Plus(start, j))
  }

  /** All n positions have been passed, or the counter is less than n ahead and all before it have been. */
  ghost predicate CoveredSoFar(hosts: Hosts, first: nat, events: seq<Event>, from: nat, start: nat, now: nat)
    requires first < USIZE && start < USIZE && now < USIZE
  {
    || CoveredUpTo(hosts, first, events, from, start, |hosts|)
    || (Since(start, now) < |hosts| && CoveredUpTo(hosts, first, events, from, start, Since(start, now)))
  }

  lemma CoverStays(hosts: Hosts, first: nat, events: seq<Event>, from: nat, start: nat, n: nat)
    requires first < USIZE && start < USIZE && n <= |hosts| && events != []
    requires CoveredUpTo(hosts, first, events[..|events| - 1], from, start, n)
    ensures CoveredUpTo(hosts, first, events, from, start, n)
  {
    forall j | 0 <= j < n ensures Covered(hosts, first, events, from, Plus(start, j)) {
      CoveredStays(hosts, first, events, from, Plus(start, j));
    }
  }

  /** The last event passes what lies between the counter before it and the counter after it. */
  lemma CoverExtends(hosts: Hosts, first: nat, events: seq<Event>, from: nat, start: nat)
    requires first < USIZE && start < USIZE && from < |events|
    requires var was := Run(hosts, first, events[..|events| - 1]).current;
      Since(start, was) < |hosts| && CoveredUpTo(hosts, first, events, from, start, Since(start, was))
    ensures CoveredSoFar(hosts, first, events, from, start, Run(hosts, first, events).current)
  {
    var t := |events| - 1;
    var was, now := Run(hosts, first, events[..t]).current, Run(hosts, first, events).current;
    StepMoves(hosts, Run(hosts, first, events[..t]), events[t]);
    assert events[..t + 1] == events;
    forall j | Since(start, was) <= j < |hosts| && j < Since(start, was) + Since(was, now)
      ensures Covered(hosts, first, events, from, Plus(start, j))
    {
      assert PassedAt(hosts, first, events, t, Plus(start, j));
    }
  }

  /** From event `from` on, either all n positions have been passed, or the counter is less than n
      ahead and every position up to it has been. */
  lemma {:induction false} MovesCover(hosts: Hosts, first: nat, events: seq<Event>, from: nat)
    requires first < USIZE && from <= |events|
    ensures CoveredSoFar(hosts, first, events, from, Run(hosts, first, events[..from]).current,
                         Run(hosts, first, events).current)
  {
    var start := Run(hosts, first, events[..from]).current;
    if from == |events| {
      assert events[..from] == events;
    } else {
      var t := |events| - 1;
      var before := events[..t];
      assert before[..from] == events[..from];
      MovesCover(hosts, first, before, from);
      var was := Run(hosts, first, before).current;
      if CoveredUpTo(hosts, first, before, from, start, |hosts|) {
        CoverStays(hosts, first, events, from, start, |hosts|);
      } else {
        CoverStays(hosts, first, events, from, start, Since(start, was));
        CoverExtends(hosts, first, events, from, start);
      }
    }
  }

  /** Once a generator has started, its starting position stays. */
  lemma {:induction false} StartStays(hosts: Hosts, first: nat, events: seq<Event>, from: nat)
    requires first < USIZE && from < |events|
    requires Run(hosts, first, events[..from]).WalkOf(events[from].request) == FRESH_WALK
    ensures var walk := Run(hosts, first, events).WalkOf(events[from].request);
      walk.startCurrent.Some? && walk.startCurrent.value.0 == Run(hosts, first, events[..from]).current
  {
    var t := |events| - 1;
    var s := Run(hosts, first, events[..t]);
    if from < t {
      assert events[..t][..from] == events[..from];
      StartStays(hosts, first, events[..t], from);
      StepKeepsStart(hosts, s, events[t], events[from].request);
    } else {
      StepStarts(hosts, s, events[t]);
    }
  }

  lemma StepStarts(hosts: Hosts, s: Shared, e: Event)
    requires s.Valid() && s.WalkOf(e.request) == FRESH_WALK
    ensures var walk := Step(hosts, s, e).WalkOf(e.request);
      walk.startCurrent.Some? && walk.startCurrent.value.0 == s.current
  {}

  lemma StepKeepsStart(hosts: Hosts, s: Shared, e: Event, r: nat)
    requires s.Valid() && s.WalkOf(r).startCurrent.Some?
    ensures var walk := Step(hosts, s, e).WalkOf(r);
      walk.startCurrent.Some? && walk.startCurrent.value.0 == s.WalkOf(r).startCurrent.value.0
  {}

  /** The request whose first ask is event `from` gives up at the last event. */
  ghost predicate GivesUp(hosts: Hosts, first: nat, events: seq<Event>, from: nat)
    requires first < USIZE
  {
    && 0 <= from < |events| - 1
    && var t := |events| - 1;
       && events[t].request == events[from].request
       && Run(hosts, first, events[..from]).WalkOf(events[from].request) == FRESH_WALK
       && Run(hosts, first, events[..t]).WalkOf(events[from].request).tryUnreachable.None?
       && Run(hosts, first, events).WalkOf(events[from].request).tryUnreachable.Some?
  }

  lemma GivingUpIsFarAhead(hosts: Hosts, s: Shared, e: Event)
    requires s.Valid()
    requires s.WalkOf(e.request).startCurrent.Some? && s.WalkOf(e.request).tryUnreachable.None?
    requires Step(hosts, s, e).WalkOf(e.request).tryUnreachable.Some?
    ensures Since(s.WalkOf(e.request).startCurrent.value.0, Step(hosts, s, e).current) >= |hosts|
  {}

  /** When a request that started at position s gives up, each of the n positions from s on was
      passed since then, and each time either because its host was reported unreachable at that
      very step or because a request whose latest candidate it was came back for another. */
  lemma GiveUpCoversAll(hosts: Hosts, first: nat, events: seq<Event>, from: nat, j: nat)
    requires first < USIZE && GivesUp(hosts, first, events, from) && j < |hosts|
    ensures var p := Plus(Run(hosts, first, events[..from]).current, j);
      exists u :: from <= u < |events| && PassedAt(hosts, first, events, u, p)
                  && Justified(hosts, first, events, u, p)
  {
    var t := |events| - 1;
    var p := Plus(Run(hosts, first, events[..from]).current, j);
    assert events[..t][..from] == events[..from];
    StartStays(hosts, first, events[..t], from);
    GivingUpIsFarAhead(hosts, Run(hosts, first, events[..t]), events[t]);
    MovesCover(hosts, first, events, from);
    assert Covered(hosts, first, events, from, p);
    var u :| from <= u < |events| && PassedAt(hosts, first, events, u, p);
    EveryMoveJustified(hosts, first, events, u, p);
  }

  /** The turns request `r` takes in a run. */
  ghost function TurnsOf(hosts: Hosts, first: nat, events: seq<Event>, r: nat): (turns: seq<Turn>)
    requires first < USIZE
    ensures forall i :: 0 <= i < |turns| ==> turns[i].current < USIZE
  {
    if events == [] then []
    else
      var before, e := events[..|events| - 1], events[|events| - 1];
      TurnsOf(hosts, first, before, r)
      + if e.request == r then [Turn(Run(hosts, first, before).current, e.down, e.labels)] else []
  }

  /** How far the counter has moved since request `r` started. */
  ghost function MovedSince(hosts: Hosts, first: nat, events: seq<Event>, r: nat): nat
    requires first < USIZE
  {
    if events == [] then 0
    else
      var before := events[..|events| - 1];
      if Run(hosts, first, before).WalkOf(r).startCurrent.None? then 0
      else
        MovedSince(hosts, first, before, r)
        + Since(Run(hosts, first, before).current, Run(hosts, first, events).current)
  }

  /** The counter is at or after the position a request has reached, seen from where it started. */
  ghost predicate InOrder(s: Shared, r: nat)
    requires s.Valid()
  {
    s.WalkOf(r).startCurrent.Some? ==>
      var (start, last) := s.WalkOf(r).startCurrent.value;
      Since(start, last) <= Since(start, s.current)
  }

  /** As long as the counter moves fewer than 2^64 times while a request is running, it stays in order. */
  lemma {:induction false} RunInOrder(hosts: Hosts, first: nat, events: seq<Event>, r: nat)
    requires first < USIZE && MovedSince(hosts, first, events, r) < USIZE
    ensures var s := Run(hosts, first, events);
      && InOrder(s, r)
      && (s.WalkOf(r).startCurrent.Some? ==>
            Since(s.WalkOf(r).startCurrent.value.0, s.current) == MovedSince(hosts, first, events, r))
  {
    if events != [] {
      var before, e := events[..|events| - 1], events[|events| - 1];
      var s := Run(hosts, first, before);
      if s.WalkOf(r).startCurrent.Some? {
        RunInOrder(hosts, first, before, r);
        StepInOrder(hosts, s, e, r);
      } else {
        StepFirst(hosts, s, e, r);
      }
    }
  }

  lemma StepInOrder(hosts: Hosts, s: Shared, e: Event, r: nat)
    requires s.Valid() && s.WalkOf(r).startCurrent.Some? && InOrder(s, r)
    requires Since(s.WalkOf(r).startCurrent.value.0, s.current) + Since(s.current, Step(hosts, s, e).current) < USIZE
    ensures InOrder(Step(hosts, s, e), r)
    ensures var walk := Step(hosts, s, e).WalkOf(r);
      walk.startCurrent.Some? && walk.startCurrent.value.0 == s.WalkOf(r).startCurrent.value.0
  {}

  /** A request starts where the counter is, and does not move it. */
  lemma StepFirst(hosts: Hosts, s: Shared, e: Event, r: nat)
    requires s.Valid() && s.WalkOf(r).startCurrent.None?
    ensures var after := Step(hosts, s, e);
      after.WalkOf(r).startCurrent.Some? ==> after.WalkOf(r).startCurrent.value == (after.current, after.current)
  {}

  /** What a request sees of a run is a walk under interference, and it is not lapped if the counter moves
      fewer than 2^64 times while it is running. */
  lemma {:induction false} RunIsDrive(hosts: Hosts, first: nat, events: seq<Event>, r: nat)
    requires first < USIZE
    ensures Drive(hosts, TurnsOf(hosts, first, events, r)).0 == Run(hosts, first, events).WalkOf(r)
    ensures MovedSince(hosts, first, events, r) < USIZE ==> Unlapped(hosts, TurnsOf(hosts, first, events, r))
  {
    if events != [] {
      var before, e := events[..|events| - 1], events[|events| - 1];
      var turns := TurnsOf(hosts, first, before, r);
      RunIsDrive(hosts, first, before, r);
      if MovedSince(hosts, first, events, r) < USIZE { EarlierInOrder(hosts, first, events, r); }
      if e.request == r {
        TurnTaken(hosts, turns, Turn(Run(hosts, first, before).current, e.down, e.labels));
      } else {
        assert TurnsOf(hosts, first, events, r) == turns;
      }
    }
  }

  lemma EarlierInOrder(hosts: Hosts, first: nat, events: seq<Event>, r: nat)
    requires first < USIZE && events != [] && MovedSince(hosts, first, events, r) < USIZE
    ensures var before := events[..|events| - 1];
      && MovedSince(hosts, first, before, r) < USIZE
      && InOrder(Run(hosts, first, before), r)
  {
    var before := events[..|events| - 1];
    if Run(hosts, first, before).WalkOf(r).startCurrent.None? { NotStarted(hosts, first, before, r); }
    RunInOrder(hosts, first, before, r);
  }

  lemma NotStarted(hosts: Hosts, first: nat, events: seq<Event>, r: nat)
    requires first < USIZE && Run(hosts, first, events).WalkOf(r).startCurrent.None?
    ensures MovedSince(hosts, first, events, r) == 0
  {
    if events != [] {
      var s := Run(hosts, first, events[..|events| - 1]);
      if s.WalkOf(r).startCurrent.Some? { StepKeepsStart(hosts, s, events[|events| - 1], r); }
    }
  }

  /** In every interleaving every request that the counter does not lap, and so every one during which it
      moves fewer than 2^64 times, gets each position at most once, at most n in all, and no more than n + 1
      turns. */
  lemma EveryRequestEndsWithinN(hosts: Hosts, first: nat, events: seq<Event>, r: nat)
    requires first < USIZE
    ensures var turns := TurnsOf(hosts, first, events, r);
      var (walk, handed) := Drive(hosts, turns);
      && walk == Run(hosts, first, events).WalkOf(r)
      && (MovedSince(hosts, first, events, r) < USIZE ==> Unlapped(hosts, turns))
      && (Unlapped(hosts, turns) ==>
            Distinct(handed) && |handed| <= |hosts| && (|turns| > |hosts| ==> walk.fused))
  {
    RunIsDrive(hosts, first, events, r);
    var turns := TurnsOf(hosts, first, events, r);
    if Unlapped(hosts, turns) && turns != [] { EachPositionOnce(hosts, turns); }
  }
}
