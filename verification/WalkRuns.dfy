/** What one generator hands out, whatever the other requests do to the shared counter meanwhile. */
module WalkRuns {
  import opened Arithmetic
  import opened Machine
  import opened MultiClient
  import opened Sequences
  import opened Wrappers

  /** The `count` positions from `at` on. */
  function Window(at: nat, count: nat): (r: seq<nat>)
    requires at < USIZE && count < USIZE
    ensures |r| == count
    ensures forall i :: 0 <= i < count ==> r[i] == Plus(at, i)
  {
    seq(count, i requires 0 <= i < count => Plus(at, i))
  }

  lemma {:induction false} BetweenIsWindow(at: nat, end: nat)
    requires at < USIZE && end < USIZE
    ensures Between(at, end) == Window(at, Since(at, end))
    decreases Since(at, end)
  {
    if at != end {
      BetweenIsWindow(WrappingNext(at), end);
      assert Window(at, Since(at, end)) == [at] + Window(WrappingNext(at), Since(at, end) - 1);
    }
  }

  /** Walking on from inside a window extends it by what lies between and the new position. */
  lemma WindowExtends(start: nat, last: nat, now: nat)
    requires start < USIZE && last < USIZE && now < USIZE
    requires Since(start, last) < Since(start, now) < USIZE - 1
    ensures Window(start, Since(start, now) + 1)
            == Window(start, Since(start, last) + 1) + (Between(WrappingNext(last), now) + [now])
  {
    BetweenIsWindow(WrappingNext(last), now);
  }

  /** A part of a rearranged window has no repetition, is no longer than the window and lies in it. */
  lemma PartOfWindow(part: seq<nat>, rest: seq<nat>, start: nat, count: nat)
    requires start < USIZE && count < USIZE
    requires multiset(part + rest) == multiset(Window(start, count))
    ensures Distinct(part) && |part| + |rest| == count
    ensures forall i :: 0 <= i < |part| ==> part[i] < USIZE && Since(start, part[i]) < count
  {
    var w := Window(start, count);
    assert Distinct(w);
    forall x ensures multiset(part)[x] <= 1 {
      MultisetOfDistinct(w, x);
      assert multiset(part + rest) == multiset(part) + multiset(rest);
    }
    DistinctFromMultiset(part);
    assert |part + rest| == |multiset(part + rest)| == |multiset(w)| == count;
    forall i | 0 <= i < |part| ensures part[i] < USIZE && Since(start, part[i]) < count {
      assert (part + rest)[i] in multiset(part + rest);
      assert part[i] in w;
    }
  }

  /** What a generator that has handed out `handed` looks like: what was handed out and what is
      still remembered are together the window from the start to the last first-phase position. */
  ghost predicate Consistent(n: nat, walk: Walk, handed: seq<nat>)
    requires 0 < n <= USIZE / 4
  {
    walk.InRange() &&
    if walk.startCurrent.None? then
      handed == [] && walk == FRESH_WALK
    else
      var (start, last) := walk.startCurrent.value;
      && Since(start, last) < n
      && (walk.tryUnreachable.None? ==>
            !walk.fused
            && multiset(handed + walk.unreachableClients) == multiset(Window(start, Since(start, last) + 1)))
      && (walk.tryUnreachable.Some? ==>
            && walk.unreachableClients == []
            && multiset(handed + walk.tryUnreachable.value) == multiset(Window(start, Since(start, last) + 1)))
      && (walk.fused ==> walk.tryUnreachable == Some([]))
  }

  /** The counter a generator sees in its first phase is not behind its latest candidate: it has not gone
      all the way around to there. */
  ghost predicate NotLapped(walk: Walk, current: nat)
    requires walk.InRange() && current < USIZE
  {
    walk.startCurrent.Some? && walk.tryUnreachable.None? ==>
      Since(walk.startCurrent.value.0, walk.startCurrent.value.1) <= Since(walk.startCurrent.value.0, current)
  }

  function HandedWith(handed: seq<nat>, candidate: Option<Candidate>): seq<nat> {
    if candidate.Some? then handed + [candidate.value.at] else handed
  }

  lemma SkipAdvances(hosts: Hosts, at: nat, down: set<string>, fuel: nat)
    requires at < USIZE && fuel < USIZE
    ensures Since(at, Skip(hosts, at, down, fuel)) <= fuel
    decreases fuel
  {
    if fuel > 0 && HostAt(hosts, at) in down { SkipAdvances(hosts, WrappingNext(at), down, fuel - 1); }
  }

  lemma LeftoverKeepsConsistent(n: nat, current: nat, walk: Walk, rest: seq<nat>, handed: seq<nat>)
    requires 0 < n <= USIZE / 4 && walk.startCurrent.Some? && !walk.fused
    requires Consistent(n, walk.(unreachableClients := [], tryUnreachable := Some(rest)), handed)
    ensures var r := AskLeftover(current, walk.(unreachableClients := []), rest);
      Consistent(n, r.walk, HandedWith(handed, r.candidate)) && (r.candidate.None? <==> r.walk.fused)
  {
    var (start, last) := walk.startCurrent.value;
    if rest == [] {
      SecondPhaseConsistent(n, start, last, [], handed, true);
    } else {
      HandFirst(handed, rest);
      SecondPhaseConsistent(n, start, last, rest[1..], handed + [rest[0]], false);
    }
  }

  lemma SecondPhaseConsistent(n: nat, start: nat, last: nat, rest: seq<nat>, handed: seq<nat>, fused: bool)
    requires 0 < n <= USIZE / 4 && start < USIZE && last < USIZE && Since(start, last) < n && (fused ==> rest == [])
    requires forall i :: 0 <= i < |rest| ==> rest[i] < USIZE
    requires multiset(handed + rest) == multiset(Window(start, Since(start, last) + 1))
    ensures Consistent(n, Walk(Some((start, last)), [], Some(rest), fused), handed)
  {}

  lemma HandFirst(handed: seq<nat>, rest: seq<nat>)
    requires rest != []
    ensures (handed + [rest[0]]) + rest[1..] == handed + rest
  {}

  /** A generator keeps its books straight under any interference, exactly as long as the counter does not
      lap it; then a first-phase candidate lies strictly further than the one before. The only turn without
      a candidate is the last. */
  lemma AskKeepsConsistent(hosts: Hosts, current: nat, walk: Walk, down: set<string>, labels: set<string>,
                           handed: seq<nat>)
    requires current < USIZE && Consistent(|hosts|, walk, handed)
    ensures var r := Ask(hosts, current, walk, down, labels);
      && (Consistent(|hosts|, r.walk, HandedWith(handed, r.candidate)) <==> NotLapped(walk, current))
      && (r.candidate.None? <==> r.walk.fused)
      && (walk.startCurrent.Some? && r.walk.tryUnreachable.None? && NotLapped(walk, current) ==>
            && r.candidate.Some?
            && Since(walk.startCurrent.value.0, walk.startCurrent.value.1)
               < Since(walk.startCurrent.value.0, r.candidate.value.at) < |hosts|)
  {
    if walk.fused {
    } else if walk.tryUnreachable.Some? {
      LeftoverKeepsConsistent(|hosts|, current, walk, walk.tryUnreachable.value, handed);
    } else if walk.startCurrent.None? {
      FirstKeepsConsistent(hosts, current, walk, down, labels, handed);
    } else if NotLapped(walk, current) {
      AdvanceKeepsConsistent(hosts, current, walk, down, labels, handed);
    } else {
      LappedRepeats(hosts, current, walk, down, labels, handed);
    }
  }

  lemma FirstKeepsConsistent(hosts: Hosts, current: nat, walk: Walk, down: set<string>, labels: set<string>,
                             handed: seq<nat>)
    requires current < USIZE && Consistent(|hosts|, walk, handed) && walk.startCurrent.None?
    ensures var r := Ask(hosts, current, walk, down, labels);
      r.candidate.Some? && !r.walk.fused && Consistent(|hosts|, r.walk, HandedWith(handed, r.candidate))
  {
    assert Window(current, 1) == [current];
  }

  /** A lapped generator is handed a position that it has handed out or remembered before. */
  lemma LappedRepeats(hosts: Hosts, current: nat, walk: Walk, down: set<string>, labels: set<string>,
                      handed: seq<nat>)
    requires current < USIZE && Consistent(|hosts|, walk, handed) && !NotLapped(walk, current)
    ensures var r := Ask(hosts, current, walk, down, labels);
      && r.candidate.Some? && !r.walk.fused && r.candidate.value.at in handed + walk.unreachableClients
      && !Consistent(|hosts|, r.walk, HandedWith(handed, r.candidate))
  {
    var (start, last) := walk.startCurrent.value;
    var w, before := Window(start, Since(start, last) + 1), handed + walk.unreachableClients;
    assert w[Since(start, current)] == current && current in multiset(w);
    assert current in multiset(before);
    assert |multiset(before)| == |multiset(w)|;
    var r := Ask(hosts, current, walk, down, labels);
    var after := (handed + [current]) + r.walk.unreachableClients;
    assert |after| > |before|;
    assert |multiset(after)| == |after| && |multiset(Window(start, Since(start, current) + 1))| <= |w|;
  }

  lemma AdvanceKeepsConsistent(hosts: Hosts, current: nat, walk: Walk, down: set<string>, labels: set<string>,
                               handed: seq<nat>)
    requires current < USIZE && Consistent(|hosts|, walk, handed) && NotLapped(walk, current)
    requires walk.startCurrent.Some? && walk.tryUnreachable.None?
    ensures var r := Ask(hosts, current, walk, down, labels);
      && Consistent(|hosts|, r.walk, HandedWith(handed, r.candidate))
      && (r.candidate.None? <==> r.walk.fused)
      && (r.walk.tryUnreachable.None? ==>
            && r.candidate.Some?
            && Since(walk.startCurrent.value.0, walk.startCurrent.value.1)
               < Since(walk.startCurrent.value.0, r.candidate.value.at) < |hosts|)
  {
    var (start, last) := walk.startCurrent.value;
    var now := if current == last then Skip(hosts, WrappingNext(current), down, |hosts|) else current;
    AdvanceMovesOn(hosts, current, start, last, down);
    if Since(start, now) >= |hosts| {
      LeftoverKeepsConsistent(|hosts|, now, walk, walk.unreachableClients, handed);
    } else {
      RememberKeepsConsistent(|hosts|, walk, now, handed);
    }
  }

  lemma RememberKeepsConsistent(n: nat, walk: Walk, now: nat, handed: seq<nat>)
    requires 0 < n <= USIZE / 4 && now < USIZE && Consistent(n, walk, handed)
    requires walk.startCurrent.Some? && walk.tryUnreachable.None?
    requires Since(walk.startCurrent.value.0, walk.startCurrent.value.1) < Since(walk.startCurrent.value.0, now) < n
    ensures var (start, last) := walk.startCurrent.value;
      Consistent(n,
                 walk.(startCurrent := Some((start, now)),
                       unreachableClients := walk.unreachableClients + Between(WrappingNext(last), now)),
                 handed + [now])
  {
    var (start, last) := walk.startCurrent.value;
    var remembered := walk.unreachableClients + Between(WrappingNext(last), now);
    RememberInRange(walk.unreachableClients, last, now);
    RememberCovers(handed, walk.unreachableClients, start, last, now);
    FirstPhaseConsistent(n, start, now, remembered, handed + [now]);
  }

  lemma FirstPhaseConsistent(n: nat, start: nat, last: nat, remembered: seq<nat>, handed: seq<nat>)
    requires 0 < n <= USIZE / 4 && start < USIZE && last < USIZE && Since(start, last) < n
    requires forall i :: 0 <= i < |remembered| ==> remembered[i] < USIZE
    requires multiset(handed + remembered) == multiset(Window(start, Since(start, last) + 1))
    ensures Consistent(n, Walk(Some((start, last)), remembered, None, false), handed)
  {}

  lemma RememberInRange(remembered: seq<nat>, last: nat, now: nat)
    requires last < USIZE && now < USIZE && forall i :: 0 <= i < |remembered| ==> remembered[i] < USIZE
    ensures var more := remembered + Between(WrappingNext(last), now);
      forall i :: 0 <= i < |more| ==> more[i] < USIZE
  {
    BetweenInRange(WrappingNext(last), now);
  }

  lemma RememberCovers(handed: seq<nat>, remembered: seq<nat>, start: nat, last: nat, now: nat)
    requires start < USIZE && last < USIZE && now < USIZE
    requires Since(start, last) < Since(start, now) < USIZE - 1
    requires multiset(handed + remembered) == multiset(Window(start, Since(start, last) + 1))
    ensures multiset((handed + [now]) + (remembered + Between(WrappingNext(last), now)))
            == multiset(Window(start, Since(start, now) + 1))
  {
    WindowExtends(start, last, now);
    Regroup(handed, remembered, Between(WrappingNext(last), now), now,
            Window(start, Since(start, last) + 1), Window(start, Since(start, now) + 1));
  }

  lemma AdvanceMovesOn(hosts: Hosts, current: nat, start: nat, last: nat, down: set<string>)
    requires start < USIZE && last < USIZE && current < USIZE
    requires Since(start, last) < |hosts| && Since(start, last) <= Since(start, current)
    ensures var now := if current == last then Skip(hosts, WrappingNext(current), down, |hosts|) else current;
      Since(start, last) < Since(start, now)
  {
    SkipAdvances(hosts, WrappingNext(current), down, |hosts|);
  }

  lemma Regroup(handed: seq<nat>, remembered: seq<nat>, skipped: seq<nat>, now: nat, window: seq<nat>,
                wider: seq<nat>)
    requires multiset(handed + remembered) == multiset(window) && wider == window + (skipped + [now])
    ensures multiset((handed + [now]) + (remembered + skipped)) == multiset(wider)
  {
    calc {
      multiset((handed + [now]) + (remembered + skipped));
      multiset(handed) + multiset([now]) + multiset(remembered) + multiset(skipped);
      multiset(handed + remembered) + multiset(skipped) + multiset([now]);
      multiset(wider);
    }
  }

  /** One turn: the counter as the interference left it, and the two cache lookups. */
  datatype Turn = Turn(current: nat, down: set<string>, labels: set<string>)

  /** The walk after the given turns together with everything handed out. */
  ghost function Drive(hosts: Hosts, turns: seq<Turn>): (r: (Walk, seq<nat>))
    requires forall i :: 0 <= i < |turns| ==> turns[i].current < USIZE
    ensures r.0.InRange()
  {
    if turns == [] then (FRESH_WALK, [])
    else
      var (walk, handed) := Drive(hosts, turns[..|turns| - 1]);
      var turn := turns[|turns| - 1];
      var r := Ask(hosts, turn.current, walk, turn.down, turn.labels);
      AskInRange(hosts, turn.current, walk, turn.down, turn.labels);
      (r.walk, HandedWith(handed, r.candidate))
  }

  ghost predicate Unlapped(hosts: Hosts, turns: seq<Turn>)
  {
    turns != [] ==>
      && (forall i :: 0 <= i < |turns| ==> turns[i].current < USIZE)
      && Unlapped(hosts, turns[..|turns| - 1])
      && NotLapped(Drive(hosts, turns[..|turns| - 1]).0, turns[|turns| - 1].current)
  }

  /** One more turn. */
  lemma TurnTaken(hosts: Hosts, turns: seq<Turn>, turn: Turn)
    requires turn.current < USIZE && forall i :: 0 <= i < |turns| ==> turns[i].current < USIZE
    ensures var (walk, handed) := Drive(hosts, turns);
      var r := Ask(hosts, turn.current, walk, turn.down, turn.labels);
      && Drive(hosts, turns + [turn]) == (r.walk, HandedWith(handed, r.candidate))
      && (Unlapped(hosts, turns + [turn]) <==> Unlapped(hosts, turns) && NotLapped(walk, turn.current))
  {
    assert (turns + [turn])[..|turns|] == turns;
  }

  lemma {:induction false} DriveKeepsConsistent(hosts: Hosts, turns: seq<Turn>)
    requires Unlapped(hosts, turns)
    ensures forall i :: 0 <= i < |turns| ==> turns[i].current < USIZE
    ensures var (walk, handed) := Drive(hosts, turns);
      Consistent(|hosts|, walk, handed) && (!walk.fused ==> |handed| == |turns|)
  {
    if turns != [] {
      var before := turns[..|turns| - 1];
      DriveKeepsConsistent(hosts, before);
      var (walk, handed) := Drive(hosts, before);
      var turn := turns[|turns| - 1];
      AskKeepsConsistent(hosts, turn.current, walk, turn.down, turn.labels, handed);
    }
  }

  /** The positions a generator has yet to hand out of those it remembers. */
  function Pending(walk: Walk): seq<nat> {
    if walk.tryUnreachable.Some? then walk.tryUnreachable.value else walk.unreachableClients
  }

  /** Position `x` was handed out or is remembered more than once. */
  ghost predicate Repeated(walk: Walk, handed: seq<nat>, x: nat) {
    multiset(handed + Pending(walk))[x] >= 2
  }

  /** A turn loses no position that was handed out or is remembered. */
  lemma AskKeepsRepeated(hosts: Hosts, current: nat, walk: Walk, down: set<string>, labels: set<string>,
                         handed: seq<nat>, x: nat)
    requires current < USIZE && walk.InRange() && Repeated(walk, handed, x)
    ensures var r := Ask(hosts, current, walk, down, labels);
      Repeated(r.walk, HandedWith(handed, r.candidate), x)
  {
    AskGoesOn(hosts, current, walk, down, labels);
    GoesOnRepeated(walk, handed, Ask(hosts, current, walk, down, labels), x);
  }

  /** A turn hands out nothing, or the first that is pending, or another position and forgets none. */
  ghost predicate GoesOn(walk: Walk, r: Asked) {
    var rest := Pending(walk);
    || (r.candidate == None && Pending(r.walk) == rest)
    || (rest != [] && r.candidate.Some? && r.candidate.value.at == rest[0] && Pending(r.walk) == rest[1..])
    || (r.candidate.Some? && rest <= Pending(r.walk))
  }

  lemma AskGoesOn(hosts: Hosts, current: nat, walk: Walk, down: set<string>, labels: set<string>)
    requires current < USIZE && walk.InRange()
    ensures GoesOn(walk, Ask(hosts, current, walk, down, labels))
  {}

  lemma GoesOnRepeated(walk: Walk, handed: seq<nat>, r: Asked, x: nat)
    requires GoesOn(walk, r) && Repeated(walk, handed, x)
    ensures Repeated(r.walk, HandedWith(handed, r.candidate), x)
  {
    var rest := Pending(walk);
    if r.candidate.Some? {
      if rest <= Pending(r.walk) {
        MoreHanded(handed, rest, r.candidate.value.at, Pending(r.walk), x);
      } else {
        HandFirst(handed, rest);
      }
    }
  }

  lemma MoreHanded(handed: seq<nat>, rest: seq<nat>, at: nat, more: seq<nat>, x: nat)
    requires rest <= more
    ensures multiset((handed + [at]) + more)[x] >= multiset(handed + rest)[x] + if x == at then 1 else 0
  {
    var skipped := more[|rest|..];
    assert (handed + [at]) + more == handed + ([at] + (rest + skipped));
    assert multiset((handed + [at]) + more)
        == multiset(handed) + (multiset([at]) + (multiset(rest) + multiset(skipped)));
  }

  /** A turn that laps a generator whose books were straight repeats the position it hands out. */
  lemma LappedIsRepeated(hosts: Hosts, current: nat, walk: Walk, down: set<string>, labels: set<string>,
                         handed: seq<nat>)
    requires current < USIZE && Consistent(|hosts|, walk, handed) && !NotLapped(walk, current)
    ensures var r := Ask(hosts, current, walk, down, labels);
      r.candidate.Some? && Repeated(r.walk, HandedWith(handed, r.candidate), r.candidate.value.at)
  {
    LappedRepeats(hosts, current, walk, down, labels, handed);
    var r := Ask(hosts, current, walk, down, labels);
    MoreHanded(handed, walk.unreachableClients, current, r.walk.unreachableClients, current);
  }

  lemma {:induction false} LappedStaysRepeated(hosts: Hosts, turns: seq<Turn>) returns (x: nat)
    requires (forall i :: 0 <= i < |turns| ==> turns[i].current < USIZE) && !Unlapped(hosts, turns)
    ensures Repeated(Drive(hosts, turns).0, Drive(hosts, turns).1, x)
  {
    var before, turn := turns[..|turns| - 1], turns[|turns| - 1];
    assert turns == before + [turn];
    TurnTaken(hosts, before, turn);
    var (walk, handed) := Drive(hosts, before);
    if Unlapped(hosts, before) {
      DriveKeepsConsistent(hosts, before);
      LappedIsRepeated(hosts, turn.current, walk, turn.down, turn.labels, handed);
      x := Ask(hosts, turn.current, walk, turn.down, turn.labels).candidate.value.at;
    } else {
      x := LappedStaysRepeated(hosts, before);
      AskKeepsRepeated(hosts, turn.current, walk, turn.down, turn.labels, handed, x);
    }
  }

  lemma {:induction false} EndedIsEmpty(hosts: Hosts, turns: seq<Turn>)
    requires forall i :: 0 <= i < |turns| ==> turns[i].current < USIZE
    ensures Drive(hosts, turns).0.fused ==> Pending(Drive(hosts, turns).0) == []
  {
    if turns != [] { EndedIsEmpty(hosts, turns[..|turns| - 1]); }
  }

  lemma RepeatedNotDistinct(s: seq<nat>, x: nat)
    requires multiset(s)[x] >= 2
    ensures !Distinct(s)
  {
    if Distinct(s) { MultisetOfDistinct(s, x); }
  }

  /** No position is handed out or left to be handed out twice, exactly when no turn laps the generator; so
      once it has ended, none was handed out twice exactly then. */
  lemma OncePerPositionExactlyUnlapped(hosts: Hosts, turns: seq<Turn>)
    requires forall i :: 0 <= i < |turns| ==> turns[i].current < USIZE
    ensures var (walk, handed) := Drive(hosts, turns);
      && (Distinct(handed + Pending(walk)) <==> Unlapped(hosts, turns))
      && (walk.fused ==> (Distinct(handed) <==> Unlapped(hosts, turns)))
  {
    var (walk, handed) := Drive(hosts, turns);
    EndedIsEmpty(hosts, turns);
    if walk.fused { assert handed + Pending(walk) == handed; }
    if Unlapped(hosts, turns) {
      DriveKeepsConsistent(hosts, turns);
      ConsistentIsDistinct(|hosts|, walk, handed);
    } else {
      var x := LappedStaysRepeated(hosts, turns);
      RepeatedNotDistinct(handed + Pending(walk), x);
    }
  }

  lemma ConsistentIsDistinct(n: nat, walk: Walk, handed: seq<nat>)
    requires 0 < n <= USIZE / 4 && Consistent(n, walk, handed)
    ensures Distinct(handed + Pending(walk))
  {
    if walk.startCurrent.Some? {
      var (start, last) := walk.startCurrent.value;
      var all := handed + Pending(walk);
      assert all + [] == all;
      PartOfWindow(all, [], start, Since(start, last) + 1);
    }
  }

  lemma FirstTurn(hosts: Hosts, turn: Turn)
    requires turn.current < USIZE
    ensures Drive(hosts, [turn])
            == (Walk(Some((turn.current, turn.current)), [], None, false), [turn.current])
  {
    assert [turn][..0] == [];
    assert Drive(hosts, [turn][..0]) == (FRESH_WALK, []);
    assert [] + [turn.current] == [turn.current];
  }

  lemma LapLength(start: nat)
    requires start < USIZE
    ensures |Between(WrappingNext(WrappingNext(start)), start)| == USIZE - 2
  {
    BetweenIsWindow(WrappingNext(WrappingNext(start)), start);
  }

  /** Unless it is lapped: a counter that comes back to the first position while the second is out makes the
      generator hand that one out again, after remembering the 2^64 - 2 positions in between. */
  lemma LappedHandsOutTwice(hosts: Hosts, start: nat)
    requires start < USIZE && |hosts| >= 2
    ensures var next := WrappingNext(start);
      var (walk, handed) := Drive(hosts, [Turn(start, {}, {}), Turn(next, {}, {}), Turn(start, {}, {})]);
      handed == [start, next, start] && |walk.unreachableClients| == USIZE - 2
  {
    var next := WrappingNext(start);
    var turns := [Turn(start, {}, {}), Turn(next, {}, {}), Turn(start, {}, {})];
    assert turns[..2] == [turns[0], turns[1]] && turns[..2][..1] == [turns[0]];
    FirstTurn(hosts, turns[0]);
    assert Between(next, next) == [] && [start] + [next] == [start, next];
    assert Drive(hosts, turns[..2][..1]) == Drive(hosts, [turns[0]]);
    assert Drive(hosts, turns[..2]) == (Walk(Some((start, next)), [], None, false), [start, next]);
    LapLength(start);
  }

  /** Under any interference a generator hands out no position twice, all of them among the n
      from its first one; it ends by the (n+1)-st turn; and when it has ended it has handed out
      exactly the positions from its first to its last first-phase one. */
  lemma EachPositionOnce(hosts: Hosts, turns: seq<Turn>)
    requires Unlapped(hosts, turns) && turns != []
    ensures forall i :: 0 <= i < |turns| ==> turns[i].current < USIZE
    ensures var (walk, handed) := Drive(hosts, turns);
      && Distinct(handed) && |handed| <= |hosts|
      && walk.startCurrent.Some?
      && (forall i :: 0 <= i < |handed| ==>
            handed[i] < USIZE && Since(walk.startCurrent.value.0, handed[i]) < |hosts|)
      && (|turns| > |hosts| ==> walk.fused)
      && (walk.fused ==>
            var (start, last) := walk.startCurrent.value;
            Since(start, last) < |hosts| && multiset(handed) == multiset(Window(start, Since(start, last) + 1)))
  {
    DriveKeepsConsistent(hosts, turns);
    FirstTurnStarts(hosts, turns);
    var (walk, handed) := Drive(hosts, turns);
    ConsistentMeans(|hosts|, walk, handed);
  }

  lemma ConsistentMeans(n: nat, walk: Walk, handed: seq<nat>)
    requires 0 < n <= USIZE / 4 && Consistent(n, walk, handed) && walk.startCurrent.Some?
    ensures Distinct(handed) && |handed| <= n
    ensures forall i :: 0 <= i < |handed| ==>
      handed[i] < USIZE && Since(walk.startCurrent.value.0, handed[i]) < n
    ensures walk.fused ==>
      var (start, last) := walk.startCurrent.value;
      multiset(handed) == multiset(Window(start, Since(start, last) + 1))
  {
    var (start, last) := walk.startCurrent.value;
    var rest := if walk.tryUnreachable.Some? then walk.tryUnreachable.value else walk.unreachableClients;
    PartOfWindow(handed, rest, start, Since(start, last) + 1);
    if walk.fused { assert handed + rest == handed; }
  }

  lemma FirstTurnStarts(hosts: Hosts, turns: seq<Turn>)
    requires turns != [] && forall i :: 0 <= i < |turns| ==> turns[i].current < USIZE
    requires Unlapped(hosts, turns)
    ensures Drive(hosts, turns).0.startCurrent.Some?
    ensures Drive(hosts, turns).0.startCurrent.value.0 == turns[0].current
  {
    var before := turns[..|turns| - 1];
    DriveKeepsConsistent(hosts, before);
    if before != [] { FirstTurnStarts(hosts, before); }
  }

  /** The n positions from `start` on are n different entries exactly when the counter does not wrap
      among them or the number of entries divides 2^64: `%` is not continuous across the wrap. */
  lemma WindowEntriesDiffer(start: nat, n: nat)
    requires start < USIZE && 0 < n <= USIZE / 4
    ensures (forall i, j :: 0 <= i < j < n ==> Plus(start, i) % n != Plus(start, j) % n)
            <==> start + n <= USIZE || USIZE % n == 0
  {
    if start + n <= USIZE || USIZE % n == 0 {
      forall i, j | 0 <= i < j < n ensures Plus(start, i) % n != Plus(start, j) % n {
        RemaindersDiffer(start + i, start + j, n);
        if USIZE <= start + i { MultipleShift(Plus(start, i), USIZE, n); }
        if USIZE <= start + j { MultipleShift(Plus(start, j), USIZE, n); }
      }
    } else {
      var before, c := USIZE - start, USIZE % n;
      // `before` positions lie before the wrap; the last of them has entry c - 1
      if before < c {
        RemainderBelow(USIZE, before, n);
        SmallRemainder(c - before, n);
        assert Plus(start, 0) % n == Plus(start, before + (c - before)) % n;
      } else {
        RemainderBelow(USIZE, c, n);
        SmallRemainder(0, n);
        assert Plus(start, before - c) % n == Plus(start, before) % n;
      }
    }
  }

  ghost predicate NoEntryTwice(hosts: Hosts, handed: seq<nat>) {
    forall i, j :: 0 <= i < j < |handed| ==> handed[i] % |hosts| != handed[j] % |hosts|
  }

  lemma EntriesDiffer(hosts: Hosts, turns: seq<Turn>)
    requires Unlapped(hosts, turns) && turns != []
    ensures forall i :: 0 <= i < |turns| ==> turns[i].current < USIZE
    ensures turns[0].current + |hosts| <= USIZE || USIZE % |hosts| == 0 ==>
      NoEntryTwice(hosts, Drive(hosts, turns).1)
  {
    EachPositionOnce(hosts, turns);
    FirstTurnStarts(hosts, turns);
    var (walk, handed) := Drive(hosts, turns);
    var start, n := turns[0].current, |hosts|;
    if start + n <= USIZE || USIZE % n == 0 {
      WindowEntriesDiffer(start, n);
      forall i, j | 0 <= i < j < |handed| ensures handed[i] % n != handed[j] % n {
        var a, b := Since(start, handed[i]), Since(start, handed[j]);
        assert handed[i] == Plus(start, a) && handed[j] == Plus(start, b);
        assert a != b;
      }
    }
  }

  /** The turns of a request that nobody interferes with while every host is reachable. */
  ghost function LoneTurns(start: nat, k: nat): (turns: seq<Turn>)
    requires start < USIZE && k < USIZE
    ensures |turns| == k
  {
    seq(k, i requires 0 <= i < k => Turn(if i == 0 then start else Plus(start, i - 1), {}, {}))
  }

  lemma LoneAsk(hosts: Hosts, start: nat, last: nat)
    requires start < USIZE && last < USIZE && Since(start, last) + 1 < |hosts|
    ensures var next := WrappingNext(last);
      Ask(hosts, last, Walk(Some((start, last)), [], None, false), {}, {})
      == Asked(next, Walk(Some((start, next)), [], None, false), Some(Candidate(next, true)))
  {
    assert Between(WrappingNext(last), WrappingNext(last)) == [];
  }

  /** The generator has handed out the `k` positions from `start` on and remembers none. */
  ghost predicate HandedInOrder(hosts: Hosts, turns: seq<Turn>, start: nat, k: nat)
    requires start < USIZE && 0 < k < USIZE
  {
    && Unlapped(hosts, turns) && (forall i :: 0 <= i < |turns| ==> turns[i].current < USIZE)
    && Drive(hosts, turns) == (Walk(Some((start, Plus(start, k - 1))), [], None, false), Window(start, k))
  }

  lemma LoneTurnTaken(hosts: Hosts, turns: seq<Turn>, start: nat, k: nat)
    requires start < USIZE && 0 < k < |hosts| && HandedInOrder(hosts, turns, start, k)
    ensures HandedInOrder(hosts, turns + [Turn(Plus(start, k - 1), {}, {})], start, k + 1)
  {
    TurnTaken(hosts, turns, Turn(Plus(start, k - 1), {}, {}));
    LoneAsk(hosts, start, Plus(start, k - 1));
    assert WrappingNext(Plus(start, k - 1)) == Plus(start, k);
    WindowMore(start, k);
  }

  lemma WindowMore(start: nat, k: nat)
    requires start < USIZE && k + 1 < USIZE
    ensures Window(start, k + 1) == Window(start, k) + [Plus(start, k)]
  {}

  lemma LoneTurnsMore(start: nat, k: nat)
    requires start < USIZE && 0 < k < USIZE - 1
    ensures LoneTurns(start, k + 1) == LoneTurns(start, k) + [Turn(Plus(start, k - 1), {}, {})]
  {}

  lemma LoneFirst(hosts: Hosts, start: nat)
    requires start < USIZE
    ensures HandedInOrder(hosts, [Turn(start, {}, {})], start, 1)
  {
    var turn := Turn(start, {}, {});
    FirstTurn(hosts, turn);
    assert Window(start, 1) == [start] && [turn][..0] == [];
  }

  /** Such a request is handed the positions from its first one on, one after the other. */
  lemma {:induction false} LoneRequest(hosts: Hosts, start: nat, k: nat)
    requires start < USIZE && 0 < k <= |hosts|
    ensures HandedInOrder(hosts, LoneTurns(start, k), start, k)
  {
    if k == 1 {
      LoneFirst(hosts, start);
      assert LoneTurns(start, 1) == [Turn(start, {}, {})];
    } else {
      LoneRequest(hosts, start, k - 1);
      LoneTurnTaken(hosts, LoneTurns(start, k - 1), start, k - 1);
      LoneTurnsMore(start, k - 1);
    }
  }

  /** Whatever the interference, a generator that starts at `start` hands out no entry twice, exactly when the
      counter does not wrap among the n positions from there or n divides 2^64. */
  lemma EachEntryOnce(hosts: Hosts, start: nat)
    requires start < USIZE
    ensures (forall turns: seq<Turn> :: Unlapped(hosts, turns) && turns != [] && turns[0].current == start ==>
               NoEntryTwice(hosts, Drive(hosts, turns).1))
            <==> start + |hosts| <= USIZE || USIZE % |hosts| == 0
  {
    var n := |hosts|;
    if start + n <= USIZE || USIZE % n == 0 {
      forall turns: seq<Turn> | Unlapped(hosts, turns) && turns != [] && turns[0].current == start
        ensures NoEntryTwice(hosts, Drive(hosts, turns).1)
      {
        EntriesDiffer(hosts, turns);
      }
    } else {
      WrapHandsOutTwice(hosts, start);
    }
  }

  /** Otherwise a request that nobody interferes with gets an entry twice. */
  lemma WrapHandsOutTwice(hosts: Hosts, start: nat)
    requires start < USIZE && start + |hosts| > USIZE && USIZE % |hosts| != 0
    ensures var turns := LoneTurns(start, |hosts|);
      && Unlapped(hosts, turns) && turns != [] && turns[0].current == start
      && !NoEntryTwice(hosts, Drive(hosts, turns).1)
  {
    LoneRequest(hosts, start, |hosts|);
    WindowEntriesDiffer(start, |hosts|);
    assert LoneTurns(start, |hosts|)[0].current == start;
  }
}
