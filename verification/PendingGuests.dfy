/** Placeholders for guests that are being created (ui/src/pending_guests.rs): a list that poll chains
    and removal timers change in whatever order they fire. */
module PendingGuests {
  import opened Text
  import opened Wrappers

  const MAX_POLLS: nat := 300

  datatype Key = Key(remote: string, vmid: nat)

  datatype PendingState = Creating | Done | Failed(message: string)

  datatype PendingGuest = PendingGuest(key: Key, name: string, upid: string, state: PendingState)

  /** A poll chain: the timer of its next poll is running, or (`asking`) its question is on the way. */
  datatype Chain = Chain(key: Key, upid: string, attempt: nat, asking: bool)

  /** What the question for a task's status brings back. */
  datatype Reply = Running | Exited(ok: bool, message: string) | CallFailed(message: string)

  /** The list with the chains and removal timers that will still act on it. */
  datatype View = View(list: seq<PendingGuest>, chains: seq<Chain>, timers: seq<Key>)

  function Without(list: seq<PendingGuest>, key: Key): seq<PendingGuest> {
    if list == [] then []
    else
      var k := |list| - 1;
      Without(list[..k], key) + if list[k].key == key then [] else [list[k]]
  }

  lemma {:induction false} WithoutHas(list: seq<PendingGuest>, key: Key)
    ensures forall e :: e in Without(list, key) <==> e in list && e.key != key
  {
    if list != [] {
      var k := |list| - 1;
      WithoutHas(list[..k], key);
      assert list == list[..k] + [list[k]];
    }
  }

  /** The id under which the list of resources knows the guest. */
  function GlobalId(key: Key): string { "remote/" + key.remote + "/guest/" + Decimal(key.vmid) }

  lemma GlobalIdForm(remote: string, vmid: nat)
    ensures GlobalId(Key(remote, vmid)) == "remote/" + remote + "/guest/" + Decimal(vmid)
  {}

  /** No other guest has the id, whatever the remote is called. */
  lemma GlobalIdInjective(a: Key, b: Key)
    requires GlobalId(a) == GlobalId(b)
    ensures a == b
  {
    var x, y := Decimal(a.vmid), Decimal(b.vmid);
    ValueOfDecimal(a.vmid);
    ValueOfDecimal(b.vmid);
    var p, q := "remote/" + a.remote + "/guest", "remote/" + b.remote + "/guest";
    assert GlobalId(a) == p + "/" + x && GlobalId(b) == q + "/" + y;
    LastPart(p, x, q, y);
    assert a.remote == p[7..|p| - 6] && b.remote == q[7..|q| - 6];
  }

  /** What follows the last '/' of a text is determined, and so is what precedes it. */
  lemma LastPart(p: string, x: string, q: string, y: string)
    requires p + "/" + x == q + "/" + y && '/' !in x && '/' !in y
    ensures p == q && x == y
  {
    var s, t := p + "/" + x, q + "/" + y;
    assert s[|p|] == '/' && t[|q|] == '/';
    assert p == s[..|p|] && q == t[..|q|] && x == s[|p| + 1..] && y == t[|q| + 1..];
  }

  predicate Stale(e: PendingGuest, known: set<string>) { !e.state.Creating? && GlobalId(e.key) in known }

  function Fresh(list: seq<PendingGuest>, known: set<string>): seq<PendingGuest> {
    if list == [] then []
    else
      var k := |list| - 1;
      Fresh(list[..k], known) + if Stale(list[k], known) then [] else [list[k]]
  }

  lemma {:induction false} FreshHas(list: seq<PendingGuest>, known: set<string>)
    ensures forall e :: e in Fresh(list, known) <==> e in list && !Stale(e, known)
  {
    if list != [] {
      var k := |list| - 1;
      FreshHas(list[..k], known);
      assert list == list[..k] + [list[k]];
    }
  }

  /** Pruning takes away exactly the finished placeholders of the guests that have shown up. */
  lemma PrunesExactlySeen(list: seq<PendingGuest>, seen: set<Key>, e: PendingGuest)
    ensures e in Fresh(list, set k | k in seen :: GlobalId(k)) <==> e in list && (e.state.Creating? || e.key !in seen)
  {
    var known := set k | k in seen :: GlobalId(k);
    FreshHas(list, known);
    if GlobalId(e.key) in known {
      var k :| k in seen && GlobalId(k) == GlobalId(e.key);
      GlobalIdInjective(k, e.key);
    }
  }

  /** The first entry with the key gets the state. */
  function SetState(list: seq<PendingGuest>, key: Key, state: PendingState): (r: seq<PendingGuest>)
    ensures |r| == |list|
  {
    if list == [] then []
    else if list[0].key == key then [list[0].(state := state)] + list[1..]
    else [list[0]] + SetState(list[1..], key, state)
  }

  function Dropped<T>(s: seq<T>, i: nat): (r: seq<T>)
    requires i < |s|
    ensures |r| == |s| - 1
    ensures forall j :: 0 <= j < i ==> r[j] == s[j]
    ensures forall j :: i <= j < |r| ==> r[j] == s[j + 1]
  {
    s[..i] + s[i + 1..]
  }

  datatype Op =
    | Add(guest: PendingGuest)
    | Poll(i: nat)
    | Answer(i: nat, reply: Reply)
    | Remove(i: nat)
    | Forget(key: Key)
    | Prune(known: set<string>)

  /** Whether an operation can happen: a guest is added as being created; only what is pending fires. */
  predicate Enabled(v: View, op: Op) {
    match op
    case Add(guest) => guest.state.Creating?
    case Poll(i) => i < |v.chains| && !v.chains[i].asking
    case Answer(i, _) => i < |v.chains| && v.chains[i].asking
    case Remove(i) => i < |v.timers|
    case Forget(_) => true
    case Prune(_) => true
  }

  function Finished(v: View, i: nat, state: PendingState): View
    requires i < |v.chains|
  {
    var key := v.chains[i].key;
    View(SetState(v.list, key, state), Dropped(v.chains, i), v.timers + [key])
  }

  function Repolled(v: View, i: nat): View
    requires i < |v.chains|
  {
    v.(chains := v.chains[i := v.chains[i].(attempt := v.chains[i].attempt + 1, asking := false)])
  }

  function Answered(v: View, i: nat, reply: Reply): View
    requires i < |v.chains|
  {
    var last := v.chains[i].attempt + 1 >= MAX_POLLS;
    match reply
    case Exited(ok, message) => Finished(v, i, if ok then Done else Failed(message))
    case Running =>
      if last then View(Without(v.list, v.chains[i].key), Dropped(v.chains, i), v.timers) else Repolled(v, i)
    case CallFailed(message) => if last then Finished(v, i, Failed(message)) else Repolled(v, i)
  }

  function Step(v: View, op: Op): View
    requires Enabled(v, op)
  {
    match op
    case Add(guest) =>
      View(Without(v.list, guest.key) + [guest], v.chains + [Chain(guest.key, guest.upid, 0, false)], v.timers)
    case Poll(i) => v.(chains := v.chains[i := v.chains[i].(asking := true)])
    case Answer(i, reply) => Answered(v, i, reply)
    case Remove(i) => View(Without(v.list, v.timers[i]), v.chains, Dropped(v.timers, i))
    case Forget(key) => v.(list := Without(v.list, key))
    case Prune(known) => v.(list := Fresh(v.list, known))
  }

  const EMPTY := View([], [], [])

  ghost predicate Polled(v: View, key: Key) {
    exists i :: 0 <= i < |v.chains| && v.chains[i].key == key
  }

  ghost predicate UniqueKeys(list: seq<PendingGuest>) {
    forall i, j :: 0 <= i < j < |list| ==> list[i].key != list[j].key
  }

  /** Every placeholder is looked after: one that is being created has a live poll chain for its key, a
      finished one a pending removal timer; there is one placeholder per guest, and no chain has used
      up its polls. */
  ghost predicate Inv(v: View) {
    && UniqueKeys(v.list)
    && (forall e :: e in v.list ==> if e.state.Creating? then Polled(v, e.key) else e.key in v.timers)
    && (forall i :: 0 <= i < |v.chains| ==> v.chains[i].attempt < MAX_POLLS)
  }

  lemma {:induction false} WithoutUnique(list: seq<PendingGuest>, key: Key)
    requires UniqueKeys(list)
    ensures UniqueKeys(Without(list, key))
    ensures forall e :: e in Without(list, key) <==> e in list && e.key != key
  {
    WithoutHas(list, key);
    if list != [] {
      var k := |list| - 1;
      WithoutUnique(list[..k], key);
      var rest := Without(list[..k], key);
      forall i | 0 <= i < |rest| ensures rest[i].key != list[k].key { assert rest[i] in list[..k]; }
    }
  }

  lemma {:induction false} FreshUnique(list: seq<PendingGuest>, known: set<string>)
    requires UniqueKeys(list)
    ensures UniqueKeys(Fresh(list, known))
    ensures forall e :: e in Fresh(list, known) <==> e in list && !Stale(e, known)
  {
    FreshHas(list, known);
    if list != [] {
      var k := |list| - 1;
      FreshUnique(list[..k], known);
      var rest := Fresh(list[..k], known);
      forall i | 0 <= i < |rest| ensures rest[i].key != list[k].key { assert rest[i] in list[..k]; }
    }
  }

  lemma {:induction false} SetStateAt(list: seq<PendingGuest>, key: Key, state: PendingState)
    requires UniqueKeys(list)
    ensures forall i :: 0 <= i < |list| ==>
      SetState(list, key, state)[i] == if list[i].key == key then list[i].(state := state) else list[i]
  {
    if list != [] {
      if list[0].key == key {
        assert SetState(list, key, state) == [list[0].(state := state)] + list[1..];
      } else {
        SetStateAt(list[1..], key, state);
        assert list == [list[0]] + list[1..];
      }
    }
  }

  lemma FinishedKeepsInv(v: View, i: nat, state: PendingState)
    requires Inv(v) && i < |v.chains| && !state.Creating?
    ensures Inv(Finished(v, i, state))
  {
    var key, r := v.chains[i].key, Finished(v, i, state);
    SetStateAt(v.list, key, state);
    forall e | e in r.list ensures if e.state.Creating? then Polled(r, e.key) else e.key in r.timers {
      var j :| 0 <= j < |r.list| && r.list[j] == e;
      assert v.list[j] in v.list;
      if e.key != key && e.state.Creating? { StillPolled(v, i, e.key); }
    }
  }

  /** Ending a chain does not take the chain of another key. */
  lemma StillPolled(v: View, i: nat, key: Key)
    requires i < |v.chains| && v.chains[i].key != key && Polled(v, key)
    ensures exists k :: 0 <= k < |v.chains| - 1 && Dropped(v.chains, i)[k].key == key
  {
    var j :| 0 <= j < |v.chains| && v.chains[j].key == key;
    var k := if j < i then j else j - 1;
    assert Dropped(v.chains, i)[k].key == key;
  }

  lemma ChainUpdateKeepsInv(v: View, i: nat, c: Chain)
    requires Inv(v) && i < |v.chains| && c.key == v.chains[i].key && c.attempt < MAX_POLLS
    ensures Inv(v.(chains := v.chains[i := c]))
  {
    var r := v.(chains := v.chains[i := c]);
    forall e | e in r.list && e.state.Creating? ensures Polled(r, e.key) {
      var j :| 0 <= j < |v.chains| && v.chains[j].key == e.key;
      assert r.chains[j].key == e.key;
    }
  }

  lemma GoneKeepsInv(v: View, i: nat)
    requires Inv(v) && i < |v.chains|
    ensures Inv(View(Without(v.list, v.chains[i].key), Dropped(v.chains, i), v.timers))
  {
    var key := v.chains[i].key;
    WithoutUnique(v.list, key);
    forall e | e in Without(v.list, key) && e.state.Creating?
      ensures exists k :: 0 <= k < |v.chains| - 1 && Dropped(v.chains, i)[k].key == e.key
    {
      StillPolled(v, i, e.key);
    }
  }

  lemma AddKeepsInv(v: View, guest: PendingGuest)
    requires Inv(v) && guest.state.Creating?
    ensures Inv(Step(v, Add(guest)))
  {
    var r := Step(v, Add(guest));
    WithoutUnique(v.list, guest.key);
    var kept := Without(v.list, guest.key);
    forall i | 0 <= i < |kept| ensures kept[i].key != guest.key { assert kept[i] in kept; }
    forall e | e in r.list && e.state.Creating? ensures Polled(r, e.key) {
      if e.key == guest.key {
        assert r.chains[|v.chains|].key == e.key;
      } else {
        assert e in kept;
        var j :| 0 <= j < |v.chains| && v.chains[j].key == e.key;
        assert r.chains[j].key == e.key;
      }
    }
  }

  lemma RemoveKeepsInv(v: View, i: nat)
    requires Inv(v) && i < |v.timers|
    ensures Inv(Step(v, Remove(i)))
  {
    var r := Step(v, Remove(i));
    WithoutUnique(v.list, v.timers[i]);
    forall e | e in r.list && !e.state.Creating? ensures e.key in r.timers {
      var j :| 0 <= j < |v.timers| && v.timers[j] == e.key;
      assert r.timers[if j < i then j else j - 1] == e.key;
    }
  }

  /** What every operation keeps. */
  lemma StepKeepsInv(v: View, op: Op)
    requires Inv(v) && Enabled(v, op)
    ensures Inv(Step(v, op))
  {
    match op
    case Add(guest) => AddKeepsInv(v, guest);
    case Poll(i) => ChainUpdateKeepsInv(v, i, v.chains[i].(asking := true));
    case Answer(i, reply) => AnswerKeepsInv(v, i, reply);
    case Remove(i) => RemoveKeepsInv(v, i);
    case Forget(key) => WithoutUnique(v.list, key);
    case Prune(known) => FreshUnique(v.list, known);
  }

  lemma AnswerKeepsInv(v: View, i: nat, reply: Reply)
    requires Inv(v) && i < |v.chains|
    ensures Inv(Answered(v, i, reply))
  {
    var again := v.chains[i].(attempt := v.chains[i].attempt + 1, asking := false);
    var last := v.chains[i].attempt + 1 >= MAX_POLLS;
    match reply
    case Exited(ok, message) => FinishedKeepsInv(v, i, if ok then Done else Failed(message));
    case Running => if last { GoneKeepsInv(v, i); } else { ChainUpdateKeepsInv(v, i, again); }
    case CallFailed(message) =>
      if last { FinishedKeepsInv(v, i, Failed(message)); } else { ChainUpdateKeepsInv(v, i, again); }
  }

  /** The view after the operations, if each could happen. */
  function Run(v: View, ops: seq<Op>): Option<View> {
    if ops == [] then Some(v)
    else
      match Run(v, ops[..|ops| - 1])
      case None => None
      case Some(before) => if Enabled(before, ops[|ops| - 1]) then Some(Step(before, ops[|ops| - 1])) else None
  }

  /** In every run, re-adding guests included, every placeholder is looked after. */
  lemma {:induction false} EveryPlaceholderLookedAfter(v: View, ops: seq<Op>)
    requires Inv(v) && Run(v, ops).Some?
    ensures Inv(Run(v, ops).value)
  {
    if ops != [] {
      var before := ops[..|ops| - 1];
      EveryPlaceholderLookedAfter(v, before);
      StepKeepsInv(Run(v, before).value, ops[|ops| - 1]);
    }
  }

  /** How many more timers and answers a chain can cause. */
  function ChainWeight(c: Chain): int {
    2 * (MAX_POLLS - c.attempt) + if c.asking then 0 else 1
  }

  function ChainsWeight(chains: seq<Chain>): int {
    if chains == [] then 0 else ChainsWeight(chains[..|chains| - 1]) + ChainWeight(chains[|chains| - 1])
  }

  function Measure(v: View): int { ChainsWeight(v.chains) + |v.timers| }

  lemma WeightUpdate(chains: seq<Chain>, i: nat, c: Chain)
    requires i < |chains|
    ensures ChainsWeight(chains[i := c]) == ChainsWeight(chains) - ChainWeight(chains[i]) + ChainWeight(c)
  {
    var k := |chains| - 1;
    if i == k {
      assert chains[i := c][..k] == chains[..k];
    } else {
      assert chains[i := c][..k] == chains[..k][i := c];
      WeightUpdate(chains[..k], i, c);
    }
  }

  lemma {:induction false} WeightDropped(chains: seq<Chain>, i: nat)
    requires i < |chains|
    ensures ChainsWeight(Dropped(chains, i)) == ChainsWeight(chains) - ChainWeight(chains[i])
  {
    var k := |chains| - 1;
    if i == k {
      assert Dropped(chains, i) == chains[..k];
    } else {
      var dropped := Dropped(chains, i);
      assert dropped == Dropped(chains[..k], i) + [chains[k]];
      assert dropped[..|dropped| - 1] == Dropped(chains[..k], i);
      WeightDropped(chains[..k], i);
    }
  }

  lemma WeightPositive(chains: seq<Chain>)
    requires forall i :: 0 <= i < |chains| ==> chains[i].attempt < MAX_POLLS
    ensures ChainsWeight(chains) >= 2 * |chains|
  {
    if chains != [] { WeightPositive(chains[..|chains| - 1]); }
  }

  predicate Fires(op: Op) { op.Poll? || op.Answer? || op.Remove? }

  /** Every firing uses up some of the measure, and only adding a guest raises it. */
  lemma StepMeasure(v: View, op: Op)
    requires Inv(v) && Enabled(v, op) && !op.Add?
    ensures Measure(Step(v, op)) <= Measure(v) - if Fires(op) then 1 else 0
  {
    match op
    case Poll(i) => WeightUpdate(v.chains, i, v.chains[i].(asking := true));
    case Answer(i, reply) => AnswerMeasure(v, i, reply);
    case _ =>
  }

  lemma AnswerMeasure(v: View, i: nat, reply: Reply)
    requires Inv(v) && i < |v.chains| && v.chains[i].asking
    ensures Measure(Answered(v, i, reply)) < Measure(v)
  {
    WeightUpdate(v.chains, i, v.chains[i].(attempt := v.chains[i].attempt + 1, asking := false));
    WeightDropped(v.chains, i);
  }

  function Firings(ops: seq<Op>): nat {
    if ops == [] then 0 else Firings(ops[..|ops| - 1]) + if Fires(ops[|ops| - 1]) then 1 else 0
  }

  ghost predicate NoAdds(ops: seq<Op>) { forall i :: 0 <= i < |ops| ==> !ops[i].Add? }

  lemma {:induction false} RunMeasure(v: View, ops: seq<Op>)
    requires Inv(v) && Run(v, ops).Some? && NoAdds(ops)
    ensures Measure(Run(v, ops).value) + Firings(ops) <= Measure(v)
  {
    if ops != [] {
      var before := ops[..|ops| - 1];
      RunMeasure(v, before);
      EveryPlaceholderLookedAfter(v, before);
      StepMeasure(Run(v, before).value, ops[|ops| - 1]);
    }
  }

  /** Once no more guests are added, timers and answers can fire only so often; one of them can as long as a
      chain or a timer is left; and when none can any more, the list is empty. */
  lemma EveryPlaceholderLeaves(v: View, ops: seq<Op>)
    requires Inv(v) && Run(v, ops).Some? && NoAdds(ops)
    ensures Firings(ops) <= Measure(v)
    ensures var r := Run(v, ops).value;
      && ((exists op :: Fires(op) && Enabled(r, op)) <==> r.chains != [] || r.timers != [])
      && ((forall op :: Fires(op) ==> !Enabled(r, op)) ==> r.list == [])
  {
    RunMeasure(v, ops);
    EveryPlaceholderLookedAfter(v, ops);
    var r := Run(v, ops).value;
    WeightPositive(r.chains);
    SomethingFires(r);
    if r.list != [] { ListedIsPending(r); }
  }

  lemma SomethingFires(v: View)
    ensures (exists op :: Fires(op) && Enabled(v, op)) <==> v.chains != [] || v.timers != []
  {
    if v.chains != [] {
      var op := if v.chains[0].asking then Answer(0, Running) else Poll(0);
      assert Fires(op) && Enabled(v, op);
    } else if v.timers != [] {
      assert Fires(Remove(0)) && Enabled(v, Remove(0));
    }
  }

  lemma ListedIsPending(v: View)
    requires Inv(v) && v.list != []
    ensures v.chains != [] || v.timers != []
  {
    assert v.list[0] in v.list;
  }

  /** Nothing from an earlier placeholder of the same guest is pending. */
  ghost predicate Clean(v: View, key: Key) {
    (forall i :: 0 <= i < |v.chains| ==> v.chains[i].key != key) && key !in v.timers
  }

  /** The guest is neither added again nor forgotten. */
  ghost predicate LeavesAlone(ops: seq<Op>, key: Key) {
    forall i :: 0 <= i < |ops| ==> ops[i] != Forget(key) && (ops[i].Add? ==> ops[i].guest.key != key)
  }

  /** A chain of the guest's own task is pending. */
  ghost predicate OwnPolled(v: View, guest: PendingGuest) {
    exists i :: 0 <= i < |v.chains| && v.chains[i].key == guest.key && v.chains[i].upid == guest.upid
  }

  /** As long as a chain of its own task is pending, a guest just added stays in the list as being created. */
  ghost predicate StaysUntilAnswered(v: View, guest: PendingGuest)
    requires guest.state.Creating?
  {
    forall ops :: LeavesAlone(ops, guest.key) && Run(Step(v, Add(guest)), ops).Some?
                  && OwnPolled(Run(Step(v, Add(guest)), ops).value, guest)
                  ==> guest in Run(Step(v, Add(guest)), ops).value.list
  }

  /** One chain alone speaks for the guest, or none any more. */
  ghost predicate OwnChain(v: View, guest: PendingGuest) {
    Polled(v, guest.key) ==>
      && guest in v.list
      && guest.key !in v.timers
      && AtMostOne(v.chains, guest.key)
  }

  ghost predicate AtMostOne(chains: seq<Chain>, key: Key) {
    forall i, j :: 0 <= i < j < |chains| ==> chains[i].key != key || chains[j].key != key
  }

  lemma DroppedOther(chains: seq<Chain>, i: nat, key: Key, k: nat)
    requires AtMostOne(chains, key) && i < |chains| && k < |chains| - 1 && Dropped(chains, i)[k].key == key
    ensures chains[i].key != key && AtMostOne(Dropped(chains, i), key)
  {
    assert chains[if k < i then k else k + 1].key == key;
  }

  lemma StepKeepsOwnChain(v: View, guest: PendingGuest, op: Op)
    requires Inv(v) && OwnChain(v, guest) && guest.state.Creating? && Enabled(v, op)
    requires op != Forget(guest.key) && (op.Add? ==> op.guest.key != guest.key)
    ensures OwnChain(Step(v, op), guest)
  {
    var r := Step(v, op);
    if Polled(r, guest.key) {
      match op
      case Answer(i, reply) => AnswerKeepsOwnChain(v, guest, i, reply);
      case _ =>
        var k :| 0 <= k < |r.chains| && r.chains[k].key == guest.key;
        assert v.chains[k].key == guest.key;
        StaysListed(v, guest, op);
    }
  }

  /** Only an operation on its own key, or an answer, takes a creating placeholder off the list. */
  lemma StaysListed(v: View, guest: PendingGuest, op: Op)
    requires guest in v.list && guest.state.Creating? && guest.key !in v.timers && Enabled(v, op) && !op.Answer?
    requires op != Forget(guest.key) && (op.Add? ==> op.guest.key != guest.key)
    ensures guest in Step(v, op).list
  {
    match op
    case Add(other) => WithoutHas(v.list, other.key);
    case Remove(i) => WithoutHas(v.list, v.timers[i]);
    case Forget(key) => WithoutHas(v.list, key);
    case Prune(known) => FreshHas(v.list, known);
    case _ =>
  }

  lemma AnswerKeepsOwnChain(v: View, guest: PendingGuest, i: nat, reply: Reply)
    requires Inv(v) && OwnChain(v, guest) && i < |v.chains|
    ensures OwnChain(Answered(v, i, reply), guest)
  {
    var r := Answered(v, i, reply);
    if Polled(r, guest.key) {
      var k :| 0 <= k < |r.chains| && r.chains[k].key == guest.key;
      if |r.chains| < |v.chains| {
        assert r.chains == Dropped(v.chains, i);
        assert v.chains[if k < i then k else k + 1].key == guest.key;
        DroppedOther(v.chains, i, guest.key, k);
        OtherAnswered(v, guest, i, reply);
      } else {
        assert v.chains[k].key == guest.key;
      }
    }
  }

  /** The answer of another guest's chain does not touch this guest. */
  lemma OtherAnswered(v: View, guest: PendingGuest, i: nat, reply: Reply)
    requires Inv(v) && guest in v.list && i < |v.chains| && v.chains[i].key != guest.key
    ensures guest in Answered(v, i, reply).list
  {
    var j :| 0 <= j < |v.list| && v.list[j] == guest;
    forall state { SetStateAt(v.list, v.chains[i].key, state); }
    WithoutHas(v.list, v.chains[i].key);
    if Answered(v, i, reply).list != v.list && !(reply.Running?) {
      assert Answered(v, i, reply).list[j] == guest;
    }
  }

  lemma {:induction false} RunKeepsOwnChain(v: View, guest: PendingGuest, ops: seq<Op>)
    requires Inv(v) && OwnChain(v, guest) && guest.state.Creating? && LeavesAlone(ops, guest.key) && Run(v, ops).Some?
    ensures OwnChain(Run(v, ops).value, guest)
  {
    if ops != [] {
      var before := ops[..|ops| - 1];
      RunKeepsOwnChain(v, guest, before);
      EveryPlaceholderLookedAfter(v, before);
      StepKeepsOwnChain(Run(v, before).value, guest, ops[|ops| - 1]);
    }
  }

  lemma AddedToClean(v: View, guest: PendingGuest)
    requires Clean(v, guest.key) && guest.state.Creating?
    ensures OwnChain(Step(v, Add(guest)), guest)
  {
    var r := Step(v, Add(guest));
    assert r.list[|r.list| - 1] == guest;
  }

  lemma RunOne(v: View, op: Op)
    requires Enabled(v, op)
    ensures Run(v, [op]) == Some(Step(v, op))
  {
    assert [op][..0] == [] && Run(v, []) == Some(v);
  }

  lemma RunTwo(v: View, a: Op, b: Op)
    requires Enabled(v, a) && Enabled(Step(v, a), b)
    ensures Run(v, [a, b]) == Some(Step(Step(v, a), b))
  {
    RunOne(v, a);
    assert [a, b][..1] == [a];
  }

  /** A removal timer left over takes the new placeholder away while its own task is running. */
  lemma LeftoverTimerBreaks(v: View, guest: PendingGuest)
    requires guest.state.Creating? && guest.key in v.timers
    ensures !StaysUntilAnswered(v, guest)
  {
    var i :| 0 <= i < |v.timers| && v.timers[i] == guest.key;
    var added := Step(v, Add(guest));
    RunOne(added, Remove(i));
    var r := Step(added, Remove(i));
    WithoutHas(added.list, guest.key);
    assert r.chains[|v.chains|].key == guest.key;
    assert LeavesAlone([Remove(i)], guest.key) && OwnPolled(r, guest) && guest !in r.list;
  }

  /** A chain left over marks the new placeholder as done while its own task is running. */
  lemma LeftoverChainBreaks(v: View, guest: PendingGuest, i: nat)
    requires Inv(v) && guest.state.Creating? && i < |v.chains| && v.chains[i].key == guest.key
    ensures !StaysUntilAnswered(v, guest)
  {
    var added, answer := Step(v, Add(guest)), Answer(i, Exited(true, ""));
    AddKeepsInv(v, guest);
    if v.chains[i].asking {
      RunOne(added, answer);
      OtherAnswerMarks(added, guest, i);
      assert LeavesAlone([answer], guest.key);
    } else {
      StepKeepsInv(added, Poll(i));
      RunTwo(added, Poll(i), answer);
      OtherAnswerMarks(Step(added, Poll(i)), guest, i);
      assert LeavesAlone([Poll(i), answer], guest.key);
    }
  }

  /** A second chain for the same guest reports success: the placeholder is marked while still polled. */
  lemma OtherAnswerMarks(v: View, guest: PendingGuest, i: nat)
    requires Inv(v) && guest.state.Creating? && i < |v.chains| - 1 && v.chains[i].key == guest.key
    requires v.chains[i].asking
    requires v.chains[|v.chains| - 1].key == guest.key && v.chains[|v.chains| - 1].upid == guest.upid
    ensures var r := Step(v, Answer(i, Exited(true, "")));
      guest !in r.list && OwnPolled(r, guest)
  {
    var r := Step(v, Answer(i, Exited(true, "")));
    SetStateAt(v.list, guest.key, Done);
    forall j | 0 <= j < |r.list| ensures r.list[j] != guest {}
    assert r.chains[|v.chains| - 2].key == guest.key;
  }

  lemma RunMore(v: View, ops: seq<Op>, op: Op)
    requires Run(v, ops).Some? && Enabled(Run(v, ops).value, op)
    ensures Run(v, ops + [op]) == Some(Step(Run(v, ops).value, op))
  {
    assert (ops + [op])[..|ops|] == ops;
  }

  /** From an empty list: a guest is created and finishes, is deleted and created again, and the first
      placeholder's timer removes the second one while its own chain is pending. */
  lemma ReaddedIsRemoved(key: Key, name: string, first: string, second: string)
    ensures Run(EMPTY, [Add(PendingGuest(key, name, first, Creating)), Poll(0), Answer(0, Exited(true, "")),
                        Add(PendingGuest(key, name, second, Creating)), Remove(0)])
            == Some(View([], [Chain(key, second, 0, false)], []))
  {
    var one, two := PendingGuest(key, name, first, Creating), PendingGuest(key, name, second, Creating);
    var added := View([one], [Chain(key, first, 0, false)], []);
    var asked := View([one], [Chain(key, first, 0, true)], []);
    var done := View([one.(state := Done)], [], [key]);
    var again := View([two], [Chain(key, second, 0, false)], [key]);
    assert Step(EMPTY, Add(one)) == added && Step(added, Poll(0)) == asked;
    RunTwo(EMPTY, Add(one), Poll(0));
    assert Step(asked, Answer(0, Exited(true, ""))) == done;
    RunMore(EMPTY, [Add(one), Poll(0)], Answer(0, Exited(true, "")));
    WithoutOne(one.(state := Done));
    assert Step(done, Add(two)) == again;
    RunMore(EMPTY, [Add(one), Poll(0)] + [Answer(0, Exited(true, ""))], Add(two));
    WithoutOne(two);
    assert Step(again, Remove(0)) == View([], [Chain(key, second, 0, false)], []);
    var ops := [Add(one), Poll(0)] + [Answer(0, Exited(true, ""))] + [Add(two)];
    RunMore(EMPTY, ops, Remove(0));
    assert ops + [Remove(0)] == [Add(one), Poll(0), Answer(0, Exited(true, "")), Add(two), Remove(0)];
  }

  lemma WithoutOne(e: PendingGuest)
    ensures Without([e], e.key) == []
  {
    assert [e][..0] == [];
  }

  /** A placeholder stands for its own task exactly when nothing is left over from an earlier placeholder
      of the same guest at the moment it is added. */
  lemma StandsForItsOwnTask(v: View, guest: PendingGuest)
    requires Inv(v) && guest.state.Creating?
    ensures StaysUntilAnswered(v, guest) <==> Clean(v, guest.key)
  {
    if Clean(v, guest.key) {
      AddKeepsInv(v, guest);
      AddedToClean(v, guest);
      var added := Step(v, Add(guest));
      forall ops | LeavesAlone(ops, guest.key) && Run(added, ops).Some? && OwnPolled(Run(added, ops).value, guest)
        ensures guest in Run(added, ops).value.list
      {
        RunKeepsOwnChain(added, guest, ops);
      }
    } else if guest.key in v.timers {
      LeftoverTimerBreaks(v, guest);
    } else {
      var i :| 0 <= i < |v.chains| && v.chains[i].key == guest.key;
      LeftoverChainBreaks(v, guest, i);
    }
  }

  lemma {:induction false} SetStateFirst(list: seq<PendingGuest>, i: nat, key: Key, state: PendingState)
    requires i < |list| && list[i].key == key && forall k :: 0 <= k < i ==> list[k].key != key
    ensures SetState(list, key, state) == list[i := list[i].(state := state)]
  {
    if i > 0 { SetStateFirst(list[1..], i - 1, key, state); }
  }

  lemma {:induction false} SetStateNone(list: seq<PendingGuest>, key: Key, state: PendingState)
    requires forall k :: 0 <= k < |list| ==> list[k].key != key
    ensures SetState(list, key, state) == list
  {
    if list != [] { SetStateNone(list[1..], key, state); }
  }

  /** The shared list, with the timers scheduled on it. */
  class PendingGuests {
    var list: seq<PendingGuest>
    var chains: seq<Chain>
    var timers: seq<Key>

    function Now(): View reads this { View(list, chains, timers) }

    constructor ()
      ensures Now() == EMPTY && Inv(Now())
    {
      list, chains, timers := [], [], [];
    }

    method AddGuest(pending: PendingGuest)
      requires Inv(Now()) && pending.state.Creating?
      modifies this
      ensures Now() == Step(old(Now()), Add(pending)) && Inv(Now())
    {
      AddKeepsInv(Now(), pending);
      Drop(pending.key);
      list := list + [pending];
      chains := chains + [Chain(pending.key, pending.upid, 0, false)];
    }

    /** `retain` everything but the given guest. */
    method Drop(key: Key)
      modifies this`list
      ensures list == Without(old(list), key)
    {
      var kept := [];
      for i := 0 to |list|
        invariant kept == Without(list[..i], key)
      {
        assert list[..i + 1][..i] == list[..i];
        if list[i].key != key { kept := kept + [list[i]]; }
      }
      assert list[..|list|] == list;
      list := kept;
    }

    method ForgetGuest(key: Key)
      requires Inv(Now())
      modifies this`list
      ensures Now() == Step(old(Now()), Forget(key)) && Inv(Now())
    {
      StepKeepsInv(Now(), Forget(key));
      if forall e | e in list :: e.key != key {
        WithoutNothing(list, key);
        return;
      }
      Drop(key);
    }

    method PruneSeen(known: set<string>)
      requires Inv(Now())
      modifies this`list
      ensures Now() == Step(old(Now()), Prune(known)) && Inv(Now())
    {
      StepKeepsInv(Now(), Prune(known));
      if forall e | e in list :: !Stale(e, known) {
        FreshAll(list, known);
        return;
      }
      DropStale(known);
    }

    /** `retain` everything that is not stale. */
    method DropStale(known: set<string>)
      modifies this`list
      ensures list == Fresh(old(list), known)
    {
      var kept := [];
      for i := 0 to |list|
        invariant kept == Fresh(list[..i], known)
      {
        assert list[..i + 1][..i] == list[..i];
        if !Stale(list[i], known) { kept := kept + [list[i]]; }
      }
      assert list[..|list|] == list;
      list := kept;
    }

    method Mark(key: Key, state: PendingState)
      modifies this`list
      ensures list == SetState(old(list), key, state)
    {
      for i := 0 to |list|
        invariant list == old(list)
        invariant forall k :: 0 <= k < i ==> list[k].key != key
      {
        if list[i].key == key {
          SetStateFirst(list, i, key, state);
          list := list[i := list[i].(state := state)];
          return;
        }
      }
      SetStateNone(list, key, state);
    }

    method Finish(i: nat, state: PendingState)
      requires i < |chains|
      modifies this
      ensures Now() == Finished(old(Now()), i, state)
    {
      var key := chains[i].key;
      Mark(key, state);
      chains := chains[..i] + chains[i + 1..];
      timers := timers + [key];
    }

    method TimerFires(i: nat)
      requires Inv(Now()) && Enabled(Now(), Poll(i))
      modifies this
      ensures Now() == Step(old(Now()), Poll(i)) && Inv(Now())
    {
      StepKeepsInv(Now(), Poll(i));
      chains := chains[i := chains[i].(asking := true)];
    }

    method AnswerArrives(i: nat, reply: Reply)
      requires Inv(Now()) && Enabled(Now(), Answer(i, reply))
      modifies this
      ensures Now() == Step(old(Now()), Answer(i, reply)) && Inv(Now())
    {
      AnswerKeepsInv(Now(), i, reply);
      var chain := chains[i];
      match reply
      case Exited(true, _) => Finish(i, Done);
      case Exited(false, message) => Finish(i, Failed(message));
      case Running =>
        if chain.attempt + 1 >= MAX_POLLS {
          Drop(chain.key);
          chains := chains[..i] + chains[i + 1..];
        } else {
          chains := chains[i := chain.(attempt := chain.attempt + 1, asking := false)];
        }
      case CallFailed(message) =>
        if chain.attempt + 1 < MAX_POLLS {
          chains := chains[i := chain.(attempt := chain.attempt + 1, asking := false)];
        } else {
          Finish(i, Failed(message));
        }
    }

    method RemovalFires(i: nat)
      requires Inv(Now()) && Enabled(Now(), Remove(i))
      modifies this
      ensures Now() == Step(old(Now()), Remove(i)) && Inv(Now())
    {
      RemoveKeepsInv(Now(), i);
      Drop(timers[i]);
      timers := timers[..i] + timers[i + 1..];
    }
  }

  lemma {:induction false} WithoutNothing(list: seq<PendingGuest>, key: Key)
    requires forall k :: 0 <= k < |list| ==> list[k].key != key
    ensures Without(list, key) == list
  {
    if list != [] {
      var k := |list| - 1;
      WithoutNothing(list[..k], key);
      assert list == list[..k] + [list[k]];
    }
  }

  lemma {:induction false} FreshAll(list: seq<PendingGuest>, known: set<string>)
    requires forall k :: 0 <= k < |list| ==> !Stale(list[k], known)
    ensures Fresh(list, known) == list
  {
    if list != [] {
      var k := |list| - 1;
      FreshAll(list[..k], known);
      assert list == list[..k] + [list[k]];
    }
  }
}
