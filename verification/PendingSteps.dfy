/** What each operation on the placeholders has to do, and how a placeholder got the state it shows
    (ui/src/pending_guests.rs). */
module PendingSteps {
  import opened Ordering
  import opened PendingGuests
  import opened Wrappers

  /** `r` is `list` without the entries that are not to be kept, in the same order. */
  ghost predicate Filtered(list: seq<PendingGuest>, keep: PendingGuest -> bool, r: seq<PendingGuest>) {
    exists from: seq<nat> :: IsFilter(list, keep, r, from)
  }

  ghost predicate IsFilter(list: seq<PendingGuest>, keep: PendingGuest -> bool, r: seq<PendingGuest>, from: seq<nat>) {
    && Ascending(from) && |from| == |r|
    && (forall i :: 0 <= i < |r| ==> from[i] < |list| && r[i] == list[from[i]])
    && forall j: nat :: j < |list| ==> (j in from <==> keep(list[j]))
  }

  /** `r` is `s` without its element at `i`. */
  ghost predicate TakesOut<T>(s: seq<T>, i: nat, r: seq<T>) {
    i < |s| && |r| == |s| - 1 && forall j :: 0 <= j < |r| ==> r[j] == if j < i then s[j] else s[j + 1]
  }

  /** The state an answer that ends a chain gives the placeholder; none if it is to be removed. */
  function StateFor(reply: Reply): Option<PendingState> {
    match reply
    case Exited(ok, message) => Some(if ok then Done else Failed(message))
    case CallFailed(message) => Some(Failed(message))
    case Running => None
  }

  /** An answer ends its chain if it has an exit status or this was the 300th poll. Then the placeholder gets the
      state the answer stands for and a timer, or is removed; else the chain polls again. */
  ghost predicate AnswerMeans(v: View, i: nat, reply: Reply, r: View)
    requires i < |v.chains|
  {
    var c := v.chains[i];
    if !reply.Exited? && c.attempt + 1 < 300 then
      r == View(v.list, v.chains[i := Chain(c.key, c.upid, c.attempt + 1, false)], v.timers)
    else
      && TakesOut(v.chains, i, r.chains)
      && match StateFor(reply)
         case None => r.timers == v.timers && Filtered(v.list, (e: PendingGuest) => e.key != c.key, r.list)
         case Some(state) => r.timers == v.timers + [c.key] && Marked(v.list, c.key, state, r.list)
  }

  /** Exactly the entries of one guest get a state. */
  ghost predicate Marked(list: seq<PendingGuest>, key: Key, state: PendingState, r: seq<PendingGuest>) {
    && |r| == |list|
    && forall j :: 0 <= j < |list| ==>
      r[j] == if list[j].key == key then PendingGuest(key, list[j].name, list[j].upid, state) else list[j]
  }

  ghost predicate StepMeans(v: View, op: Op, r: View)
    requires Enabled(v, op)
  {
    match op
    case Add(guest) =>
      && r.list != [] && r.list[|r.list| - 1] == guest
      && Filtered(v.list, (e: PendingGuest) => e.key != guest.key, r.list[..|r.list| - 1])
      && r.chains == v.chains + [Chain(guest.key, guest.upid, 0, false)] && r.timers == v.timers
    case Poll(i) =>
      r == View(v.list, v.chains[i := Chain(v.chains[i].key, v.chains[i].upid, v.chains[i].attempt, true)], v.timers)
    case Answer(i, reply) => AnswerMeans(v, i, reply, r)
    case Remove(i) =>
      && Filtered(v.list, (e: PendingGuest) => e.key != v.timers[i], r.list)
      && r.chains == v.chains && TakesOut(v.timers, i, r.timers)
    case Forget(key) =>
      Filtered(v.list, (e: PendingGuest) => e.key != key, r.list) && r.chains == v.chains && r.timers == v.timers
    case Prune(known) =>
      && Filtered(v.list, (e: PendingGuest) => e.state.Creating? || GlobalId(e.key) !in known, r.list)
      && r.chains == v.chains && r.timers == v.timers
  }

  lemma {:induction false} WithoutFilters(list: seq<PendingGuest>, key: Key) returns (from: seq<nat>)
    ensures IsFilter(list, (e: PendingGuest) => e.key != key, Without(list, key), from)
  {
    from := [];
    if list != [] {
      var k := |list| - 1;
      from := WithoutFilters(list[..k], key);
      from := FilterGrows(list, (e: PendingGuest) => e.key != key, Without(list[..k], key), from);
    }
  }

  lemma {:induction false} FreshFilters(list: seq<PendingGuest>, known: set<string>) returns (from: seq<nat>)
    ensures IsFilter(list, (e: PendingGuest) => e.state.Creating? || GlobalId(e.key) !in known, Fresh(list, known),
                     from)
  {
    from := [];
    if list != [] {
      var k := |list| - 1;
      from := FreshFilters(list[..k], known);
      from := FilterGrows(list, (e: PendingGuest) => e.state.Creating? || GlobalId(e.key) !in known,
                          Fresh(list[..k], known), from);
    }
  }

  lemma FilterGrows(list: seq<PendingGuest>, keep: PendingGuest -> bool, r: seq<PendingGuest>, before: seq<nat>)
    returns (from: seq<nat>)
    requires list != [] && IsFilter(list[..|list| - 1], keep, r, before)
    ensures var last := list[|list| - 1];
      IsFilter(list, keep, r + if keep(last) then [last] else [], from)
  {
    var k: nat := |list| - 1;
    assert forall j :: 0 <= j < k ==> list[..k][j] == list[j];
    if keep(list[k]) {
      from := before + [k];
      KeepLast(list, keep, r, before);
    } else {
      from := before;
      assert r + [] == r;
    }
  }

  lemma KeepLast(list: seq<PendingGuest>, keep: PendingGuest -> bool, r: seq<PendingGuest>, before: seq<nat>)
    requires list != [] && IsFilter(list[..|list| - 1], keep, r, before) && keep(list[|list| - 1])
    ensures IsFilter(list, keep, r + [list[|list| - 1]], before + [|list| - 1])
  {
    var k: nat := |list| - 1;
    var from := before + [k];
    assert forall j :: 0 <= j < k ==> list[..k][j] == list[j];
    assert forall j: nat :: j in from <==> j in before || j == k;
  }

  lemma AnswerDoes(v: View, i: nat, reply: Reply)
    requires Inv(v) && i < |v.chains|
    ensures AnswerMeans(v, i, reply, Answered(v, i, reply))
  {
    var c := v.chains[i];
    var from := WithoutFilters(v.list, c.key);
    match StateFor(reply)
    case Some(state) => SetStateAt(v.list, c.key, state);
    case None =>
  }

  lemma StepDoes(v: View, op: Op)
    requires Inv(v) && Enabled(v, op)
    ensures StepMeans(v, op, Step(v, op))
  {
    match op
    case Add(guest) => {
      var from := WithoutFilters(v.list, guest.key);
      assert (Without(v.list, guest.key) + [guest])[..|Without(v.list, guest.key)|] == Without(v.list, guest.key);
    }
    case Answer(i, reply) => AnswerDoes(v, i, reply);
    case Remove(i) => { var from := WithoutFilters(v.list, v.timers[i]); }
    case Forget(key) => { var from := WithoutFilters(v.list, key); }
    case Prune(known) => { var from := FreshFilters(v.list, known); }
    case _ =>
  }

  /** The last operation of a run answers a chain of the key, ends it, and stands for the state. */
  ghost predicate GivesState(v: View, op: Op, key: Key, state: PendingState) {
    && op.Answer? && op.i < |v.chains| && v.chains[op.i].key == key
    && match op.reply
       case Exited(true, _) => state == Done
       case Exited(false, message) => state == Failed(message)
       case CallFailed(message) => v.chains[op.i].attempt + 1 >= 300 && state == Failed(message)
       case Running => false
  }

  /** At operation `k` of a run a chain of the key was answered with what the state stands for, and the guest was
      not added again since. */
  ghost predicate GotState(ops: seq<Op>, k: nat, key: Key, state: PendingState) {
    && k < |ops| && Run(EMPTY, ops[..k]).Some?
    && GivesState(Run(EMPTY, ops[..k]).value, ops[k], key, state)
    && forall j :: k < j < |ops| ==> ops[j].Add? ==> ops[j].guest.key != key
  }

  lemma GotStateStays(ops: seq<Op>, k: nat, key: Key, state: PendingState)
    requires ops != [] && GotState(ops[..|ops| - 1], k, key, state)
    requires ops[|ops| - 1].Add? ==> ops[|ops| - 1].guest.key != key
    ensures GotState(ops, k, key, state)
  {
    var before := ops[..|ops| - 1];
    assert before[..k] == ops[..k] && forall j :: 0 <= j < |before| ==> before[j] == ops[j];
  }

  /** Where an entry of the list comes from. */
  lemma EntryFrom(v: View, op: Op, e: PendingGuest)
    requires Inv(v) && Enabled(v, op) && e in Step(v, op).list && !e.state.Creating?
    ensures GivesState(v, op, e.key, e.state) || (e in v.list && (op.Add? ==> op.guest.key != e.key))
  {
    match op
    case Add(guest) => WithoutHas(v.list, guest.key);
    case Remove(i) => WithoutHas(v.list, v.timers[i]);
    case Forget(key) => WithoutHas(v.list, key);
    case Prune(known) => FreshHas(v.list, known);
    case Answer(i, reply) => AnsweredEntryFrom(v, i, reply, e);
    case _ =>
  }

  lemma AnsweredEntryFrom(v: View, i: nat, reply: Reply, e: PendingGuest)
    requires Inv(v) && i < |v.chains| && e in Answered(v, i, reply).list
    ensures GivesState(v, Answer(i, reply), e.key, e.state) || e in v.list
  {
    AnswerDoes(v, i, reply);
    WithoutHas(v.list, v.chains[i].key);
    var list := Answered(v, i, reply).list;
    var j :| 0 <= j < |list| && list[j] == e;
    if e !in v.list { assert StateFor(reply) == Some(e.state); }
  }

  /** In every run a placeholder is done only if a chain of its guest was answered with success since it was
      added, and failed with a message only if one was answered with that exit status, or the question failed
      with it at the 300th poll. */
  lemma {:induction false} FinishedWasAnswered(ops: seq<Op>, e: PendingGuest) returns (k: nat)
    requires Run(EMPTY, ops).Some? && e in Run(EMPTY, ops).value.list && !e.state.Creating?
    ensures GotState(ops, k, e.key, e.state)
  {
    var t := |ops| - 1;
    EveryPlaceholderLookedAfter(EMPTY, ops[..t]);
    var v := Run(EMPTY, ops[..t]).value;
    EntryFrom(v, ops[t], e);
    if GivesState(v, ops[t], e.key, e.state) {
      k := t;
    } else {
      k := FinishedWasAnswered(ops[..t], e);
      GotStateStays(ops, k, e.key, e.state);
    }
  }
}
