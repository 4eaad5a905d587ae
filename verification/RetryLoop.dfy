/** The retry loop around the generator: when a request is sent again and what is returned
    (the `try_request!` macro of server/src/connection.rs). */
module RetryLoop {
  import opened Machine
  import opened MultiClient
  import opened Ordering
  import opened WalkRuns
  import opened Wrappers
  import FailoverRuns

  /** How one send ends. `Answered` is every result that is neither a connection failure nor an
      error after connecting, whether the answer is a success or an API error. */
  datatype Outcome = ConnectError | ClientError | TimedOut | Answered(ok: bool)

  datatype Send = Send(at: nat, outcome: Outcome)

  datatype Reply = Response(outcome: Outcome) | GaveUpTimedOut | GaveUpUnknown | RemoteBackingOff

  /** A candidate of the generator: whether its host is in back-off, and how a send to it ends. */
  datatype Attempt = Attempt(at: nat, backingOff: bool, outcome: Outcome)

  /** The loop's variables; `reply` is set once the loop has returned. */
  datatype Loop = Loop(
    lastErr: Option<Outcome>,
    timedOut: bool,
    connectRetry: Option<nat>,
    first: bool,
    sends: seq<Send>,
    reply: Option<Reply>)

  const NEW_LOOP := Loop(None, false, None, true, [], None)

  function Try(idempotent: bool, l: Loop, a: Attempt): Loop {
    if l.reply.Some? || a.backingOff then l
    else
      var sent := l.(lastErr := None, timedOut := false, sends := l.sends + [Send(a.at, a.outcome)]);
      match a.outcome
      case ConnectError =>
        sent.(lastErr := Some(ConnectError), first := false,
              connectRetry := if l.first then Some(a.at) else l.connectRetry)
      case ClientError =>
        if idempotent then sent.(lastErr := Some(ClientError), first := false)
        else sent.(reply := Some(Response(ClientError)))
      case Answered(_) => sent.(reply := Some(Response(a.outcome)))
      case TimedOut => sent.(timedOut := true, first := false)
  }

  function TryAll(idempotent: bool, attempts: seq<Attempt>): Loop {
    if attempts == [] then NEW_LOOP
    else Try(idempotent, TryAll(idempotent, attempts[..|attempts| - 1]), attempts[|attempts| - 1])
  }

  function GiveUp(l: Loop): Reply {
    if l.lastErr.Some? then Response(l.lastErr.value)
    else if l.timedOut then GaveUpTimedOut
    else GaveUpUnknown
  }

  /** The end of the loop: one more send to the first endpoint if it could not be connected to. */
  function Conclude(l: Loop, again: Outcome): (Reply, seq<Send>) {
    if l.reply.Some? then (l.reply.value, l.sends)
    else if l.connectRetry.Some? then
      (if again.TimedOut? then GiveUp(l) else Response(again), l.sends + [Send(l.connectRetry.value, again)])
    else (GiveUp(l), l.sends)
  }

  function Request(idempotent: bool, attempts: seq<Attempt>, again: Outcome): (Reply, seq<Send>) {
    Conclude(TryAll(idempotent, attempts), again)
  }

  /** A send after which the loop goes on. */
  predicate Resends(idempotent: bool, outcome: Outcome) {
    outcome.ConnectError? || outcome.TimedOut? || (outcome.ClientError? && idempotent)
  }

  /** The sends are attempts on hosts that were not in back-off, and nothing is sent only if all were. */
  ghost predicate SendsInv(attempts: seq<Attempt>, l: Loop) {
    && |l.sends| <= |attempts|
    && (forall i :: 0 <= i < |l.sends| ==> Attempt(l.sends[i].at, false, l.sends[i].outcome) in attempts)
    && (l.sends == [] <==> forall i :: 0 <= i < |attempts| ==> attempts[i].backingOff)
  }

  /** How the loop's variables reflect its sends. */
  ghost predicate LoopInv(idempotent: bool, l: Loop) {
    && (forall i :: 0 <= i < |l.sends| - 1 ==> Resends(idempotent, l.sends[i].outcome))
    && (l.connectRetry.Some? ==>
          l.sends != [] && l.sends[0] == Send(l.connectRetry.value, ConnectError))
    && (l.reply.Some? ==>
          l.sends != [] && var last := l.sends[|l.sends| - 1].outcome;
          !Resends(idempotent, last) && l.reply.value == Response(last))
    && (l.reply.None? ==>
          && (l.first <==> l.sends == [])
          && (l.sends == [] ==> l == NEW_LOOP)
          && (l.sends != [] ==>
                var last := l.sends[|l.sends| - 1].outcome;
                && Resends(idempotent, last)
                && l.timedOut == last.TimedOut?
                && l.lastErr == (if last.TimedOut? then None else Some(last))
                && (l.connectRetry.Some? <==> l.sends[0].outcome.ConnectError?)))
  }

  lemma TryKeepsSends(idempotent: bool, attempts: seq<Attempt>, l: Loop, a: Attempt)
    requires SendsInv(attempts, l) && LoopInv(idempotent, l)
    ensures SendsInv(attempts + [a], Try(idempotent, l, a))
  {
    var more, next := attempts + [a], Try(idempotent, l, a);
    assert more[|attempts|] == a && forall i :: 0 <= i < |attempts| ==> more[i] == attempts[i];
    if next.sends != l.sends { assert next.sends == l.sends + [Send(a.at, a.outcome)]; }
  }

  lemma TryKeepsInv(idempotent: bool, l: Loop, a: Attempt)
    requires LoopInv(idempotent, l)
    ensures LoopInv(idempotent, Try(idempotent, l, a))
  {}

  lemma {:induction false} TryAllInv(idempotent: bool, attempts: seq<Attempt>)
    ensures SendsInv(attempts, TryAll(idempotent, attempts)) && LoopInv(idempotent, TryAll(idempotent, attempts))
  {
    if attempts != [] {
      var before := attempts[..|attempts| - 1];
      TryAllInv(idempotent, before);
      assert attempts == before + [attempts[|attempts| - 1]];
      TryKeepsSends(idempotent, before, TryAll(idempotent, before), attempts[|attempts| - 1]);
      TryKeepsInv(idempotent, TryAll(idempotent, before), attempts[|attempts| - 1]);
    }
  }

  /** Every send but the last ended in a connection failure, in a timeout, or, for an idempotent
      method, in an error after connecting. */
  lemma OnlySafeResends(idempotent: bool, attempts: seq<Attempt>, again: Outcome)
    ensures var (_, sends) := Request(idempotent, attempts, again);
      forall i :: 0 <= i < |sends| - 1 ==> Resends(idempotent, sends[i].outcome)
  {
    TryAllInv(idempotent, attempts);
  }

  /** The loop gets to attempt `i`: its host is not in back-off, and no attempt before it ended the loop. */
  ghost predicate Reached(idempotent: bool, attempts: seq<Attempt>, i: nat) {
    && i < |attempts| && !attempts[i].backingOff
    && forall k :: 0 <= k < i && !attempts[k].backingOff ==> Resends(idempotent, attempts[k].outcome)
  }

  /** The first attempt on a host that is not in back-off fails to connect. */
  ghost predicate FirstFailsToConnect(attempts: seq<Attempt>) {
    exists f :: 0 <= f < |attempts| && !attempts[f].backingOff && attempts[f].outcome.ConnectError?
                && forall k :: 0 <= k < f ==> attempts[k].backingOff
  }

  /** An attempt times out, and there is something left to send to: another host that is not in back-off, or
      the first endpoint once more. */
  ghost predicate TimesOutBeforeTheEnd(idempotent: bool, attempts: seq<Attempt>) {
    exists i: nat :: Reached(idempotent, attempts, i) && attempts[i].outcome.TimedOut?
                && (FirstFailsToConnect(attempts) || exists j :: i < j < |attempts| && !attempts[j].backingOff)
  }

  /** A method that is not idempotent is repeated only where the request never reached a server, exactly when
      no attempt times out while there is something left to send to: a timeout fails over for every
      method. */
  lemma NotIdempotentResentOnlyAfterConnectError(attempts: seq<Attempt>, again: Outcome)
    ensures var (_, sends) := Request(false, attempts, again);
      (forall i :: 0 <= i < |sends| - 1 ==> sends[i].outcome.ConnectError?)
      <==> !TimesOutBeforeTheEnd(false, attempts)
  {
    var l := TryAll(false, attempts);
    var (_, sends) := Request(false, attempts, again);
    OnlySafeResends(false, attempts, again);
    TryAllInv(false, attempts);
    TimeoutsSent(false, attempts);
    RemembersFirst(false, attempts);
    if sends == l.sends {
      TimeoutFollowed(false, attempts);
      if l.reply.Some? && SomeReachedTimesOut(false, attempts) { StopFollows(false, attempts); }
    } else {
      TimedOutMore(l.sends, sends[|l.sends|]);
    }
    assert TimedOutBeforeLast(sends) <==> TimesOutBeforeTheEnd(false, attempts);
  }

  ghost predicate TimedOutIn(sends: seq<Send>) {
    exists i :: 0 <= i < |sends| && sends[i].outcome.TimedOut?
  }

  ghost predicate SomeReachedTimesOut(idempotent: bool, attempts: seq<Attempt>) {
    exists i: nat :: Reached(idempotent, attempts, i) && attempts[i].outcome.TimedOut?
  }

  /** The loop has returned exactly if some attempt ended it. */
  lemma {:induction false} Stops(idempotent: bool, attempts: seq<Attempt>)
    ensures TryAll(idempotent, attempts).reply.Some?
            <==> exists k :: 0 <= k < |attempts| && !attempts[k].backingOff && !Resends(idempotent, attempts[k].outcome)
  {
    if attempts != [] {
      var t := |attempts| - 1;
      Stops(idempotent, attempts[..t]);
      assert forall k :: 0 <= k < t ==> attempts[k] == attempts[..t][k];
    }
  }

  /** The first endpoint is remembered exactly if the first attempt failed to connect. */
  lemma {:induction false} RemembersFirst(idempotent: bool, attempts: seq<Attempt>)
    ensures TryAll(idempotent, attempts).connectRetry.Some? <==> FirstFailsToConnect(attempts)
  {
    if attempts != [] {
      var t := |attempts| - 1;
      RemembersFirst(idempotent, attempts[..t]);
      TryAllInv(idempotent, attempts[..t]);
      FirstFailsGrows(attempts);
    }
  }

  lemma FirstFailsGrows(attempts: seq<Attempt>)
    requires attempts != []
    ensures var t := |attempts| - 1;
      FirstFailsToConnect(attempts)
      <==> FirstFailsToConnect(attempts[..t])
           || (!attempts[t].backingOff && attempts[t].outcome.ConnectError?
               && forall k :: 0 <= k < t ==> attempts[..t][k].backingOff)
  {
    var t := |attempts| - 1;
    assert forall k :: 0 <= k < t ==> attempts[k] == attempts[..t][k];
    if FirstFailsToConnect(attempts[..t]) {
      var f :| 0 <= f < t && !attempts[..t][f].backingOff && attempts[..t][f].outcome.ConnectError?
               && forall k :: 0 <= k < f ==> attempts[..t][k].backingOff;
      assert attempts[f].outcome.ConnectError?;
    }
  }

  lemma ReachedBefore(idempotent: bool, attempts: seq<Attempt>, i: nat)
    requires i < |attempts| - 1
    ensures Reached(idempotent, attempts, i) <==> Reached(idempotent, attempts[..|attempts| - 1], i)
  {
    var before := attempts[..|attempts| - 1];
    assert forall k :: 0 <= k < |before| ==> attempts[k] == before[k];
  }

  lemma ReachedLast(idempotent: bool, attempts: seq<Attempt>)
    requires attempts != []
    ensures var t := |attempts| - 1;
      Reached(idempotent, attempts, t)
      <==> !attempts[t].backingOff && TryAll(idempotent, attempts[..t]).reply.None?
  {
    var t := |attempts| - 1;
    Stops(idempotent, attempts[..t]);
    assert forall k :: 0 <= k < t ==> attempts[k] == attempts[..t][k];
  }

  /** A send of the loop timed out exactly if an attempt the loop gets to times out. */
  lemma {:induction false} TimeoutsSent(idempotent: bool, attempts: seq<Attempt>)
    ensures TimedOutIn(TryAll(idempotent, attempts).sends) <==> SomeReachedTimesOut(idempotent, attempts)
  {
    if attempts != [] {
      var t := |attempts| - 1;
      TimeoutsSent(idempotent, attempts[..t]);
      ReachedLast(idempotent, attempts);
      forall i: nat | i < t
        ensures Reached(idempotent, attempts, i) <==> Reached(idempotent, attempts[..t], i)
      {
        ReachedBefore(idempotent, attempts, i);
      }
      assert SomeReachedTimesOut(idempotent, attempts)
        <==> SomeReachedTimesOut(idempotent, attempts[..t])
             || (Reached(idempotent, attempts, t) && attempts[t].outcome.TimedOut?);
      var was := TryAll(idempotent, attempts[..t]).sends;
      if Reached(idempotent, attempts, t) {
        TimedOutMore(was, Send(attempts[t].at, attempts[t].outcome));
      }
    }
  }

  lemma TimedOutMore(sends: seq<Send>, last: Send)
    ensures TimedOutIn(sends + [last]) <==> TimedOutIn(sends) || last.outcome.TimedOut?
    ensures TimedOutBeforeLast(sends + [last]) <==> TimedOutIn(sends)
  {
    var more := sends + [last];
    assert more[|sends|] == last && forall i :: 0 <= i < |sends| ==> more[i] == sends[i];
  }

  ghost predicate TimedOutBeforeLast(sends: seq<Send>) {
    exists i :: 0 <= i < |sends| - 1 && sends[i].outcome.TimedOut?
  }

  /** An attempt the loop gets to times out, and a later one is on a host not in back-off. */
  ghost predicate TimeoutIsFollowed(idempotent: bool, attempts: seq<Attempt>) {
    exists i: nat, j: nat :: Reached(idempotent, attempts, i) && attempts[i].outcome.TimedOut?
                   && i < j < |attempts| && !attempts[j].backingOff
  }

  /** What ended the loop comes after every timeout. */
  lemma StopFollows(idempotent: bool, attempts: seq<Attempt>)
    requires TryAll(idempotent, attempts).reply.Some? && SomeReachedTimesOut(idempotent, attempts)
    ensures TimeoutIsFollowed(idempotent, attempts)
  {
    Stops(idempotent, attempts);
    var k :| 0 <= k < |attempts| && !attempts[k].backingOff && !Resends(idempotent, attempts[k].outcome);
    var i: nat :| Reached(idempotent, attempts, i) && attempts[i].outcome.TimedOut?;
    assert i < k;
  }

  lemma {:induction false} TimeoutFollowed(idempotent: bool, attempts: seq<Attempt>)
    ensures TimedOutBeforeLast(TryAll(idempotent, attempts).sends) <==> TimeoutIsFollowed(idempotent, attempts)
  {
    if attempts != [] {
      var t := |attempts| - 1;
      var before, was := attempts[..t], TryAll(idempotent, attempts[..t]);
      TimeoutFollowed(idempotent, before);
      TimeoutsSent(idempotent, before);
      FollowedGrows(idempotent, attempts);
      if !attempts[t].backingOff {
        if was.reply.None? {
          TimedOutMore(was.sends, Send(attempts[t].at, attempts[t].outcome));
          if TimeoutIsFollowed(idempotent, before) { FollowedTimesOut(idempotent, before); }
        } else if SomeReachedTimesOut(idempotent, before) {
          StopFollows(idempotent, before);
        }
      }
    }
  }

  lemma FollowedTimesOut(idempotent: bool, attempts: seq<Attempt>)
    requires TimeoutIsFollowed(idempotent, attempts)
    ensures SomeReachedTimesOut(idempotent, attempts)
  {}

  /** One more attempt follows a timeout if its host is not in back-off. */
  lemma FollowedGrows(idempotent: bool, attempts: seq<Attempt>)
    requires attempts != []
    ensures var t := |attempts| - 1;
      TimeoutIsFollowed(idempotent, attempts)
      <==> TimeoutIsFollowed(idempotent, attempts[..t])
           || (!attempts[t].backingOff && SomeReachedTimesOut(idempotent, attempts[..t]))
  {
    var t := |attempts| - 1;
    var before := attempts[..t];
    forall i: nat | i < t
      ensures attempts[i] == before[i] && (Reached(idempotent, attempts, i) <==> Reached(idempotent, before, i))
    {
      ReachedBefore(idempotent, attempts, i);
    }
  }

  /** Two nodes that time out get the same non-idempotent request. */
  lemma TimeoutRepeatsNotIdempotent()
    ensures Request(false, [Attempt(0, false, TimedOut), Attempt(1, false, TimedOut)], TimedOut)
            == (GaveUpTimedOut, [Send(0, TimedOut), Send(1, TimedOut)])
  {
    var one := [Attempt(0, false, TimedOut)];
    var two := [Attempt(0, false, TimedOut), Attempt(1, false, TimedOut)];
    assert two[..1] == one && one[..0] == [];
    assert TryAll(false, one) == Try(false, TryAll(false, []), one[0]);
    assert TryAll(false, one) == Loop(None, true, None, false, [Send(0, TimedOut)], None);
    assert TryAll(false, two) == Try(false, TryAll(false, one), two[1]);
    assert [Send(0, TimedOut)] + [Send(1, TimedOut)] == [Send(0, TimedOut), Send(1, TimedOut)];
  }

  /** There is at most one send more than there are candidates, and it happens exactly when the loop
      ran out of candidates and the first endpoint a send was made to could not be connected to;
      it goes to that endpoint. */
  lemma ExtraSendIsToTheFirst(idempotent: bool, attempts: seq<Attempt>, again: Outcome)
    ensures var (reply, sends) := Request(idempotent, attempts, again);
      var inLoop := TryAll(idempotent, attempts).sends;
      && |inLoop| <= |attempts|
      && (sends != inLoop <==>
            inLoop != [] && inLoop[0].outcome.ConnectError?
            && Resends(idempotent, inLoop[|inLoop| - 1].outcome))
      && (sends != inLoop ==> sends == inLoop + [Send(inLoop[0].at, again)])
  {
    TryAllInv(idempotent, attempts);
  }

  /** "unknown error" is returned exactly when every candidate was in back-off, and then nothing
      was sent. */
  lemma UnknownErrorMeansNothingSent(idempotent: bool, attempts: seq<Attempt>, again: Outcome)
    ensures var (reply, sends) := Request(idempotent, attempts, again);
      && (reply.GaveUpUnknown? <==> forall i :: 0 <= i < |attempts| ==> attempts[i].backingOff)
      && (reply.GaveUpUnknown? <==> sends == [])
  {
    TryAllInv(idempotent, attempts);
  }

  /** What is returned is how the last send ended, except that a timed-out extra send reports how
      the loop ended, and a last send that timed out is reported as such. */
  lemma ReplyIsLastOutcome(idempotent: bool, attempts: seq<Attempt>, again: Outcome)
    ensures var (reply, sends) := Request(idempotent, attempts, again);
      && (reply.Response? ==> exists i :: 0 <= i < |sends| && sends[i].outcome == reply.outcome)
      && (sends != [] && !sends[|sends| - 1].outcome.TimedOut? ==>
            reply == Response(sends[|sends| - 1].outcome))
  {
    TryAllInv(idempotent, attempts);
    var l := TryAll(idempotent, attempts);
    var (reply, sends) := Request(idempotent, attempts, again);
    if l.sends != [] { assert sends[|l.sends| - 1] == l.sends[|l.sends| - 1]; }
    if |sends| > |l.sends| { assert sends[|l.sends|].outcome == again; }
  }

  /** `turn` lists the attempts the loop gets to, and `sends` is what they send. */
  ghost predicate SendsFrom(idempotent: bool, attempts: seq<Attempt>, turn: seq<nat>, sends: seq<Send>) {
    && Ascending(turn) && (forall t: nat :: t in turn <==> Reached(idempotent, attempts, t))
    && |sends| == |turn|
    && forall i :: 0 <= i < |turn| ==>
      turn[i] < |attempts| && sends[i] == Send(attempts[turn[i]].at, attempts[turn[i]].outcome)
  }

  lemma {:induction false} LoopSends(idempotent: bool, attempts: seq<Attempt>) returns (turn: seq<nat>)
    ensures SendsFrom(idempotent, attempts, turn, TryAll(idempotent, attempts).sends)
  {
    if attempts == [] {
      turn := [];
    } else {
      var t := |attempts| - 1;
      turn := LoopSends(idempotent, attempts[..t]);
      LastSent(idempotent, attempts);
      turn := OneMoreSent(idempotent, attempts, turn, TryAll(idempotent, attempts[..t]).sends);
    }
  }

  lemma LastSent(idempotent: bool, attempts: seq<Attempt>)
    requires attempts != []
    ensures var t := |attempts| - 1;
      var before := TryAll(idempotent, attempts[..t]).sends;
      TryAll(idempotent, attempts).sends
      == if Reached(idempotent, attempts, t) then before + [Send(attempts[t].at, attempts[t].outcome)] else before
  {
    ReachedLast(idempotent, attempts);
    var t := |attempts| - 1;
    assert TryAll(idempotent, attempts) == Try(idempotent, TryAll(idempotent, attempts[..t]), attempts[t]);
  }

  lemma OneMoreSent(idempotent: bool, attempts: seq<Attempt>, before: seq<nat>, sends: seq<Send>)
    returns (turn: seq<nat>)
    requires attempts != [] && SendsFrom(idempotent, attempts[..|attempts| - 1], before, sends)
    ensures var last := attempts[|attempts| - 1];
      SendsFrom(idempotent, attempts, turn,
                if Reached(idempotent, attempts, |attempts| - 1) then sends + [Send(last.at, last.outcome)] else sends)
  {
    var t: nat := |attempts| - 1;
    turn := if Reached(idempotent, attempts, t) then before + [t] else before;
    forall k: nat ensures k in turn <==> Reached(idempotent, attempts, k) {
      if k < t { ReachedBefore(idempotent, attempts, k); }
    }
  }

  predicate EndsLoop(idempotent: bool, outcome: Outcome) {
    outcome.Answered? || (outcome.ClientError? && !idempotent)
  }

  /** How a request gives up whose last send of the loop ended like this. */
  function GivesUpAfter(last: Outcome): Reply {
    if last.TimedOut? then GaveUpTimedOut else Response(last)
  }

  /** What a request has to send and return. It sends to every attempt not in back-off, in order, up to the first
      that is answered or, for a method that is not idempotent, fails after connecting, and returns that.
      Without one it sends once more to its first endpoint if that could not be connected to, and returns
      how that ends unless it times out, else how the last send of the loop ended. */
  ghost predicate RequestMeans(idempotent: bool, attempts: seq<Attempt>, again: Outcome, reply: Reply,
                               sends: seq<Send>)
  {
    exists turn: seq<nat>, inLoop: seq<Send> ::
      && SendsFrom(idempotent, attempts, turn, inLoop)
      && if inLoop == [] then reply == GaveUpUnknown && sends == []
         else
           var first, last := inLoop[0], inLoop[|inLoop| - 1].outcome;
           if EndsLoop(idempotent, last) then reply == Response(last) && sends == inLoop
           else if first.outcome.ConnectError? then
             && sends == inLoop + [Send(first.at, again)]
             && reply == if again.TimedOut? then GivesUpAfter(last) else Response(again)
           else reply == GivesUpAfter(last) && sends == inLoop
  }

  lemma RequestDoes(idempotent: bool, attempts: seq<Attempt>, again: Outcome)
    ensures var (reply, sends) := Request(idempotent, attempts, again);
      RequestMeans(idempotent, attempts, again, reply, sends)
  {
    TryAllInv(idempotent, attempts);
    var turn := LoopSends(idempotent, attempts);
    assert SendsFrom(idempotent, attempts, turn, TryAll(idempotent, attempts).sends);
  }

  /** What a request meets at one turn: the counter as the other requests left it, the cache's
      answers, the hosts in back-off, and how a send would end. */
  datatype Moment = Moment(
    current: nat, down: set<string>, labels: set<string>, backingOff: set<string>, outcome: Outcome)

  function Turns(moments: seq<Moment>): (turns: seq<Turn>)
    ensures |turns| == |moments|
    ensures forall i :: 0 <= i < |moments| ==>
      turns[i] == Turn(moments[i].current, moments[i].down, moments[i].labels)
  {
    seq(|moments|, i requires 0 <= i < |moments| => Turn(moments[i].current, moments[i].down, moments[i].labels))
  }

  lemma TurnsBefore(moments: seq<Moment>)
    requires moments != []
    ensures Turns(moments)[..|moments| - 1] == Turns(moments[..|moments| - 1])
  {}

  function AttemptAt(hosts: Hosts, at: nat, m: Moment): Attempt {
    Attempt(at, HostAt(hosts, at) in m.backingOff, m.outcome)
  }

  /** The attempts a request makes: the i-th candidate met with the i-th moment. */
  ghost function Attempts(hosts: Hosts, moments: seq<Moment>): seq<Attempt>
    requires forall i :: 0 <= i < |moments| ==> moments[i].current < USIZE
  {
    if moments == [] then []
    else
      var t := |moments| - 1;
      var m := moments[t];
      var before := Attempts(hosts, moments[..t]);
      var a := Ask(hosts, m.current, Drive(hosts, Turns(moments[..t])).0, m.down, m.labels);
      if a.candidate.Some? then before + [AttemptAt(hosts, a.candidate.value.at, m)] else before
  }

  /** Each position handed out meets the moment of its own turn. */
  ghost predicate AreMet(hosts: Hosts, moments: seq<Moment>, handed: seq<nat>, attempts: seq<Attempt>) {
    && |attempts| == |handed| <= |moments|
    && forall t :: 0 <= t < |handed| ==>
      attempts[t] == Attempt(handed[t], hosts[handed[t] % |hosts|] in moments[t].backingOff, moments[t].outcome)
  }

  lemma {:induction false} AttemptsAreMet(hosts: Hosts, moments: seq<Moment>)
    requires forall i :: 0 <= i < |moments| ==> moments[i].current < USIZE
    ensures var (walk, handed) := Drive(hosts, Turns(moments));
      && AreMet(hosts, moments, handed, Attempts(hosts, moments))
      && (!walk.fused ==> |handed| == |moments|)
  {
    if moments != [] {
      var t := |moments| - 1;
      AttemptsAreMet(hosts, moments[..t]);
      MomentTaken(hosts, moments);
      var (walk, handed) := Drive(hosts, Turns(moments[..t]));
      OneMoreMet(hosts, moments, walk, handed, Attempts(hosts, moments[..t]));
    }
  }

  lemma MomentTaken(hosts: Hosts, moments: seq<Moment>)
    requires moments != [] && forall i :: 0 <= i < |moments| ==> moments[i].current < USIZE
    ensures var t := |moments| - 1;
      var m, before, (walk, handed) := moments[t], Attempts(hosts, moments[..t]), Drive(hosts, Turns(moments[..t]));
      var a := Ask(hosts, m.current, walk, m.down, m.labels);
      && Drive(hosts, Turns(moments)) == (a.walk, HandedWith(handed, a.candidate))
      && Attempts(hosts, moments)
         == if a.candidate.Some? then before + [AttemptAt(hosts, a.candidate.value.at, m)] else before
  {
    TurnsBefore(moments);
  }

  lemma OneMoreMet(hosts: Hosts, moments: seq<Moment>, walk: Walk, handed: seq<nat>, attempts: seq<Attempt>)
    requires moments != [] && moments[|moments| - 1].current < USIZE && walk.InRange()
    requires AreMet(hosts, moments[..|moments| - 1], handed, attempts)
    requires !walk.fused ==> |handed| == |moments| - 1
    ensures var m := moments[|moments| - 1];
      var a := Ask(hosts, m.current, walk, m.down, m.labels);
      && AreMet(hosts, moments, HandedWith(handed, a.candidate),
                if a.candidate.Some? then attempts + [AttemptAt(hosts, a.candidate.value.at, m)] else attempts)
      && (!a.walk.fused ==> |HandedWith(handed, a.candidate)| == |moments|)
  {
    var m := moments[|moments| - 1];
    var a := Ask(hosts, m.current, walk, m.down, m.labels);
    AskFused(hosts, m, walk);
    if a.candidate.Some? {
      MetAtLast(hosts, moments, handed, attempts, a.candidate.value.at);
    } else {
      MetBefore(hosts, moments, handed, attempts);
    }
  }

  lemma AskFused(hosts: Hosts, m: Moment, walk: Walk)
    requires m.current < USIZE && walk.InRange()
    ensures var a := Ask(hosts, m.current, walk, m.down, m.labels);
      (a.candidate.Some? ==> !walk.fused) && (a.candidate.None? <==> a.walk.fused)
  {}

  lemma MetBefore(hosts: Hosts, moments: seq<Moment>, handed: seq<nat>, attempts: seq<Attempt>)
    requires moments != [] && AreMet(hosts, moments[..|moments| - 1], handed, attempts)
    ensures AreMet(hosts, moments, handed, attempts)
  {
    assert forall t :: 0 <= t < |moments| - 1 ==> moments[t] == moments[..|moments| - 1][t];
  }

  lemma MetAtLast(hosts: Hosts, moments: seq<Moment>, handed: seq<nat>, attempts: seq<Attempt>, at: nat)
    requires moments != [] && AreMet(hosts, moments[..|moments| - 1], handed, attempts)
    requires |handed| == |moments| - 1
    ensures AreMet(hosts, moments, handed + [at], attempts + [AttemptAt(hosts, at, moments[|moments| - 1])])
  {
    MetBefore(hosts, moments, handed, attempts);
  }

  /** A request against one remote sends at most n + 1 times, whatever the other requests do, and
      the sends of its loop go to different positions. */
  lemma AtMostOneSendPerHostPlusOne(hosts: Hosts, moments: seq<Moment>, idempotent: bool, again: Outcome)
    requires Unlapped(hosts, Turns(moments)) && forall i :: 0 <= i < |moments| ==> moments[i].current < USIZE
    ensures var attempts := Attempts(hosts, moments);
      var (reply, sends) := Request(idempotent, attempts, again);
      && |attempts| <= |hosts| && |sends| <= |hosts| + 1
      && forall i, j :: 0 <= i < j < |attempts| ==> attempts[i].at != attempts[j].at
  {
    var attempts := Attempts(hosts, moments);
    AttemptsAreMet(hosts, moments);
    if moments != [] { EachPositionOnce(hosts, Turns(moments)); }
    ExtraSendIsToTheFirst(idempotent, attempts, again);
  }

  /** "unknown error" is returned exactly when every host a request is handed is in back-off at that turn. */
  lemma UnknownErrorMeansAllInBackOff(hosts: Hosts, moments: seq<Moment>, idempotent: bool, again: Outcome)
    requires forall i :: 0 <= i < |moments| ==> moments[i].current < USIZE
    ensures var handed := Drive(hosts, Turns(moments)).1;
      && |handed| <= |moments|
      && (Request(idempotent, Attempts(hosts, moments), again).0 == GaveUpUnknown
          <==> forall t :: 0 <= t < |handed| ==> hosts[handed[t] % |hosts|] in moments[t].backingOff)
  {
    AttemptsAreMet(hosts, moments);
    UnknownErrorMeansNothingSent(idempotent, Attempts(hosts, moments), again);
    var handed, attempts := Drive(hosts, Turns(moments)).1, Attempts(hosts, moments);
    assert forall t :: 0 <= t < |handed| ==>
      attempts[t].backingOff == (hosts[handed[t] % |hosts|] in moments[t].backingOff);
  }

  /** In every interleaving of any number of requests on one remote, a request makes at most n attempts, all at
      different positions, and sends at most n + 1 times, unless the counter moves 2^64 times while it is
      running. `moments` adds to its turns which hosts are in back-off and how its sends end. */
  lemma EveryRequestSendsAtMostNPlusOne(hosts: Hosts, first: nat, events: seq<FailoverRuns.Event>, r: nat,
                                        moments: seq<Moment>, idempotent: bool, again: Outcome)
    requires first < USIZE && FailoverRuns.MovedSince(hosts, first, events, r) < USIZE
    requires Turns(moments) == FailoverRuns.TurnsOf(hosts, first, events, r)
    ensures forall i :: 0 <= i < |moments| ==> moments[i].current < USIZE
    ensures var attempts := Attempts(hosts, moments);
      var (reply, sends) := Request(idempotent, attempts, again);
      && |attempts| <= |hosts| && |sends| <= |hosts| + 1
      && forall i, j :: 0 <= i < j < |attempts| ==> attempts[i].at != attempts[j].at
  {
    FailoverRuns.RunIsDrive(hosts, first, events, r);
    assert forall i :: 0 <= i < |moments| ==> moments[i].current == Turns(moments)[i].current;
    AtMostOneSendPerHostPlusOne(hosts, moments, idempotent, again);
  }

  /** Where the generator and the loop stand after `i` turns. */
  ghost function LoopAt(hosts: Hosts, moments: seq<Moment>, idempotent: bool, i: nat): (r: (Walk, Loop))
    requires i <= |moments| && forall k :: 0 <= k < |moments| ==> moments[k].current < USIZE
    ensures r.0.InRange()
  {
    if i == 0 then (FRESH_WALK, NEW_LOOP)
    else
      var (walk, l) := LoopAt(hosts, moments, idempotent, i - 1);
      var m := moments[i - 1];
      var a := Ask(hosts, m.current, walk, m.down, m.labels);
      AskInRange(hosts, m.current, walk, m.down, m.labels);
      (a.walk, if a.candidate.None? then l else Try(idempotent, l, AttemptAt(hosts, a.candidate.value.at, m)))
  }

  /** The macro does what is asked of a request whose candidates meet the hosts in back-off and the outcomes of
      their own turns, and n + 1 turns are enough for the generator to end, unless the counter laps it. */
  method TryRequest(state: MultiClientState, idempotent: bool, remoteBackingOff: bool, moments: seq<Moment>,
                    again: Outcome)
    returns (reply: Reply, sends: seq<Send>)
    requires state.Valid() && |moments| > |state.hosts|
    requires forall i :: 0 <= i < |moments| ==> moments[i].current < USIZE
    modifies state
    ensures remoteBackingOff ==> reply == RemoteBackingOff && sends == []
    ensures !remoteBackingOff ==>
      && (reply, sends) == Request(idempotent, Attempts(state.hosts, moments), again)
      && AreMet(state.hosts, moments, Drive(state.hosts, Turns(moments)).1, Attempts(state.hosts, moments))
      && RequestMeans(idempotent, Attempts(state.hosts, moments), again, reply, sends)
    ensures Unlapped(state.hosts, Turns(moments)) ==> Drive(state.hosts, Turns(moments)).0.fused
  {
    if Unlapped(state.hosts, Turns(moments)) { EachPositionOnce(state.hosts, Turns(moments)); }
    if remoteBackingOff { return RemoteBackingOff, []; }
    AttemptsAreMet(state.hosts, moments);
    RequestDoes(idempotent, Attempts(state.hosts, moments), again);
    var l := TryEach(state, idempotent, moments);
    if l.reply.Some? { return l.reply.value, l.sends; }
    sends := l.sends;
    if l.connectRetry.Some? {
      sends := sends + [Send(l.connectRetry.value, again)];
      if !again.TimedOut? { return Response(again), sends; }
    }
    reply := if l.lastErr.Some? then Response(l.lastErr.value)
             else if l.timedOut then GaveUpTimedOut else GaveUpUnknown;
  }

  /** The loop over the generator's candidates. */
  method TryEach(state: MultiClientState, idempotent: bool, moments: seq<Moment>) returns (l: Loop)
    requires state.Valid() && forall i :: 0 <= i < |moments| ==> moments[i].current < USIZE
    modifies state
    ensures l == TryAll(idempotent, Attempts(state.hosts, moments))
  {
    l := NEW_LOOP;
    var clients := new TryClients(state);
    var i := 0;
    while i < |moments| && !clients.fused && l.reply.None?
      invariant 0 <= i <= |moments| && clients.Valid() && clients.state == state && fresh(clients)
      invariant LoopAt(state.hosts, moments, idempotent, i) == (clients.View(), l)
    {
      l := TakeTurn(clients, moments, idempotent, i, l);
      i := i + 1;
    }
    LastTurn(state.hosts, moments, idempotent, i);
  }

  /** Turn `i`: ask for the next candidate, after the other requests have moved the counter, and send to it
      unless its host is in back-off. */
  method TakeTurn(clients: TryClients, moments: seq<Moment>, idempotent: bool, i: nat, before: Loop)
    returns (l: Loop)
    requires clients.Valid() && i < |moments| && before.reply.None?
    requires forall k :: 0 <= k < |moments| ==> moments[k].current < USIZE
    requires LoopAt(clients.state.hosts, moments, idempotent, i) == (clients.View(), before)
    modifies clients, clients.state
    ensures clients.Valid() && LoopAt(clients.state.hosts, moments, idempotent, i + 1) == (clients.View(), l)
  {
    clients.state.current := moments[i].current;
    var candidate := clients.NextClient(moments[i].down, moments[i].labels);
    l := before;
    if candidate.Some? && HostAt(clients.state.hosts, candidate.value.at) !in moments[i].backingOff {
      l := SendTo(idempotent, candidate.value.at, moments[i].outcome, before);
    }
  }

  /** One send of the loop; an error and a timeout left from the send before are dropped first. */
  method SendTo(idempotent: bool, at: nat, outcome: Outcome, before: Loop) returns (l: Loop)
    requires before.reply.None?
    ensures l == Try(idempotent, before, Attempt(at, false, outcome))
  {
    l := before.(lastErr := None, timedOut := false, sends := before.sends + [Send(at, outcome)]);
    match outcome {
      case ConnectError =>
        if l.first { l := l.(connectRetry := Some(at)); }
        l := l.(lastErr := Some(outcome));
      case ClientError =>
        if idempotent { l := l.(lastErr := Some(outcome)); } else { l := l.(reply := Some(Response(outcome))); }
      case Answered(_) =>
        l := l.(reply := Some(Response(outcome)));
      case TimedOut =>
        l := l.(timedOut := true);
    }
    if l.reply.None? { l := l.(first := false); }
  }

  /** Where the loop stands, in terms of the attempts made so far. */
  lemma {:induction false} LoopTries(hosts: Hosts, moments: seq<Moment>, idempotent: bool, i: nat)
    requires i <= |moments| && forall k :: 0 <= k < |moments| ==> moments[k].current < USIZE
    ensures LoopAt(hosts, moments, idempotent, i)
            == (Drive(hosts, Turns(moments[..i])).0, TryAll(idempotent, Attempts(hosts, moments[..i])))
  {
    if i > 0 {
      LoopTries(hosts, moments, idempotent, i - 1);
      TurnTried(hosts, moments, idempotent, i - 1);
    }
  }

  /** One more moment, in terms of the attempts. */
  lemma TurnTried(hosts: Hosts, moments: seq<Moment>, idempotent: bool, i: nat)
    requires i < |moments| && forall k :: 0 <= k < |moments| ==> moments[k].current < USIZE
    ensures var m, l := moments[i], TryAll(idempotent, Attempts(hosts, moments[..i]));
      var a := Ask(hosts, m.current, Drive(hosts, Turns(moments[..i])).0, m.down, m.labels);
      && Drive(hosts, Turns(moments[..i + 1])).0 == a.walk
      && TryAll(idempotent, Attempts(hosts, moments[..i + 1]))
         == if a.candidate.None? then l else Try(idempotent, l, AttemptAt(hosts, a.candidate.value.at, m))
  {
    TurnAttempts(hosts, moments, i);
    var m, before := moments[i], Attempts(hosts, moments[..i]);
    var a := Ask(hosts, m.current, Drive(hosts, Turns(moments[..i])).0, m.down, m.labels);
    if a.candidate.Some? { TryAllGrows(idempotent, before, AttemptAt(hosts, a.candidate.value.at, m)); }
  }

  lemma TryAllGrows(idempotent: bool, before: seq<Attempt>, a: Attempt)
    ensures TryAll(idempotent, before + [a]) == Try(idempotent, TryAll(idempotent, before), a)
  {
    assert (before + [a])[..|before|] == before;
  }

  lemma LastTurn(hosts: Hosts, moments: seq<Moment>, idempotent: bool, i: nat)
    requires i <= |moments| && forall k :: 0 <= k < |moments| ==> moments[k].current < USIZE
    requires var (walk, l) := LoopAt(hosts, moments, idempotent, i);
      i == |moments| || walk.fused || l.reply.Some?
    ensures LoopAt(hosts, moments, idempotent, i).1 == TryAll(idempotent, Attempts(hosts, moments))
  {
    LoopTries(hosts, moments, idempotent, i);
    if i == |moments| {
      assert moments[..i] == moments;
    } else if LoopAt(hosts, moments, idempotent, i).0.fused {
      Ended(hosts, moments, i);
    } else {
      Replied(hosts, moments, i, idempotent);
    }
  }

  /** How the attempts and the generator grow with one more moment. */
  lemma TurnAttempts(hosts: Hosts, moments: seq<Moment>, i: nat)
    requires i < |moments| && forall k :: 0 <= k < |moments| ==> moments[k].current < USIZE
    ensures var m := moments[i];
      var a := Ask(hosts, m.current, Drive(hosts, Turns(moments[..i])).0, m.down, m.labels);
      && Drive(hosts, Turns(moments[..i + 1])).0 == a.walk
      && Attempts(hosts, moments[..i + 1])
         == if a.candidate.None? then Attempts(hosts, moments[..i])
            else Attempts(hosts, moments[..i]) + [AttemptAt(hosts, a.candidate.value.at, m)]
  {
    assert moments[..i + 1][..i] == moments[..i];
    assert Turns(moments[..i + 1])[..i] == Turns(moments[..i]);
  }

  /** A generator that has ended makes no further attempt. */
  lemma {:induction false} Ended(hosts: Hosts, moments: seq<Moment>, i: nat)
    requires i <= |moments| && forall k :: 0 <= k < |moments| ==> moments[k].current < USIZE
    requires Drive(hosts, Turns(moments[..i])).0.fused
    ensures Attempts(hosts, moments) == Attempts(hosts, moments[..i]) && Drive(hosts, Turns(moments)).0.fused
    decreases |moments|
  {
    var t := |moments| - 1;
    if i == |moments| {
      assert moments[..i] == moments;
    } else {
      assert moments[..t][..i] == moments[..i] && moments[..t + 1] == moments;
      Ended(hosts, moments[..t], i);
      TurnAttempts(hosts, moments, t);
    }
  }

  /** Once the loop has returned, later moments do not matter. */
  lemma {:induction false} Replied(hosts: Hosts, moments: seq<Moment>, i: nat, idempotent: bool)
    requires i <= |moments| && forall k :: 0 <= k < |moments| ==> moments[k].current < USIZE
    requires TryAll(idempotent, Attempts(hosts, moments[..i])).reply.Some?
    ensures TryAll(idempotent, Attempts(hosts, moments)) == TryAll(idempotent, Attempts(hosts, moments[..i]))
    decreases |moments|
  {
    var t := |moments| - 1;
    if i == |moments| {
      assert moments[..i] == moments;
    } else {
      assert moments[..t][..i] == moments[..i] && moments[..t + 1] == moments;
      Replied(hosts, moments[..t], i, idempotent);
      TurnAttempts(hosts, moments, t);
      RepliedStays(idempotent, Attempts(hosts, moments[..t]), Attempts(hosts, moments));
    }
  }

  lemma RepliedStays(idempotent: bool, before: seq<Attempt>, after: seq<Attempt>)
    requires before <= after && |after| <= |before| + 1
    requires TryAll(idempotent, before).reply.Some?
    ensures TryAll(idempotent, after) == TryAll(idempotent, before)
  {
    assert after[..|before|] == before;
    if |after| == |before| { assert after == before; }
  }
}
