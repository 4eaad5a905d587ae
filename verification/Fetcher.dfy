/** Fetching from all nodes of all remotes under a global and a per-remote connection limit
    (server/src/parallel_fetcher.rs), as a state machine over the steps of its tasks.

    What the remote calls return is fixed in advance but arbitrary; which task proceeds next is
    chosen freely. Tasks do not panic. */
module Fetcher {
  import opened Remotes
  import opened Sequences
  import opened Wrappers

  /** A node together with what its handler returns; also the response recorded for it. */
  datatype Node = Node(name: string, data: Result<string, string>)

  /** `Direct` runs the handler once for the remote; `Cluster` lists the nodes first. */
  datatype Job = Direct(node: Node) | Cluster(listing: Result<seq<Node>, string>)

  datatype Remote = Remote(id: string, ty: RemoteType, job: Job)

  datatype Config = Config(maxConnections: nat, maxPerRemote: nat, remotes: seq<Remote>)

  /** Where a remote's task is. It holds a global permit while listing, while waiting for a
      per-remote permit, while handling directly, and while joining if no node took the permit. */
  datatype Phase =
    | Queued
    | Listing
    | NeedGlobal(todo: seq<Node>)
    | NeedLocal(todo: seq<Node>)
    | Handling
    | Joining(permit: bool)
    | Answered(response: Result<seq<Node>, string>)

  /** `localFree` is the per-remote semaphore; every handler in `running` holds a permit of both. */
  datatype Task = Task(phase: Phase, localFree: nat, running: seq<Node>, done: seq<Node>)

  /** `answered` lists the tasks in the order in which they are joined. */
  datatype State = State(free: nat, tasks: seq<Task>, answered: seq<nat>)

  datatype Action =
    | Acquire
    | ListReturns
    | Spawn
    | HandlerReturns(k: nat)
    | DirectReturns
    | Join

  function Init(c: Config): State {
    State(c.maxConnections, seq(|c.remotes|, _ => Task(Queued, c.maxPerRemote, [], [])), [])
  }

  /** A task's step with the change it makes to the global semaphore; `None` if it cannot be taken. */
  function TaskStep(job: Job, t: Task, free: nat, a: Action): Option<(Task, nat)> {
    match a
    case Acquire =>
      if free == 0 then None
      else if t.phase.Queued? then Some((t.(phase := if job.Direct? then Handling else Listing), free - 1))
      else if t.phase.NeedGlobal? then Some((t.(phase := NeedLocal(t.phase.todo)), free - 1))
      else None
    case ListReturns =>
      if !t.phase.Listing? || job.Direct? then None
      else if job.listing.Err? then Some((t.(phase := Answered(Err(job.listing.error))), free + 1))
      else if job.listing.value == [] then Some((t.(phase := Joining(true)), free))
      else Some((t.(phase := NeedLocal(job.listing.value)), free))
    case Spawn =>
      if !t.phase.NeedLocal? || t.phase.todo == [] || t.localFree == 0 then None
      else
        var rest := t.phase.todo[1..];
        Some((t.(phase := if rest == [] then Joining(false) else NeedGlobal(rest),
                 localFree := t.localFree - 1,
                 running := t.running + [t.phase.todo[0]]), free))
    case HandlerReturns(k) =>
      if k >= |t.running| then None
      else Some((t.(localFree := t.localFree + 1,
                    running := t.running[..k] + t.running[k + 1..],
                    done := t.done + [t.running[k]]), free + 1))
    case DirectReturns =>
      if !t.phase.Handling? || !job.Direct? then None
      else Some((t.(phase := Answered(Ok([job.node]))), free + 1))
    case Join =>
      if !t.phase.Joining? || t.running != [] then None
      else Some((t.(phase := Answered(Ok(t.done))), if t.phase.permit then free + 1 else free))
  }

  function Step(c: Config, s: State, i: nat, a: Action): Option<State>
    requires |s.tasks| == |c.remotes|
  {
    if i >= |s.tasks| then None
    else
      match TaskStep(c.remotes[i].job, s.tasks[i], s.free, a)
      case None => None
      case Some((t, free)) =>
        var joined := t.phase.Answered? && !s.tasks[i].phase.Answered?;
        Some(State(free, s.tasks[i := t], if joined then s.answered + [i] else s.answered))
  }

  /** The state after the given steps, if each could be taken. */
  function Run(c: Config, steps: seq<(nat, Action)>): (r: Option<State>)
    ensures r.Some? ==> |r.value.tasks| == |c.remotes|
  {
    if steps == [] then Some(Init(c))
    else
      var (i, a) := steps[|steps| - 1];
      match Run(c, steps[..|steps| - 1])
      case None => None
      case Some(s) => Step(c, s, i, a)
  }

  /** Global permits a task and its handlers hold. */
  function Held(t: Task): nat {
    |t.running| + match t.phase
                  case Listing | NeedLocal(_) | Handling => 1
                  case Joining(permit) => if permit then 1 else 0
                  case _ => 0
  }

  /** Remote calls a task and its handlers are waiting for. */
  function InFlight(t: Task): nat {
    |t.running| + if t.phase.Listing? || t.phase.Handling? then 1 else 0
  }

  /** The steps a task still has to take. */
  function Work(job: Job, t: Task): nat {
    |t.running| + match t.phase
                  case Queued => 1 + WorkListed(job)
                  case Listing | Handling => WorkListed(job)
                  case NeedGlobal(todo) => 3 * |todo| + 1
                  case NeedLocal(todo) => 3 * |todo|
                  case Joining(_) => 1
                  case Answered(_) => 0
  }

  function WorkListed(job: Job): nat {
    if job.Direct? || job.listing.Err? then 1
    else if job.listing.value == [] then 2
    else 1 + 3 * |job.listing.value|
  }

  function Sum(f: Task -> nat, tasks: seq<Task>): nat {
    if tasks == [] then 0 else Sum(f, tasks[..|tasks| - 1]) + f(tasks[|tasks| - 1])
  }

  function TotalWork(remotes: seq<Remote>, tasks: seq<Task>): nat
    requires |remotes| == |tasks|
  {
    if tasks == [] then 0
    else
      var k := |tasks| - 1;
      TotalWork(remotes[..k], tasks[..k]) + Work(remotes[k].job, tasks[k])
  }

  lemma SumUpdate(f: Task -> nat, tasks: seq<Task>, i: nat, t: Task)
    requires i < |tasks|
    ensures Sum(f, tasks[i := t]) == Sum(f, tasks) - f(tasks[i]) + f(t)
    ensures f(tasks[i]) <= Sum(f, tasks)
  {
    var k := |tasks| - 1;
    if i == k {
      assert tasks[i := t][..k] == tasks[..k];
    } else {
      assert tasks[i := t][..k] == tasks[..k][i := t];
      SumUpdate(f, tasks[..k], i, t);
    }
  }

  lemma WorkUpdate(remotes: seq<Remote>, tasks: seq<Task>, i: nat, t: Task)
    requires |remotes| == |tasks| && i < |tasks|
    ensures TotalWork(remotes, tasks[i := t])
            == TotalWork(remotes, tasks) - Work(remotes[i].job, tasks[i]) + Work(remotes[i].job, t)
    ensures Work(remotes[i].job, tasks[i]) <= TotalWork(remotes, tasks)
  {
    var k := |tasks| - 1;
    if i == k {
      assert tasks[i := t][..k] == tasks[..k];
    } else {
      assert tasks[i := t][..k] == tasks[..k][i := t];
      WorkUpdate(remotes[..k], tasks[..k], i, t);
    }
  }

  /** A response fits a remote: the listing's error, or one response per listed node. */
  ghost predicate Answers(job: Job, response: Result<seq<Node>, string>) {
    match job
    case Direct(node) => response == Ok([node])
    case Cluster(Err(error)) => response == Err(error)
    case Cluster(Ok(nodes)) => response.Ok? && multiset(response.value) == multiset(nodes)
  }

  ghost predicate Listed(job: Job, all: seq<Node>) {
    job.Cluster? && job.listing.Ok? && multiset(all) == multiset(job.listing.value)
  }

  ghost predicate TaskInv(maxPerRemote: nat, job: Job, t: Task) {
    && t.localFree + |t.running| == maxPerRemote
    && match t.phase
       case Queued => t.running == [] && t.done == []
       case Listing => job.Cluster? && t.running == [] && t.done == []
       case Handling => job.Direct? && t.running == [] && t.done == []
       case NeedGlobal(todo) => todo != [] && Listed(job, t.done + t.running + todo)
       case NeedLocal(todo) => todo != [] && Listed(job, t.done + t.running + todo)
       case Joining(_) => Listed(job, t.done + t.running)
       case Answered(response) => t.running == [] && Answers(job, response)
  }

  ghost predicate Inv(c: Config, s: State) {
    && |s.tasks| == |c.remotes|
    && s.free + Sum(Held, s.tasks) == c.maxConnections
    && (forall i :: 0 <= i < |s.tasks| ==> TaskInv(c.maxPerRemote, c.remotes[i].job, s.tasks[i]))
    && ListsAnswered(s.answered, s.tasks)
  }

  lemma MoveOut(done: seq<Node>, running: seq<Node>, todo: seq<Node>, k: nat)
    requires k < |running|
    ensures multiset((done + [running[k]]) + (running[..k] + running[k + 1..]) + todo)
            == multiset(done + running + todo)
  {
    assert running == running[..k] + [running[k]] + running[k + 1..];
    assert multiset(running) == multiset(running[..k]) + multiset([running[k]]) + multiset(running[k + 1..]);
  }

  lemma MoveIn(done: seq<Node>, running: seq<Node>, todo: seq<Node>)
    requires todo != []
    ensures done + (running + [todo[0]]) + todo[1..] == done + running + todo
  {}

  /** One step of a task accounts for the global permits it takes and gives back, and brings it
      one step nearer to its end. */
  lemma TaskStepAccounts(maxPerRemote: nat, job: Job, t: Task, free: nat, a: Action)
    requires TaskInv(maxPerRemote, job, t) && TaskStep(job, t, free, a).Some?
    ensures var (t', free') := TaskStep(job, t, free, a).value;
      && free' + Held(t') == free + Held(t)
      && Work(job, t') + 1 == Work(job, t)
      && !t.phase.Answered?
  {}

  lemma TaskStepKeeps(maxPerRemote: nat, job: Job, t: Task, free: nat, a: Action)
    requires TaskInv(maxPerRemote, job, t) && TaskStep(job, t, free, a).Some?
    ensures TaskInv(maxPerRemote, job, TaskStep(job, t, free, a).value.0)
  {
    match a
    case Acquire => AcquireKeeps(maxPerRemote, job, t, free);
    case ListReturns => ListReturnKeeps(maxPerRemote, job, t, free);
    case Spawn => SpawnKeeps(maxPerRemote, job, t);
    case HandlerReturns(k) => HandlerReturnKeeps(maxPerRemote, job, t, k);
    case DirectReturns => DirectReturnKeeps(maxPerRemote, job, t, free);
    case Join => JoinKeeps(maxPerRemote, job, t);
  }

  lemma AcquireKeeps(maxPerRemote: nat, job: Job, t: Task, free: nat)
    requires TaskInv(maxPerRemote, job, t) && TaskStep(job, t, free, Acquire).Some?
    ensures TaskInv(maxPerRemote, job, TaskStep(job, t, free, Acquire).value.0)
  {}

  lemma DirectReturnKeeps(maxPerRemote: nat, job: Job, t: Task, free: nat)
    requires TaskInv(maxPerRemote, job, t) && TaskStep(job, t, free, DirectReturns).Some?
    ensures TaskInv(maxPerRemote, job, TaskStep(job, t, free, DirectReturns).value.0)
  {}

  lemma ListReturnKeeps(maxPerRemote: nat, job: Job, t: Task, free: nat)
    requires TaskInv(maxPerRemote, job, t) && TaskStep(job, t, free, ListReturns).Some?
    ensures TaskInv(maxPerRemote, job, TaskStep(job, t, free, ListReturns).value.0)
  {
    if job.listing.Ok? { assert t.done + t.running + job.listing.value == job.listing.value; }
  }

  lemma JoinKeeps(maxPerRemote: nat, job: Job, t: Task)
    requires TaskInv(maxPerRemote, job, t) && t.phase.Joining? && t.running == []
    ensures TaskInv(maxPerRemote, job, t.(phase := Answered(Ok(t.done))))
  {
    assert t.done + t.running == t.done;
  }

  lemma HandlerReturnKeeps(maxPerRemote: nat, job: Job, t: Task, k: nat)
    requires TaskInv(maxPerRemote, job, t) && k < |t.running|
    ensures TaskInv(maxPerRemote, job, t.(localFree := t.localFree + 1,
                                          running := t.running[..k] + t.running[k + 1..],
                                          done := t.done + [t.running[k]]))
  {
    var done, left := t.done + [t.running[k]], t.running[..k] + t.running[k + 1..];
    if t.phase.Joining? {
      MoveOut(t.done, t.running, [], k);
      assert t.done + t.running + [] == t.done + t.running && done + left + [] == done + left;
    } else {
      MoveOut(t.done, t.running, t.phase.todo, k);
    }
  }

  lemma SpawnKeeps(maxPerRemote: nat, job: Job, t: Task)
    requires TaskInv(maxPerRemote, job, t) && t.phase.NeedLocal? && t.localFree > 0
    ensures var rest := t.phase.todo[1..];
      TaskInv(maxPerRemote, job, t.(phase := if rest == [] then Joining(false) else NeedGlobal(rest),
                                    localFree := t.localFree - 1,
                                    running := t.running + [t.phase.todo[0]]))
  {
    var running, rest := t.running + [t.phase.todo[0]], t.phase.todo[1..];
    MoveIn(t.done, t.running, t.phase.todo);
    if rest == [] { assert t.done + running + rest == t.done + running; }
  }

  lemma StepKeepsInv(c: Config, s: State, i: nat, a: Action)
    requires Inv(c, s) && Step(c, s, i, a).Some?
    ensures Inv(c, Step(c, s, i, a).value)
    ensures TotalWork(c.remotes, Step(c, s, i, a).value.tasks) + 1 == TotalWork(c.remotes, s.tasks)
  {
    var (t, free) := TaskStep(c.remotes[i].job, s.tasks[i], s.free, a).value;
    TaskStepAccounts(c.maxPerRemote, c.remotes[i].job, s.tasks[i], s.free, a);
    TaskStepKeeps(c.maxPerRemote, c.remotes[i].job, s.tasks[i], s.free, a);
    UpdateKeepsInv(c, s, i, t, free);
    WorkUpdate(c.remotes, s.tasks, i, t);
  }

  lemma UpdateKeepsInv(c: Config, s: State, i: nat, t: Task, free: nat)
    requires Inv(c, s) && i < |s.tasks| && !s.tasks[i].phase.Answered?
    requires TaskInv(c.maxPerRemote, c.remotes[i].job, t) && free + Held(t) == s.free + Held(s.tasks[i])
    ensures Inv(c, State(free, s.tasks[i := t], if t.phase.Answered? then s.answered + [i] else s.answered))
  {
    SumUpdate(Held, s.tasks, i, t);
    AnsweredKept(s.tasks, s.answered, i, t);
  }

  ghost predicate ListsAnswered(answered: seq<nat>, tasks: seq<Task>) {
    && Distinct(answered)
    && (forall i :: i in answered <==> 0 <= i < |tasks| && tasks[i].phase.Answered?)
  }

  lemma AnsweredKept(tasks: seq<Task>, answered: seq<nat>, i: nat, t: Task)
    requires ListsAnswered(answered, tasks) && i < |tasks| && !tasks[i].phase.Answered?
    ensures ListsAnswered(if t.phase.Answered? then answered + [i] else answered, tasks[i := t])
  {}

  lemma InitInv(c: Config)
    ensures Inv(c, Init(c))
  {
    NothingHeld(Init(c).tasks);
  }

  lemma NothingHeld(tasks: seq<Task>)
    requires forall i :: 0 <= i < |tasks| ==> Held(tasks[i]) == 0
    ensures Sum(Held, tasks) == 0
  {
    if tasks != [] { NothingHeld(tasks[..|tasks| - 1]); }
  }

  /** In every reachable state the permits are conserved and the tasks are consistent; and every run
      to it has the same number of steps, the work done since the start. */
  lemma {:induction false} ReachableInv(c: Config, steps: seq<(nat, Action)>)
    requires Run(c, steps).Some?
    ensures Inv(c, Run(c, steps).value)
    ensures |steps| + TotalWork(c.remotes, Run(c, steps).value.tasks) == TotalWork(c.remotes, Init(c).tasks)
  {
    if steps == [] {
      InitInv(c);
    } else {
      var before := steps[..|steps| - 1];
      ReachableInv(c, before);
      StepKeepsInv(c, Run(c, before).value, steps[|steps| - 1].0, steps[|steps| - 1].1);
    }
  }

  lemma SumLe(f: Task -> nat, g: Task -> nat, tasks: seq<Task>)
    requires forall t :: f(t) <= g(t)
    ensures Sum(f, tasks) <= Sum(g, tasks)
  {
    if tasks != [] { SumLe(f, g, tasks[..|tasks| - 1]); }
  }

  /** In every reachable state at most `maxConnections` node lists and handlers are in flight, and at
      most `maxPerRemote` node handlers of any one remote. */
  lemma LimitsHold(c: Config, steps: seq<(nat, Action)>)
    requires Run(c, steps).Some?
    ensures var s := Run(c, steps).value;
      && Sum(InFlight, s.tasks) <= c.maxConnections
      && (forall i :: 0 <= i < |s.tasks| ==> s.tasks[i].localFree + |s.tasks[i].running| == c.maxPerRemote)
      && s.free + Sum(Held, s.tasks) == c.maxConnections
  {
    ReachableInv(c, steps);
    SumLe(InFlight, Held, Run(c, steps).value.tasks);
  }

  /** With both limits at least 1, every reachable state with an unanswered remote has a step that can
      be taken, even while tasks hold a global permit and wait for a per-remote one. */
  lemma NeverStuck(c: Config, steps: seq<(nat, Action)>, i: nat) returns (j: nat, a: Action)
    requires c.maxConnections > 0 && c.maxPerRemote > 0
    requires Run(c, steps).Some? && i < |c.remotes| && !Run(c, steps).value.tasks[i].phase.Answered?
    ensures Step(c, Run(c, steps).value, j, a).Some?
  {
    ReachableInv(c, steps);
    var s := Run(c, steps).value;
    if j0 :| 0 <= j0 < |s.tasks| && Held(s.tasks[j0]) > 0 {
      j := j0;
      a := HolderMoves(c.maxPerRemote, c.remotes[j].job, s.tasks[j], s.free);
    } else {
      NothingHeld(s.tasks);
      j, a := i, if s.tasks[i].phase.Joining? then Join else Acquire;
    }
  }

  /** Whoever holds a global permit, or one of its handlers, can move: waiting for a per-remote
      permit means that a handler of the same remote is running. */
  lemma HolderMoves(maxPerRemote: nat, job: Job, t: Task, free: nat) returns (a: Action)
    requires maxPerRemote > 0 && TaskInv(maxPerRemote, job, t) && Held(t) > 0
    ensures TaskStep(job, t, free, a).Some?
  {
    if t.running != [] {
      a := HandlerReturns(0);
    } else {
      a := match t.phase
           case Listing => ListReturns
           case NeedLocal(_) => Spawn
           case Handling => DirectReturns
           case _ => Join;
    }
  }

  /** All remotes have answered. */
  predicate Complete(s: State) {
    forall i :: 0 <= i < |s.tasks| ==> s.tasks[i].phase.Answered?
  }

  lemma NoWorkLeft(remotes: seq<Remote>, tasks: seq<Task>)
    requires |remotes| == |tasks|
    requires forall i :: 0 <= i < |tasks| ==> tasks[i].phase.Answered? && tasks[i].running == []
    ensures TotalWork(remotes, tasks) == 0
  {
    if tasks != [] { NoWorkLeft(remotes[..|tasks| - 1], tasks[..|tasks| - 1]); }
  }

  /** Every run can be continued until all remotes have answered, no run is longer than the work there
      is at the start, and a run that has answered everything has exactly that length. */
  lemma Terminates(c: Config, steps: seq<(nat, Action)>)
    requires c.maxConnections > 0 && c.maxPerRemote > 0 && Run(c, steps).Some?
    ensures |steps| <= TotalWork(c.remotes, Init(c).tasks)
    ensures Complete(Run(c, steps).value) <==> |steps| == TotalWork(c.remotes, Init(c).tasks)
    ensures Complete(Run(c, steps).value) <==> forall i, a :: Step(c, Run(c, steps).value, i, a).None?
  {
    ReachableInv(c, steps);
    var s := Run(c, steps).value;
    if Complete(s) {
      NoWorkLeft(c.remotes, s.tasks);
      forall i, a ensures Step(c, s, i, a).None? {
        if Step(c, s, i, a).Some? { StepKeepsInv(c, s, i, a); }
      }
    } else {
      var i :| 0 <= i < |s.tasks| && !s.tasks[i].phase.Answered?;
      var j, a := NeverStuck(c, steps, i);
      StepKeepsInv(c, s, j, a);
    }
  }
}
