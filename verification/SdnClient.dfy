/** One SDN change across several remotes: lock all, run on all, then apply all or roll back all
    (server/src/sdn_client.rs).

    A remote is whether its SDN configuration is locked and whether it holds pending changes. The
    remote grants a lock when it is free and, unless pending changes are allowed, none are pending.
    How every remote call ends is given from outside. */
module SdnClient {
  import opened Ordering
  import opened Sequences
  import opened Wrappers

  datatype RemoteState = RemoteState(locked: bool, pending: bool)

  type World = map<string, RemoteState>

  /** A callback that fails may or may not have left a change behind. */
  datatype Callback = Succeeds | FailsBefore | FailsAfterChange

  datatype Faults = Faults(
    lockFails: set<string>,
    releaseFails: set<string>,
    rollbackFails: set<string>,
    callbacks: map<string, Callback>)
  {
    function CallbackOf(remote: string): Callback {
      if remote in callbacks then callbacks[remote] else Succeeds
    }
  }

  datatype Error = Unconfigured(remote: string) | LockFailed(remote: string) | TransactionFailed | ApplyFailed

  predicate Lockable(w: World, f: Faults, allowPending: bool, remote: string)
    requires remote in w
  {
    remote !in f.lockFails && !w[remote].locked && (allowPending || !w[remote].pending)
  }

  function Locked(w: World, remote: string): World
    requires remote in w
  {
    w[remote := w[remote].(locked := true)]
  }

  /** All remotes in `held` whose release succeeds are unlocked. */
  function Released(w: World, f: Faults, held: seq<string>): World {
    map r | r in w :: if r in held && r !in f.releaseFails then w[r].(locked := false) else w[r]
  }

  /** `from_remote_names`, with the remotes in `held` locked already. */
  function LockAll(w: World, f: Faults, allowPending: bool, names: seq<string>, held: seq<string>)
    : (World, Result<seq<string>, Error>)
  {
    if names == [] then (w, Ok(Sort(StringLe, held)))
    else if names[0] !in w then (w, Err(Unconfigured(names[0])))
    else if !Lockable(w, f, allowPending, names[0]) then (Released(w, f, held), Err(LockFailed(names[0])))
    else LockAll(Locked(w, names[0]), f, allowPending, names[1..], held + [names[0]])
  }

  /** `w` with the given remotes locked. */
  function WithLocks(w: World, held: seq<string>): World {
    map r | r in w :: if r in held then w[r].(locked := true) else w[r]
  }

  ghost predicate LockableAll(w: World, f: Faults, allowPending: bool, names: seq<string>) {
    && Distinct(names)
    && forall i :: 0 <= i < |names| ==> names[i] in w && Lockable(w, f, allowPending, names[i])
  }

  lemma WithLocksMore(w: World, held: seq<string>, remote: string)
    requires remote in w
    ensures Locked(WithLocks(w, held), remote) == WithLocks(w, held + [remote])
  {}

  /** Locking ends at the `j`-th name, all before it having been locked: there are no more names; or the
      name is not configured, and all locks are kept; or it cannot be locked, and all locks are
      released that can be. */
  ghost predicate EndsAt(w: World, f: Faults, allowPending: bool, names: seq<string>, j: nat, after: World,
                         r: Result<seq<string>, Error>)
  {
    && j <= |names| && LockableAll(w, f, allowPending, names[..j])
    && match r
       case Ok(clients) => j == |names| && clients == Sort(StringLe, names) && after == WithLocks(w, names)
       case Err(Unconfigured(name)) =>
         j < |names| && name == names[j] && name !in w && after == WithLocks(w, names[..j])
       case Err(LockFailed(name)) =>
         && j < |names| && name == names[j] && name in w
         && (name in names[..j] || !Lockable(w, f, allowPending, name))
         && after == Released(WithLocks(w, names[..j]), f, names[..j])
       case Err(_) => false
  }

  lemma {:induction false} LockAllEnds(w: World, f: Faults, allowPending: bool, names: seq<string>, k: nat)
    returns (j: nat)
    requires k <= |names| && LockableAll(w, f, allowPending, names[..k])
    ensures var (after, r) := LockAll(WithLocks(w, names[..k]), f, allowPending, names[k..], names[..k]);
      EndsAt(w, f, allowPending, names, j, after, r)
    decreases |names| - k
  {
    var now := WithLocks(w, names[..k]);
    j := k;
    if k == |names| {
      assert names[..k] == names && names[k..] == [];
    } else {
      var next := names[k];
      assert names[k..][0] == next && names[k..][1..] == names[k + 1..];
      assert names[..k + 1] == names[..k] + [next];
      if next in w && Lockable(now, f, allowPending, next) {
        assert next !in names[..k];
        WithLocksMore(w, names[..k], next);
        j := LockAllEnds(w, f, allowPending, names, k + 1);
      }
    }
  }

  lemma LockingEnds(w: World, f: Faults, allowPending: bool, names: seq<string>) returns (j: nat)
    ensures var (after, r) := LockAll(w, f, allowPending, names, []);
      EndsAt(w, f, allowPending, names, j, after, r)
  {
    assert names[..0] == [] && names[0..] == names && WithLocks(w, []) == w;
    j := LockAllEnds(w, f, allowPending, names, 0);
  }

  /** A name that is not configured keeps the lock of the remote before it. */
  lemma UnknownNameKeepsLock(known: string, unknown: string)
    requires known != unknown
    ensures var w := map[known := RemoteState(false, false)];
      LockAll(w, Faults({}, {}, {}, map[]), false, [known, unknown], [])
      == (map[known := RemoteState(true, false)], Err(Unconfigured(unknown)))
  {
    var w, f := map[known := RemoteState(false, false)], Faults({}, {}, {}, map[]);
    assert [known, unknown][1..] == [unknown];
    assert Locked(w, known) == map[known := RemoteState(true, false)];
    assert LockAll(Locked(w, known), f, false, [unknown], [known]) == (Locked(w, known), Err(Unconfigured(unknown)));
  }

  /** When locking fails at the `j`-th name, the remotes are as they were exactly when nothing was locked
      yet, or the name is a configured one and every release succeeds. A name that is not configured,
      met after a remote was locked, leaves that lock behind. */
  lemma FailedLockingUndone(w: World, f: Faults, allowPending: bool, names: seq<string>) returns (j: nat)
    requires LockAll(w, f, allowPending, names, []).1.Err?
    ensures j < |names| && LockableAll(w, f, allowPending, names[..j])
    ensures LockAll(w, f, allowPending, names, []).1.error
            == if names[j] in w then LockFailed(names[j]) else Unconfigured(names[j])
    ensures LockAll(w, f, allowPending, names, []).0 == w
            <==> j == 0 || (names[j] in w && forall i :: 0 <= i < j ==> names[i] !in f.releaseFails)
  {
    var (after, r) := LockAll(w, f, allowPending, names, []);
    j := LockingEnds(w, f, allowPending, names);
    var held := names[..j];
    if j == 0 {
      assert held == [] && WithLocks(w, []) == w && Released(w, f, []) == w;
    } else {
      assert held[0] in held;
      if r.error.Unconfigured? {
        assert after[held[0]].locked && !w[held[0]].locked;
      } else {
        ReleaseUndoes(w, f, allowPending, held);
        assert forall i :: 0 <= i < j ==> held[i] == names[i];
      }
    }
  }

  lemma ReleaseUndoes(w: World, f: Faults, allowPending: bool, held: seq<string>)
    requires LockableAll(w, f, allowPending, held)
    ensures Released(WithLocks(w, held), f, held) == w
            <==> forall i :: 0 <= i < |held| ==> held[i] !in f.releaseFails
  {
    var after := Released(WithLocks(w, held), f, held);
    if i :| 0 <= i < |held| && held[i] in f.releaseFails {
      assert held[i] in held && after[held[i]].locked;
    } else {
      forall r | r in w ensures after[r] == w[r] {
        if r in held {
          var i :| 0 <= i < |held| && held[i] == r;
        }
      }
    }
  }

  /** Every callback has run. */
  function Changed(w: World, f: Faults, clients: seq<string>): World {
    map r | r in w :: if r in clients && f.CallbackOf(r) != FailsBefore then w[r].(pending := true) else w[r]
  }

  /** Every rollback has been tried; one that succeeds also releases the lock. */
  function RolledBack(w: World, f: Faults, clients: seq<string>): World {
    map r | r in w :: if r in clients && r !in f.rollbackFails then RemoteState(false, false) else w[r]
  }

  predicate AllSucceed(f: Faults, clients: seq<string>) {
    forall i :: 0 <= i < |clients| ==> f.CallbackOf(clients[i]).Succeeds?
  }

  function RunOnAll(w: World, f: Faults, clients: seq<string>): (World, Result<seq<string>, Error>) {
    var changed := Changed(w, f, clients);
    if AllSucceed(f, clients) then (changed, Ok(clients))
    else (RolledBack(changed, f, clients), Err(TransactionFailed))
  }

  /** Lock all, then run on all. */
  function Transaction(w: World, f: Faults, allowPending: bool, names: seq<string>)
    : (World, Result<seq<string>, Error>)
  {
    match LockAll(w, f, allowPending, names, [])
    case (after, Err(error)) => (after, Err(error))
    case (after, Ok(clients)) => RunOnAll(after, f, clients)
  }

  lemma LockedAll(w: World, f: Faults, allowPending: bool, names: seq<string>)
    requires LockAll(w, f, allowPending, names, []).1.Ok?
    ensures LockAll(w, f, allowPending, names, []) == (WithLocks(w, names), Ok(Sort(StringLe, names)))
    ensures LockableAll(w, f, allowPending, names)
    ensures forall r :: r in Sort(StringLe, names) <==> r in names
  {
    var j := LockingEnds(w, f, allowPending, names);
    assert names[..|names|] == names;
    StringOrder();
    SortSorts(StringLe, names);
    var sorted := Sort(StringLe, names);
    assert forall r :: r in sorted <==> r in multiset(sorted);
    assert forall r :: r in names <==> r in multiset(names);
  }

  lemma RollbackRestores(w: World, f: Faults, allowPending: bool, names: seq<string>, clients: seq<string>)
    requires LockableAll(w, f, allowPending, names) && f.rollbackFails == {}
    requires forall r :: r in clients <==> r in names
    ensures RolledBack(Changed(WithLocks(w, names), f, clients), f, clients) == w
            <==> forall i :: 0 <= i < |names| ==> !w[names[i]].pending
  {
    var after := RolledBack(Changed(WithLocks(w, names), f, clients), f, clients);
    assert after.Keys == w.Keys;
    if i :| 0 <= i < |names| && w[names[i]].pending {
      assert names[i] in names && !after[names[i]].pending;
    } else {
      forall r | r in w ensures after[r] == w[r] {
        if r in names {
          var i :| 0 <= i < |names| && names[i] == r;
        }
      }
    }
  }

  /** With every named remote configured and releases and rollbacks succeeding, for every set of lock and
      callback failures: either every named remote is locked with every callback's change pending, or
      the remotes are as they were before, provided that pending changes are not allowed. */
  lemma AllOrNothing(w: World, f: Faults, names: seq<string>)
    requires forall i :: 0 <= i < |names| ==> names[i] in w
    requires f.releaseFails == {} && f.rollbackFails == {}
    ensures var (after, r) := Transaction(w, f, false, names);
      && (r.Err? ==> after == w)
      && (r.Ok? ==>
            && multiset(r.value) == multiset(names)
            && AllSucceed(f, r.value)
            && after.Keys == w.Keys
            && forall x :: x in w ==> after[x] == if x in names then RemoteState(true, true) else w[x])
  {
    var (locked, l) := LockAll(w, f, false, names, []);
    if l.Err? {
      var j := FailedLockingUndone(w, f, false, names);
    } else {
      LockedAll(w, f, false, names);
      RollbackRestores(w, f, false, names, l.value);
      StringOrder();
      SortSorts(StringLe, names);
      forall x | x in w && x in names ensures Changed(locked, f, l.value)[x].pending || !AllSucceed(f, l.value) {
        var i :| 0 <= i < |l.value| && l.value[i] == x;
      }
    }
  }

  /** If pending changes are allowed, a failed transaction takes them away: the remotes are as before
      exactly when there were none. */
  lemma RollbackDropsEarlierChanges(w: World, f: Faults, allowPending: bool, names: seq<string>)
    requires f.rollbackFails == {}
    requires Transaction(w, f, allowPending, names).1 == Err(TransactionFailed)
    ensures LockableAll(w, f, allowPending, names)
    ensures Transaction(w, f, allowPending, names).0 == w
            <==> forall i :: 0 <= i < |names| ==> !w[names[i]].pending
  {
    var (locked, l) := LockAll(w, f, allowPending, names, []);
    if l.Err? {
      var j := FailedLockingUndone(w, f, allowPending, names);
    } else {
      LockedAll(w, f, allowPending, names);
      RollbackRestores(w, f, allowPending, names, l.value);
    }
  }

  /** The remote can be locked: the call succeeds, it is not locked, and pending changes are allowed or absent. */
  predicate CanBeLocked(w: World, f: Faults, allowPending: bool, x: string) {
    x in w && x !in f.lockFails && !w[x].locked && (allowPending || !w[x].pending)
  }

  /** The names before the `j`-th are different remotes that can be locked. */
  ghost predicate LocksUpTo(w: World, f: Faults, allowPending: bool, names: seq<string>, j: nat) {
    && j <= |names| && (forall i :: 0 <= i < j ==> CanBeLocked(w, f, allowPending, names[i]))
    && forall i, k :: 0 <= i < k < j ==> names[i] != names[k]
  }

  /** The state a remote has to be in after a callback that was run on it while locked. */
  function AfterCallback(state: RemoteState, c: Callback): RemoteState {
    RemoteState(true, state.pending || c != FailsBefore)
  }

  /** What lock-all and run-on-all have to leave and return, for every pattern of failures, when the names up to the
      `j`-th can be locked and there are no more, or the next one cannot. */
  ghost predicate TransactionMeans(w: World, f: Faults, allowPending: bool, names: seq<string>, j: nat, after: World,
                                   r: Result<seq<string>, Error>) {
    && LocksUpTo(w, f, allowPending, names, j) && after.Keys == w.Keys
    && if j < |names| then
         && (names[j] in names[..j] || !CanBeLocked(w, f, allowPending, names[j]))
         && r == Err(if names[j] in w then LockFailed(names[j]) else Unconfigured(names[j]))
         && forall x :: x in w ==>
           after[x] == if x in names[..j] && (names[j] !in w || x in f.releaseFails) then w[x].(locked := true)
                       else w[x]
       else if forall i :: 0 <= i < |names| ==> f.CallbackOf(names[i]) == Succeeds then
         && r.Ok? && multiset(r.value) == multiset(names) && SortedBy(StringLe, r.value)
         && forall x :: x in w ==> after[x] == if x in names then RemoteState(true, true) else w[x]
       else
         && r == Err(TransactionFailed)
         && forall x :: x in w ==>
           after[x] == if x !in names then w[x]
                       else if x in f.rollbackFails then AfterCallback(w[x], f.CallbackOf(x))
                       else RemoteState(false, false)
  }

  lemma LockableAllMeans(w: World, f: Faults, allowPending: bool, names: seq<string>, j: nat)
    requires j <= |names| && LockableAll(w, f, allowPending, names[..j])
    ensures LocksUpTo(w, f, allowPending, names, j)
  {
    var held := names[..j];
    assert forall i :: 0 <= i < j ==> held[i] == names[i];
  }

  lemma FailedLockingMeans(w: World, f: Faults, allowPending: bool, names: seq<string>) returns (j: nat)
    requires LockAll(w, f, allowPending, names, []).1.Err?
    ensures var (after, r) := Transaction(w, f, allowPending, names);
      TransactionMeans(w, f, allowPending, names, j, after, r)
  {
    var (after, r) := LockAll(w, f, allowPending, names, []);
    j := LockingEnds(w, f, allowPending, names);
    LockableAllMeans(w, f, allowPending, names, j);
    forall x | x in w && x in names[..j] ensures !w[x].locked {
      var i :| 0 <= i < j && names[..j][i] == x;
      assert names[i] == x;
    }
  }

  lemma RanOnAllMeans(w: World, f: Faults, allowPending: bool, names: seq<string>)
    requires LockAll(w, f, allowPending, names, []).1.Ok?
    ensures var (after, r) := Transaction(w, f, allowPending, names);
      TransactionMeans(w, f, allowPending, names, |names|, after, r)
  {
    LockedAll(w, f, allowPending, names);
    var clients := Sort(StringLe, names);
    StringOrder();
    SortSorts(StringLe, names);
    assert names[..|names|] == names;
    LockableAllMeans(w, f, allowPending, names, |names|);
    SucceedAlike(f, clients, names);
    if AllSucceed(f, clients) {
      TransactionChanges(w, f, allowPending, names);
    } else {
      RolledBackMeans(w, f, names, clients);
    }
  }

  lemma RolledBackMeans(w: World, f: Faults, names: seq<string>, clients: seq<string>)
    requires forall x :: x in clients <==> x in names
    ensures var after := RolledBack(Changed(WithLocks(w, names), f, clients), f, clients);
      && after.Keys == w.Keys
      && forall x :: x in w ==>
        after[x] == if x !in names then w[x]
                    else if x in f.rollbackFails then AfterCallback(w[x], f.CallbackOf(x))
                    else RemoteState(false, false)
  {}

  lemma SucceedAlike(f: Faults, clients: seq<string>, names: seq<string>)
    requires forall x :: x in clients <==> x in names
    ensures AllSucceed(f, clients) <==> forall i :: 0 <= i < |names| ==> f.CallbackOf(names[i]) == Succeeds
  {
    if AllSucceed(f, clients) {
      forall i | 0 <= i < |names| ensures f.CallbackOf(names[i]) == Succeeds {
        assert names[i] in clients;
      }
    }
    if forall i :: 0 <= i < |names| ==> f.CallbackOf(names[i]) == Succeeds {
      forall i | 0 <= i < |clients| ensures f.CallbackOf(clients[i]).Succeeds? {
        assert clients[i] in names;
      }
    }
  }

  /** For every pattern of lock, release, callback and rollback failures, the state of every remote after lock-all and
      run-on-all, and what is returned. */
  lemma TransactionDoes(w: World, f: Faults, allowPending: bool, names: seq<string>) returns (j: nat)
    ensures var (after, r) := Transaction(w, f, allowPending, names);
      TransactionMeans(w, f, allowPending, names, j, after, r)
  {
    if LockAll(w, f, allowPending, names, []).1.Err? {
      j := FailedLockingMeans(w, f, allowPending, names);
    } else {
      RanOnAllMeans(w, f, allowPending, names);
      j := |names|;
    }
  }

  /** A status query of a running reload. */
  datatype Poll = StillRunning | Ended(ok: bool) | QueryFails

  /** How applying ends on a remote: not at all, or with a task whose id is or is not valid and whose
      status queries answer as listed. */
  datatype Apply = NotApplied | Applied(validUpid: bool, polls: seq<Poll>)

  /** A reload does not run for ever. */
  predicate Ends(polls: seq<Poll>) { exists i :: 0 <= i < |polls| && !polls[i].StillRunning? }

  predicate ValidApply(a: Apply) { a.Applied? ==> Ends(a.polls) }

  predicate IsPolled(a: Apply) { a.Applied? && a.validUpid }

  /** The first status that is not "running". */
  function EndOf(polls: seq<Poll>): (k: nat)
    requires Ends(polls)
    ensures k < |polls| && !polls[k].StillRunning? && forall i :: 0 <= i < k ==> polls[i].StillRunning?
  {
    if !polls[0].StillRunning? then 0
    else
      assert var i :| 0 <= i < |polls| && !polls[i].StillRunning?; !polls[1..][i - 1].StillRunning?;
      1 + EndOf(polls[1..])
  }

  predicate ReloadFails(a: Apply)
    requires ValidApply(a)
  {
    a.Applied? && a.polls[EndOf(a.polls)] != Ended(true)
  }

  /** What the caller is promised to hear of: a remote on which applying or reloading failed. */
  predicate Failed(a: Apply)
    requires ValidApply(a)
  {
    a.NotApplied? || ReloadFails(a)
  }

  predicate AllValid(applies: map<string, Apply>, clients: seq<string>) {
    forall i :: 0 <= i < |clients| ==> clients[i] in applies && ValidApply(applies[clients[i]])
  }

  /** What `apply_and_release` returns when the applies complete in the given order: an error if a task that
      was polled did not end well. */
  function ApplyResult(applies: map<string, Apply>, completion: seq<string>): Result<(), Error>
    requires AllValid(applies, completion)
  {
    if completion == [] then Ok(())
    else
      var k := |completion| - 1;
      var a := applies[completion[k]];
      if IsPolled(a) && ReloadFails(a) then Err(ApplyFailed) else ApplyResult(applies, completion[..k])
  }

  lemma {:induction false} ErrorIfPolledFails(applies: map<string, Apply>, completion: seq<string>)
    requires AllValid(applies, completion)
    ensures ApplyResult(applies, completion).Err?
            <==> exists x :: x in completion && IsPolled(applies[x]) && ReloadFails(applies[x])
  {
    if completion != [] {
      var k := |completion| - 1;
      ErrorIfPolledFails(applies, completion[..k]);
      assert completion == completion[..k] + [completion[k]];
    }
  }

  /** The doc comment promises an error if applying or reloading failed on a remote. In every order of
      completion the promise is kept exactly when nothing goes unheard, that is when no apply failed and no
      reload without a valid task id did, or when a reload with a valid task id failed as well. */
  lemma ErrorMissesFailedApplies(applies: map<string, Apply>, clients: seq<string>, completion: seq<string>)
    requires AllValid(applies, clients) && multiset(completion) == multiset(clients)
    ensures AllValid(applies, completion)
    ensures (ApplyResult(applies, completion).Err? <==> exists x :: x in clients && Failed(applies[x]))
            <==> || (forall x :: x in clients ==>
                       applies[x].Applied? && (!applies[x].validUpid ==> !ReloadFails(applies[x])))
                 || (exists x :: x in clients && applies[x].Applied? && applies[x].validUpid && ReloadFails(applies[x]))
  {
    SameElements(completion, clients);
    ErrorIfPolledFails(applies, completion);
  }

  /** A failed apply alone is not reported. */
  lemma FailedApplyUnreported(x: string)
    ensures var applies := map[x := NotApplied];
      Failed(applies[x]) && ApplyResult(applies, [x]) == Ok(())
  {
    assert [x][..0] == [];
  }

  /** Nor is a failed reload whose task id could not be read. */
  lemma UnreadableIdUnreported(x: string)
    ensures ValidApply(Applied(false, [Ended(false)]))
    ensures var applies := map[x := Applied(false, [Ended(false)])];
      Failed(applies[x]) && ApplyResult(applies, [x]) == Ok(())
  {
    var a := Applied(false, [Ended(false)]);
    assert !a.polls[0].StillRunning?;
    assert [x][..0] == [];
  }

  /** What applying leaves on the remotes: a lock is released only by a successful apply. */
  function AppliedWorld(w: World, applies: map<string, Apply>, clients: seq<string>): World
    requires forall i :: 0 <= i < |clients| ==> clients[i] in applies
  {
    map r | r in w :: if r in clients && applies[r].Applied? then RemoteState(false, false) else w[r]
  }

  /** From locking to applying: after a successful transaction, each named remote is unlocked with nothing
      pending if its apply succeeds, and is else left locked with its change pending; no other remote has
      changed since before the transaction. */
  lemma TransactionApplied(w: World, f: Faults, allowPending: bool, names: seq<string>, applies: map<string, Apply>)
    requires Transaction(w, f, allowPending, names).1.Ok?
    requires forall i :: 0 <= i < |names| ==> names[i] in applies
    ensures var (changed, r) := Transaction(w, f, allowPending, names);
      && (forall i :: 0 <= i < |r.value| ==> r.value[i] in applies)
      && AppliedWorld(changed, applies, r.value).Keys == w.Keys
      && forall x :: x in w ==>
        AppliedWorld(changed, applies, r.value)[x]
        == if x !in names then w[x]
           else if applies[x].Applied? then RemoteState(false, false)
           else RemoteState(true, true)
  {
    TransactionChanges(w, f, allowPending, names);
  }

  /** A successful transaction leaves exactly the named remotes locked with their change pending. */
  lemma TransactionChanges(w: World, f: Faults, allowPending: bool, names: seq<string>)
    requires Transaction(w, f, allowPending, names).1.Ok?
    ensures var (changed, r) := Transaction(w, f, allowPending, names);
      && (forall x :: x in r.value <==> x in names)
      && (forall i :: 0 <= i < |r.value| ==> r.value[i] in names)
      && changed.Keys == w.Keys
      && forall x :: x in w ==> changed[x] == if x in names then RemoteState(true, true) else w[x]
  {
    var (changed, r) := Transaction(w, f, allowPending, names);
    LockedAll(w, f, allowPending, names);
    forall x | x in w && x in names ensures changed[x] == RemoteState(true, true) {
      var i :| 0 <= i < |r.value| && r.value[i] == x;
    }
  }

  class SdnRemotes {
    var remotes: World

    constructor (remotes: World)
      ensures this.remotes == remotes
    {
      this.remotes := remotes;
    }

    method FromRemoteNames(f: Faults, names: seq<string>, allowPending: bool)
      returns (r: Result<seq<string>, Error>)
      modifies this
      ensures (remotes, r) == LockAll(old(remotes), f, allowPending, names, [])
    {
      var clients := [];
      assert names[0..] == names;
      for i := 0 to |names|
        invariant LockAll(remotes, f, allowPending, names[i..], clients)
                  == LockAll(old(remotes), f, allowPending, names, [])
      {
        var name := names[i];
        assert names[i..][0] == name && names[i..][1..] == names[i + 1..];
        if name !in remotes { return Err(Unconfigured(name)); }
        if name !in f.lockFails && !remotes[name].locked && (allowPending || !remotes[name].pending) {
          remotes := remotes[name := remotes[name].(locked := true)];
          clients := clients + [name];
        } else {
          ReleaseEach(f, clients);
          return Err(LockFailed(name));
        }
      }
      r := Ok(Sort(StringLe, clients));
    }

    method ReleaseEach(f: Faults, clients: seq<string>)
      modifies this
      ensures remotes == Released(old(remotes), f, clients)
    {
      assert Released(remotes, f, []) == remotes;
      for i := 0 to |clients|
        invariant remotes == Released(old(remotes), f, clients[..i])
      {
        assert clients[..i + 1] == clients[..i] + [clients[i]];
        if clients[i] in remotes && clients[i] !in f.releaseFails {
          remotes := remotes[clients[i] := remotes[clients[i]].(locked := false)];
        }
      }
      assert clients[..|clients|] == clients;
    }

    method ForEach(f: Faults, clients: seq<string>) returns (r: Result<seq<string>, Error>)
      modifies this
      ensures (remotes, r) == RunOnAll(old(remotes), f, clients)
    {
      var errors := CallEach(f, clients);
      if errors {
        RollBackEach(f, clients);
        return Err(TransactionFailed);
      }
      r := Ok(clients);
    }

    method CallEach(f: Faults, clients: seq<string>) returns (errors: bool)
      modifies this
      ensures remotes == Changed(old(remotes), f, clients) && (errors <==> !AllSucceed(f, clients))
    {
      errors := false;
      assert Changed(remotes, f, []) == remotes;
      for i := 0 to |clients|
        invariant remotes == Changed(old(remotes), f, clients[..i])
        invariant errors <==> exists k :: 0 <= k < i && !f.CallbackOf(clients[k]).Succeeds?
      {
        assert clients[..i + 1] == clients[..i] + [clients[i]];
        if clients[i] in remotes && f.CallbackOf(clients[i]) != FailsBefore {
          remotes := remotes[clients[i] := remotes[clients[i]].(pending := true)];
        }
        if !f.CallbackOf(clients[i]).Succeeds? { errors := true; }
      }
      assert clients[..|clients|] == clients;
    }

    method RollBackEach(f: Faults, clients: seq<string>)
      modifies this
      ensures remotes == RolledBack(old(remotes), f, clients)
    {
      assert RolledBack(remotes, f, []) == remotes;
      for i := 0 to |clients|
        invariant remotes == RolledBack(old(remotes), f, clients[..i])
      {
        assert clients[..i + 1] == clients[..i] + [clients[i]];
        if clients[i] in remotes && clients[i] !in f.rollbackFails {
          remotes := remotes[clients[i] := RemoteState(false, false)];
        }
      }
      assert clients[..|clients|] == clients;
    }

    /** Poll one reload until it is no longer running: every query up to its end is made and no more. */
    method PollTask(polls: seq<Poll>) returns (ok: bool, queries: nat)
      requires Ends(polls)
      ensures queries == EndOf(polls) + 1
      ensures ok <==> polls[EndOf(polls)] == Ended(true)
    {
      queries := 0;
      while true
        invariant queries <= EndOf(polls)
        decreases |polls| - queries
      {
        var status := polls[queries];
        queries := queries + 1;
        match status
        case QueryFails => return false, queries;
        case Ended(true) => return true, queries;
        case Ended(false) => return false, queries;
        case StillRunning =>
      }
    }

    /** Whatever the order in which the calls complete: every locked client is applied exactly once, every
        successful apply with a valid task id is polled to its end and no other, and an error is
        returned exactly when a polled reload failed. */
    method ApplyAndRelease(applies: map<string, Apply>, clients: seq<string>, completion: seq<string>)
      returns (r: Result<(), Error>, applied: seq<string>, polled: seq<string>)
      requires multiset(completion) == multiset(clients)
      requires AllValid(applies, clients)
      modifies this
      ensures multiset(applied) == multiset(clients)
      ensures forall x ::
        multiset(polled)[x] == if x in applies && IsPolled(applies[x]) then multiset(clients)[x] else 0
      ensures AllValid(applies, completion) && r == ApplyResult(applies, completion)
      ensures r.Err? <==> exists x :: x in clients && IsPolled(applies[x]) && ReloadFails(applies[x])
      ensures remotes == AppliedWorld(old(remotes), applies, clients)
    {
      SameElements(completion, clients);
      applied, polled := ApplyEach(applies, completion);
      AppliedInAnyOrder(old(remotes), applies, completion, clients);
      ReportedInAnyOrder(applies, completion, clients);
      PolledResult(applies, completion);
      var errors := PollEach(applies, polled);
      r := if errors then Err(ApplyFailed) else Ok(());
    }

    /** Poll every task to its end, noting whether one fails. */
    method PollEach(applies: map<string, Apply>, polled: seq<string>) returns (errors: bool)
      requires AllValid(applies, polled) && forall i :: 0 <= i < |polled| ==> IsPolled(applies[polled[i]])
      ensures errors <==> exists i :: 0 <= i < |polled| && ReloadFails(applies[polled[i]])
    {
      errors := false;
      for i := 0 to |polled|
        invariant errors <==> exists k :: 0 <= k < i && ReloadFails(applies[polled[k]])
      {
        var ok, queries := PollTask(applies[polled[i]].polls);
        if !ok { errors := true; }
      }
    }

    method ApplyEach(applies: map<string, Apply>, completion: seq<string>)
      returns (applied: seq<string>, polled: seq<string>)
      requires forall i :: 0 <= i < |completion| ==> completion[i] in applies
      modifies this
      ensures applied == completion && polled == PolledOf(applies, completion)
      ensures remotes == AppliedWorld(old(remotes), applies, completion)
    {
      applied, polled := [], [];
      assert AppliedWorld(remotes, applies, []) == remotes;
      for i := 0 to |completion|
        invariant applied == completion[..i] && polled == PolledOf(applies, completion[..i])
        invariant remotes == AppliedWorld(old(remotes), applies, completion[..i])
      {
        var client := completion[i];
        assert completion[..i + 1] == completion[..i] + [client] && completion[..i + 1][..i] == completion[..i];
        applied := applied + [client];
        if applies[client].Applied? {
          if client in remotes { remotes := remotes[client := RemoteState(false, false)]; }
          if applies[client].validUpid { polled := polled + [client]; }
        }
      }
      assert completion[..|completion|] == completion;
    }
  }

  /** The clients that are polled, in the order in which they were applied. */
  function PolledOf(applies: map<string, Apply>, completion: seq<string>): seq<string>
    requires forall i :: 0 <= i < |completion| ==> completion[i] in applies
  {
    if completion == [] then []
    else
      var k := |completion| - 1;
      PolledOf(applies, completion[..k]) + if IsPolled(applies[completion[k]]) then [completion[k]] else []
  }

  lemma {:induction false} PolledCount(applies: map<string, Apply>, completion: seq<string>, x: string)
    requires forall i :: 0 <= i < |completion| ==> completion[i] in applies
    ensures multiset(PolledOf(applies, completion))[x]
            == if x in applies && IsPolled(applies[x]) then multiset(completion)[x] else 0
  {
    if completion != [] {
      var k := |completion| - 1;
      PolledCount(applies, completion[..k], x);
      assert completion == completion[..k] + [completion[k]];
    }
  }

  lemma AppliedInAnyOrder(w: World, applies: map<string, Apply>, a: seq<string>, b: seq<string>)
    requires forall i :: 0 <= i < |a| ==> a[i] in applies
    requires forall i :: 0 <= i < |b| ==> b[i] in applies
    requires forall x :: x in a <==> x in b
    ensures AppliedWorld(w, applies, a) == AppliedWorld(w, applies, b)
  {}

  lemma SameElements(a: seq<string>, b: seq<string>)
    requires multiset(a) == multiset(b)
    ensures forall x :: x in a <==> x in b
    ensures forall i :: 0 <= i < |a| ==> a[i] in b
  {
    assert forall x :: x in a <==> x in multiset(a);
    assert forall x :: x in b <==> x in multiset(b);
  }

  lemma ReportedInAnyOrder(applies: map<string, Apply>, completion: seq<string>, clients: seq<string>)
    requires AllValid(applies, clients) && AllValid(applies, completion) && multiset(completion) == multiset(clients)
    ensures forall x ::
      multiset(PolledOf(applies, completion))[x]
      == if x in applies && IsPolled(applies[x]) then multiset(clients)[x] else 0
    ensures ApplyResult(applies, completion).Err?
            <==> exists x :: x in clients && IsPolled(applies[x]) && ReloadFails(applies[x])
  {
    SameElements(completion, clients);
    ErrorIfPolledFails(applies, completion);
    forall x { PolledCount(applies, completion, x); }
  }

  /** What polling finds is what is returned. */
  lemma {:induction false} PolledResult(applies: map<string, Apply>, completion: seq<string>)
    requires AllValid(applies, completion)
    ensures var polled := PolledOf(applies, completion);
      && AllValid(applies, polled) && (forall i :: 0 <= i < |polled| ==> IsPolled(applies[polled[i]]))
      && ApplyResult(applies, completion)
         == if exists i :: 0 <= i < |polled| && ReloadFails(applies[polled[i]]) then Err(ApplyFailed) else Ok(())
  {
    if completion != [] {
      var k := |completion| - 1;
      PolledResult(applies, completion[..k]);
      var before, polled := PolledOf(applies, completion[..k]), PolledOf(applies, completion);
      assert forall i :: 0 <= i < |before| ==> polled[i] == before[i];
      if IsPolled(applies[completion[k]]) { assert polled[|before|] == completion[k]; }
    }
  }
}
